/**
 * Calendar dates of the proleptic Gregorian calendar, as JavaScript's `Date`
 * handles them once the time of day is set aside. Months count from 0 as in
 * `Date.prototype.getMonth`.
 */
module CivilDates {
  import opened Numbers

  datatype CivilDate = CivilDate(year: int, month: int, day: int)

  predicate IsLeapYear(y: int) {
    y % 4 == 0 && (y % 100 != 0 || y % 400 == 0)
  }

  /** The number of days of month `m` (0 = January) of year `y`. */
  function DaysInMonth(y: int, m: int): (n: int)
    requires 0 <= m < 12
    ensures 28 <= n <= 31
  {
    if m == 1 then (if IsLeapYear(y) then 29 else 28)
    else if m == 3 || m == 5 || m == 8 || m == 10 then 30
    else 31
  }

  predicate Valid(d: CivilDate) {
    0 <= d.month < 12 && 1 <= d.day <= DaysInMonth(d.year, d.month)
  }

  /** Months counted from January of year 0, the order in which the calendar pages through them. */
  function MonthIndex(d: CivilDate): int {
    d.year * 12 + d.month
  }

  /**
   * The day number of March 1 of year `y`, counting days since 1970-01-01;
   * years are taken to start in March, so a leap day ends the year before.
   */
  function MarchFirst(y: int): int {
    var era := y / 400;
    var yoe := y - era * 400;
    era * 146097 + yoe * 365 + yoe / 4 - yoe / 100 - 719468
  }

  /** Days from March 1 to the first day of month `m` (0 = January), in a year that starts in March. */
  function DaysBeforeMonth(m: int): (n: int)
    requires 0 <= m < 12
    ensures 0 <= n <= 337
  {
    if m == 2 then 0 else if m == 3 then 31 else if m == 4 then 61 else if m == 5 then 92
    else if m == 6 then 122 else if m == 7 then 153 else if m == 8 then 184 else if m == 9 then 214
    else if m == 10 then 245 else if m == 11 then 275 else if m == 0 then 306 else 337
  }

  /**
   * The day number (days since 1970-01-01) of a date; `month` counts from 0.
   * This is the day-ordinal stand-in for `new Date(...)` at midnight. A day
   * beyond the end of the month runs on into the next months, as JavaScript's
   * `MakeDay` lets it.
   */
  function DayNumber(d: CivilDate): int
    requires 0 <= d.month < 12
  {
    var y := if d.month < 2 then d.year - 1 else d.year;
    MarchFirst(y) + DaysBeforeMonth(d.month) + d.day - 1
  }

  /** The first day of the month after month `m` of year `y`. */
  function FirstOfNextMonth(y: int, m: int): CivilDate
    requires 0 <= m < 12
  {
    if m == 11 then CivilDate(y + 1, 0, 1) else CivilDate(y, m + 1, 1)
  }

  /** A year that starts in March is 366 days long exactly when the February at its end is a leap one. */
  lemma MarchYearLength(y: int)
    ensures MarchFirst(y + 1) - MarchFirst(y) == if IsLeapYear(y + 1) then 366 else 365
  {
    var era, yoe := y / 400, y % 400;
    if yoe == 399 {
      YearEndsEra(y, era);
    } else {
      YearInEra(y, era, yoe);
    }
  }

  /** The March-based year before a multiple of 400 is a leap one. */
  lemma YearEndsEra(y: int, e: int)
    requires y == 400 * e + 399
    ensures MarchFirst(y + 1) - MarchFirst(y) == 366 && IsLeapYear(y + 1)
  {
    MarchFirstInEra(y, e, 399);
    MarchFirstInEra(y + 1, e + 1, 0);
    assert 399 * 365 + 399 / 4 - 399 / 100 == 145731;
    LeapInEra(y + 1, e + 1, 0);
  }

  /** Within a 400-year cycle the leap rule is the one for 4 and 100 alone. */
  lemma YearInEra(y: int, e: int, j: int)
    requires 0 <= j < 399 && y == 400 * e + j
    ensures MarchFirst(y + 1) - MarchFirst(y) == if IsLeapYear(y + 1) then 366 else 365
  {
    MarchFirstInEra(y, e, j);
    MarchFirstInEra(y + 1, e, j + 1);
    assert MarchFirst(y + 1) - MarchFirst(y) == 365 + ((j + 1) / 4 - j / 4) - ((j + 1) / 100 - j / 100);
    StepDiv(j, 4);
    StepDiv(j, 100);
    LeapInEra(y + 1, e, j + 1);
    if (j + 1) % 100 == 0 {
      CenturyDivisibleBy4(j + 1);
    }
  }

  /** A multiple of 100 is a multiple of 4. */
  lemma CenturyDivisibleBy4(n: int)
    requires n % 100 == 0
    ensures n % 4 == 0
  {
    var q := n / 100;
    assert n == 4 * (25 * q) + 0;
    ModShift(4, 25 * q, 0);
  }

  /** `MarchFirst` of year `y`, given as its 400-year cycle `e` and its place `j` in the cycle. */
  lemma MarchFirstInEra(y: int, e: int, j: int)
    requires 0 <= j < 400 && y == 400 * e + j
    ensures MarchFirst(y) == e * 146097 + j * 365 + j / 4 - j / 100 - 719468
  {
    DivOfMultiple(e, j);
  }

  /** Whether year `y` is a leap year depends only on its place `j` in its 400-year cycle. */
  lemma LeapInEra(y: int, e: int, j: int)
    requires 0 <= j < 400 && y == 400 * e + j
    ensures IsLeapYear(y) <==> j % 4 == 0 && (j % 100 != 0 || j == 0)
  {
    ModOfMultiple(e, j);
  }

  /** Splitting off whole 400-year cycles. */
  lemma DivOfMultiple(e: int, j: int)
    requires 0 <= j < 400
    ensures (400 * e + j) / 400 == e
  {
  }

  /** Divisibility by 4, 100 and 400 ignores whole 400-year cycles. */
  lemma ModOfMultiple(e: int, j: int)
    requires 0 <= j < 400
    ensures (400 * e + j) % 4 == j % 4
    ensures (400 * e + j) % 100 == j % 100
    ensures (400 * e + j) % 400 == j
  {
    assert 400 * e == 4 * (100 * e);
    ModShift(4, 100 * e, j);
    assert 400 * e == 100 * (4 * e);
    ModShift(100, 4 * e, j);
    ModShift(400, e, j);
  }

  /** Adding a multiple of `d` does not change the remainder modulo `d`. */
  lemma ModShift(d: int, k: int, j: int)
    requires d > 0
    ensures (d * k + j) % d == j % d
  {
    var q := j / d;
    DivBounds(j, d);
    assert d * k + j == d * (k + q) + j % d;
    DivUnique(d * k + j, d, k + q);
  }

  /** Stepping by one crosses a multiple of `d` exactly when it lands on one. */
  lemma StepDiv(k: int, d: int)
    requires 0 <= k && 0 < d
    ensures (k + 1) / d - k / d == if (k + 1) % d == 0 then 1 else 0
  {
    var q := k / d;
    DivBounds(k, d);
    if k + 1 < d * q + d {
      DivUnique(k + 1, d, q);
    } else {
      DivUnique(k + 1, d, q + 1);
    }
  }

  /** Day numbers agree with month lengths: the next month starts `DaysInMonth` days after this one. */
  lemma MonthLength(y: int, m: int)
    requires 0 <= m < 12
    ensures DayNumber(FirstOfNextMonth(y, m)) == DayNumber(CivilDate(y, m, 1)) + DaysInMonth(y, m)
  {
    if m == 1 {
      FebruaryLength(y);
    } else if m == 11 {
      DecemberLength(y);
    } else {
      assert DaysBeforeMonth(m + 1) == DaysBeforeMonth(m) + DaysInMonth(y, m);
    }
  }

  /** March 1 comes 28 or 29 days after February 1, as the year is a leap one or not. */
  lemma FebruaryLength(y: int)
    ensures DayNumber(CivilDate(y, 2, 1)) == DayNumber(CivilDate(y, 1, 1)) + DaysInMonth(y, 1)
  {
    MarchYearLength(y - 1);
    assert DayNumber(CivilDate(y, 2, 1)) == MarchFirst(y);
    assert DayNumber(CivilDate(y, 1, 1)) == MarchFirst(y - 1) + 337;
  }

  /** January 1 of the next year comes 31 days after December 1. */
  lemma DecemberLength(y: int)
    ensures DayNumber(CivilDate(y + 1, 0, 1)) == DayNumber(CivilDate(y, 11, 1)) + 31
  {
    assert DayNumber(CivilDate(y + 1, 0, 1)) == MarchFirst(y) + 306;
    assert DayNumber(CivilDate(y, 11, 1)) == MarchFirst(y) + 275;
  }
}
