/**
 * The calendar page of `src/pages/Calendar.tsx`: which events a day lists,
 * which days carry a marker, and the month navigation buttons.
 *
 * Dates are day numbers (see `CivilDates.DayNumber`); the time of day that
 * the page clears with `setHours(0, 0, 0, 0)` is not represented.
 */
module Calendar {
  import opened Wrappers
  import opened Types
  import opened Seqs
  import opened CivilDates

  /** The event's day range contains `day`, both ends included. */
  predicate Covers(e: Event, day: int) {
    e.startDate <= day <= e.endDate
  }

  /**
   * `eventsForSelectedDate`: with a selected day, the events whose range
   * covers it, in list order; with none, nothing.
   */
  function EventsOn(events: seq<Event>, selected: Option<int>): (r: seq<Event>)
    ensures selected.None? ==> r == []
    ensures selected.Some? ==> IsSubsequence(r, events)
    ensures selected.Some? ==> forall i :: 0 <= i < |r| ==> r[i] in events && Covers(r[i], selected.value)
    ensures selected.Some? ==>
      forall i :: 0 <= i < |events| && Covers(events[i], selected.value) ==> events[i] in r
    ensures selected.Some? ==>
      forall e :: e in events ==> multiset(r)[e] == if Covers(e, selected.value) then multiset(events)[e] else 0
  {
    match selected
    case None => []
    case Some(day) =>
      FilterMultiset(events, (e: Event) => Covers(e, day));
      Filter(events, (e: Event) => Covers(e, day))
  }

  /** The marker under a day of the month grid: the day lists at least one event. */
  predicate HasMarker(events: seq<Event>, day: int) {
    |EventsOn(events, Some(day))| > 0
  }

  /** A day carries a marker exactly when some event's inclusive range covers it. */
  lemma MarkerIff(events: seq<Event>, day: int)
    ensures HasMarker(events, day) <==> exists i :: 0 <= i < |events| && events[i].startDate <= day <= events[i].endDate
  {
    var r := EventsOn(events, Some(day));
    if HasMarker(events, day) {
      assert r[0] in events;
      var i :| 0 <= i < |events| && events[i] == r[0];
      assert Covers(events[i], day);
    }
    if exists i :: 0 <= i < |events| && events[i].startDate <= day <= events[i].endDate {
      var i :| 0 <= i < |events| && events[i].startDate <= day <= events[i].endDate;
      assert events[i] in r;
    }
  }

  // ------------------------------------------------------------- month navigation

  /** The month `delta` months away from `d`'s month, as a first-of-month date. */
  function TargetMonth(d: CivilDate, delta: int): (r: CivilDate)
    ensures 0 <= r.month < 12 && r.day == 1
    ensures MonthIndex(r) == MonthIndex(d) + delta
  {
    var i := MonthIndex(d) + delta;
    CivilDate(i / 12, i % 12, 1)
  }

  /**
   * `newDate.setMonth(newDate.getMonth() + delta)`: the same day of the
   * month in the target month; a day the target month does not have runs on
   * into the month after it (January 31 plus one month is March 3 in a
   * common year). The result is the date `MakeDay` gives for the target
   * month with the day unchanged.
   */
  function ShiftMonth(d: CivilDate, delta: int): (r: CivilDate)
    requires Valid(d)
    ensures Valid(r)
    ensures var t := TargetMonth(d, delta);
      DayNumber(r) == DayNumber(t) + d.day - 1
  {
    var t := TargetMonth(d, delta);
    var length := DaysInMonth(t.year, t.month);
    if d.day <= length then
      CivilDate(t.year, t.month, d.day)
    else
      Overflow(t.year, t.month, d.day);
      var n := FirstOfNextMonth(t.year, t.month);
      CivilDate(n.year, n.month, d.day - length)
  }

  /** A day past the end of a month lands early in the next one, the same number of days on. */
  lemma Overflow(y: int, m: int, day: int)
    requires 0 <= m < 12 && DaysInMonth(y, m) < day <= 31
    ensures var n := FirstOfNextMonth(y, m);
      var r := CivilDate(n.year, n.month, day - DaysInMonth(y, m));
      Valid(r) && DayNumber(r) == DayNumber(CivilDate(y, m, 1)) + day - 1
  {
    var n := FirstOfNextMonth(y, m);
    var r := CivilDate(n.year, n.month, day - DaysInMonth(y, m));
    MonthLength(y, m);
    assert DayNumber(r) == DayNumber(n) + r.day - 1;
  }

  /**
   * The buttons move the displayed month by exactly `delta` months if and
   * only if the displayed day of the month exists in the target month.
   */
  lemma ShiftMonthMovesByDeltaIff(d: CivilDate, delta: int)
    requires Valid(d)
    ensures MonthIndex(ShiftMonth(d, delta)) == MonthIndex(d) + delta
      <==> d.day <= DaysInMonth(TargetMonth(d, delta).year, TargetMonth(d, delta).month)
  {
    var t := TargetMonth(d, delta);
    if d.day > DaysInMonth(t.year, t.month) {
      assert MonthIndex(FirstOfNextMonth(t.year, t.month)) == MonthIndex(t) + 1;
    }
  }

  /** From January 31, 2025 the next-month button shows March: February is skipped. */
  lemma NextSkipsFebruary()
    ensures ShiftMonth(CivilDate(2025, 0, 31), 1) == CivilDate(2025, 2, 3)
  {
    assert TargetMonth(CivilDate(2025, 0, 31), 1) == CivilDate(2025, 1, 1);
    assert DaysInMonth(2025, 1) == 28;
  }

  /** From March 31, 2025 the previous-month button stays in March. */
  lemma PreviousStaysInMarch()
    ensures ShiftMonth(CivilDate(2025, 2, 31), -1) == CivilDate(2025, 2, 3)
  {
    assert TargetMonth(CivilDate(2025, 2, 31), -1) == CivilDate(2025, 1, 1);
    assert DaysInMonth(2025, 1) == 28;
  }

  /**
   * The evidently intended navigation: the target month, with the day of
   * the month kept where it exists and clamped to the month's last day
   * otherwise.
   */
  function ShiftMonthClamped(d: CivilDate, delta: int): (r: CivilDate)
    requires Valid(d)
    ensures Valid(r)
    ensures MonthIndex(r) == MonthIndex(d) + delta
    ensures r.day == (if d.day <= DaysInMonth(r.year, r.month) then d.day else DaysInMonth(r.year, r.month))
  {
    var t := TargetMonth(d, delta);
    var length := DaysInMonth(t.year, t.month);
    CivilDate(t.year, t.month, if d.day <= length then d.day else length)
  }

  /** Where the day exists in the target month, the clamped navigation and `setMonth` agree. */
  lemma ClampedAgreesWhenDayExists(d: CivilDate, delta: int)
    requires Valid(d)
    requires d.day <= DaysInMonth(TargetMonth(d, delta).year, TargetMonth(d, delta).month)
    ensures ShiftMonthClamped(d, delta) == ShiftMonth(d, delta)
  {
  }

  /** With the clamped navigation, going forward and back returns to the starting month. */
  lemma ClampedNextThenPrevious(d: CivilDate)
    requires Valid(d)
    ensures MonthIndex(ShiftMonthClamped(ShiftMonthClamped(d, 1), -1)) == MonthIndex(d)
  {
  }

  // ------------------------------------------------------------- page state

  /** The page's state: the date whose month is shown, and the selected day, if any. */
  datatype View = View(shown: CivilDate, selected: Option<int>)

  /** The previous-month button; the selected day stays. */
  function PreviousMonth(v: View): (r: View)
    requires Valid(v.shown)
    ensures Valid(r.shown) && r.selected == v.selected
    ensures DayNumber(r.shown) == DayNumber(TargetMonth(v.shown, -1)) + v.shown.day - 1
  {
    v.(shown := ShiftMonth(v.shown, -1))
  }

  /** The next-month button; the selected day stays. */
  function NextMonth(v: View): (r: View)
    requires Valid(v.shown)
    ensures Valid(r.shown) && r.selected == v.selected
    ensures DayNumber(r.shown) == DayNumber(TargetMonth(v.shown, 1)) + v.shown.day - 1
  {
    v.(shown := ShiftMonth(v.shown, 1))
  }

  /** The "Today" button: both the shown month and the selection become today. */
  function Today(v: View, today: CivilDate): (r: View)
    requires Valid(today)
    ensures MonthIndex(r.shown) == MonthIndex(today) && r.selected == Some(DayNumber(today))
  {
    View(today, Some(DayNumber(today)))
  }

  /** After "Today" the page lists exactly the events running today. */
  lemma TodayListsTodaysEvents(events: seq<Event>, v: View, today: CivilDate, i: int)
    requires Valid(today) && 0 <= i < |events|
    ensures events[i] in EventsOn(events, Today(v, today).selected)
      <== events[i].startDate <= DayNumber(today) <= events[i].endDate
    ensures forall j :: 0 <= j < |EventsOn(events, Today(v, today).selected)| ==>
      EventsOn(events, Today(v, today).selected)[j].startDate <= DayNumber(today)
      <= EventsOn(events, Today(v, today).selected)[j].endDate
  {
  }
}
