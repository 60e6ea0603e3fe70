/**
 * JavaScript numbers as the views use them: integer values that may be NaN,
 * `parseInt` with its default radix, `Number.prototype.toString` on integers,
 * the `x || 0` fallback and `Math.round` of a percentage.
 */
module Numbers {

  /** A JavaScript number holding an integer, or NaN. */
  datatype Num = Finite(value: int) | NaN

  /** `x || 0`: NaN (and 0 itself) fall back to 0. */
  function OrZero(n: Num): (r: int)
    ensures n.Finite? ==> r == n.value
    ensures n.NaN? ==> r == 0
  {
    if n.NaN? then 0 else n.value
  }

  /** JavaScript `+` on numbers: NaN absorbs everything. */
  function Add(a: Num, b: Num): (r: Num)
    ensures r.NaN? <==> a.NaN? || b.NaN?
    ensures r.Finite? ==> r.value == a.value + b.value
  {
    if a.NaN? || b.NaN? then NaN else Finite(a.value + b.value)
  }

  /** The white-space and line-terminator characters `parseInt` skips at the start. */
  predicate IsWhiteSpace(c: char) {
    || c == ' ' || c == '\t' || c == '\n' || c == '\r' || c == '\U{000B}' || c == '\U{000C}'
    || c == '\U{00A0}' || c == '\U{FEFF}' || c == '\U{1680}' || ('\U{2000}' <= c <= '\U{200A}')
    || c == '\U{2028}' || c == '\U{2029}' || c == '\U{202F}' || c == '\U{205F}' || c == '\U{3000}'
  }

  /** Drops the leading white space of `s`. */
  function TrimStart(s: string): (r: string)
    ensures |r| <= |s| && r == s[|s| - |r|..]
    ensures forall i :: 0 <= i < |s| - |r| ==> IsWhiteSpace(s[i])
    ensures |r| > 0 ==> !IsWhiteSpace(r[0])
  {
    if |s| > 0 && IsWhiteSpace(s[0]) then TrimStart(s[1..]) else s
  }

  /** The value of `c` as a digit of radix up to 36, or 36 when `c` is no digit at all. */
  function DigitValue(c: char): (d: nat)
    ensures d <= 36
  {
    if '0' <= c <= '9' then c as int - '0' as int
    else if 'a' <= c <= 'z' then c as int - 'a' as int + 10
    else if 'A' <= c <= 'Z' then c as int - 'A' as int + 10
    else 36
  }

  predicate IsDigit(c: char, radix: nat) {
    DigitValue(c) < radix
  }

  /** The longest prefix of `s` made of digits of the given radix. */
  function DigitPrefix(s: string, radix: nat): (r: string)
    ensures |r| <= |s| && r == s[..|r|]
    ensures forall i :: 0 <= i < |r| ==> IsDigit(r[i], radix)
    ensures |r| < |s| ==> !IsDigit(s[|r|], radix)
  {
    if |s| > 0 && IsDigit(s[0], radix) then [s[0]] + DigitPrefix(s[1..], radix) else []
  }

  /** The value of a string of digits, most significant first. */
  function DigitsValue(d: string, radix: nat): nat {
    if |d| == 0 then 0
    else DigitsValue(d[..|d| - 1], radix) * radix + (if DigitValue(d[|d| - 1]) < radix then DigitValue(d[|d| - 1]) else 0)
  }

  /**
   * `parseInt(s)` with no radix argument: leading white space is skipped, one sign
   * is read, a "0x" or "0X" prefix selects radix 16, and the longest run of digits
   * that follows is the value. With no digit at all the result is NaN.
   */
  function ParseInt(s: string): Num {
    ParseSigned(TrimStart(s))
  }

  /** Reads an optional sign, then the magnitude. */
  function ParseSigned(t: string): Num {
    if |t| > 0 && t[0] == '-' then Negate(ParseMagnitude(t[1..]))
    else if |t| > 0 && t[0] == '+' then ParseMagnitude(t[1..])
    else ParseMagnitude(t)
  }

  function Negate(x: Num): Num {
    match x
    case NaN => NaN
    case Finite(v) => Finite(-v)
  }

  /** Starts with "0x" or "0X". */
  predicate HasHexPrefix(u: string) {
    |u| >= 2 && u[0] == '0' && (u[1] == 'x' || u[1] == 'X')
  }

  /** The value of the leading digits of an unsigned numeral, NaN when there are none. */
  function ParseMagnitude(u: string): Num {
    var radix := if HasHexPrefix(u) then 16 else 10;
    var digits := DigitPrefix(if HasHexPrefix(u) then u[2..] else u, radix);
    if |digits| == 0 then NaN else Finite(DigitsValue(digits, radix))
  }

  /** The decimal digit character for 0 <= d < 10. */
  function DigitChar(d: nat): (c: char)
    requires d < 10
    ensures IsDigit(c, 10) && DigitValue(c) == d
  {
    ('0' as int + d) as char
  }

  /** The decimal rendering of a natural number, without leading zeros. */
  function NatToString(n: nat): (r: string)
    ensures |r| >= 1
    ensures forall i :: 0 <= i < |r| ==> IsDigit(r[i], 10)
    ensures |r| > 1 ==> r[0] != '0'
  {
    if n < 10 then [DigitChar(n)] else NatToString(n / 10) + [DigitChar(n % 10)]
  }

  /** `n.toString()` for an integer value. */
  function IntToString(n: int): string {
    if n < 0 then "-" + NatToString(-n) else NatToString(n)
  }

  /** `x.toString()` for a number that may be NaN. */
  function NumToString(x: Num): string {
    match x
    case NaN => "NaN"
    case Finite(n) => IntToString(n)
  }

  /** Reading back the digits of `NatToString(n)` yields `n`. */
  lemma {:induction false} NatToStringValue(n: nat)
    ensures DigitsValue(NatToString(n), 10) == n
  {
    if n >= 10 {
      var s := NatToString(n);
      assert s[..|s| - 1] == NatToString(n / 10);
      NatToStringValue(n / 10);
    }
  }

  /** The longest digit prefix of a string made only of digits is the whole string. */
  lemma {:induction false} DigitPrefixAll(s: string, radix: nat)
    requires forall i :: 0 <= i < |s| ==> IsDigit(s[i], radix)
    ensures DigitPrefix(s, radix) == s
  {
    if |s| > 0 {
      DigitPrefixAll(s[1..], radix);
    }
  }

  /** A string that starts with a decimal digit has no leading white space to trim. */
  lemma TrimStartNoSpace(s: string)
    requires |s| > 0 && IsDigit(s[0], 10)
    ensures TrimStart(s) == s
  {
    assert '0' <= s[0] <= '9';
    assert !IsWhiteSpace(s[0]);
  }

  /** `parseInt` reads an unsigned decimal rendering back as its value. */
  lemma ParseUnsigned(a: nat)
    ensures ParseMagnitude(NatToString(a)) == Finite(a)
  {
    var u := NatToString(a);
    NatToStringValue(a);
    DigitPrefixAll(u, 10);
    if |u| >= 2 {
      assert IsDigit(u[1], 10);
    }
    assert !HasHexPrefix(u);
  }

  /** Parsing the decimal rendering of an integer gives the integer back. */
  lemma ParseIntRoundTrip(n: int)
    ensures ParseInt(IntToString(n)) == Finite(n)
  {
    if n < 0 {
      ParseNegative(-n);
    } else {
      ParseNonNegative(n);
    }
  }

  lemma ParseNonNegative(a: nat)
    ensures ParseInt(NatToString(a)) == Finite(a)
  {
    var u := NatToString(a);
    ParseUnsigned(a);
    assert IsDigit(u[0], 10);
    TrimStartNoSpace(u);
    assert u[0] != '-' && u[0] != '+';
  }

  lemma ParseNegative(a: nat)
    ensures ParseInt("-" + NatToString(a)) == Finite(-(a as int))
  {
    var u := NatToString(a);
    var s := "-" + u;
    ParseUnsigned(a);
    assert s[0] == '-' && !IsWhiteSpace(s[0]);
    assert TrimStart(s) == s;
    assert s[1..] == u;
  }

  /** `parseInt(x.toString())` gives back `x`, NaN included. */
  lemma ParseNumRoundTrip(x: Num)
    ensures ParseInt(NumToString(x)) == x
  {
    if x.Finite? {
      ParseIntRoundTrip(x.value);
    } else {
      NaNUnparsable();
    }
  }

  /** The text "NaN" holds no number. */
  lemma NaNUnparsable()
    ensures ParseInt("NaN") == NaN
  {
    assert !IsWhiteSpace('N') && !IsDigit('N', 10);
    assert TrimStart("NaN") == "NaN";
    assert DigitPrefix("NaN", 10) == [];
  }

  /**
   * `parseInt` stops at the first character that is not a digit, so "07 guests"
   * reads as 7. Only "0" followed by "x" or "X" is read differently, as the
   * start of a hexadecimal numeral.
   */
  lemma {:induction false} ParseIntStopsAtJunk(d: string, rest: string)
    requires |d| > 0
    requires forall i :: 0 <= i < |d| ==> IsDigit(d[i], 10)
    requires |rest| > 0 && !IsDigit(rest[0], 10)
    requires !(d == "0" && (rest[0] == 'x' || rest[0] == 'X'))
    ensures ParseInt(d + rest) == Finite(DigitsValue(d, 10))
  {
    var s := d + rest;
    assert !IsWhiteSpace(s[0]);
    if |d| >= 2 {
      assert s[1] == d[1] && IsDigit(d[1], 10);
    } else {
      assert s[1] == rest[0];
    }
    assert !HasHexPrefix(s);
    assert DigitPrefix(s, 10) == d by {
      DigitPrefixConcat(d, rest, 10);
    }
  }

  lemma {:induction false} DigitPrefixConcat(d: string, rest: string, radix: nat)
    requires forall i :: 0 <= i < |d| ==> IsDigit(d[i], radix)
    requires |rest| > 0 && !IsDigit(rest[0], radix)
    ensures DigitPrefix(d + rest, radix) == d
  {
    if |d| > 0 {
      assert (d + rest)[1..] == d[1..] + rest;
      DigitPrefixConcat(d[1..], rest, radix);
    } else {
      assert d + rest == rest;
    }
  }

  /**
   * `Math.round(part / whole * 100)` computed exactly: the nearest integer to
   * 100 * part / whole, with halves rounded up.
   */
  function RoundedPercent(part: int, whole: int): (r: int)
    requires whole > 0
    ensures -whole <= 2 * (100 * part - r * whole) < whole
    ensures 0 <= part <= whole ==> 0 <= r <= 100
  {
    var r := (200 * part + whole) / (2 * whole);
    DivBounds(200 * part + whole, 2 * whole);
    assert 0 <= part <= whole ==> 0 <= r <= 100 by {
      if 0 <= part <= whole {
        PercentRange(part, whole, r);
      }
    }
    r
  }

  /** No tasks done is 0 percent, all done is 100 percent. */
  lemma RoundedPercentEnds(whole: int)
    requires whole > 0
    ensures RoundedPercent(0, whole) == 0
    ensures RoundedPercent(whole, whole) == 100
  {
    DivUnique(whole, 2 * whole, 0);
    DivUnique(201 * whole, 2 * whole, 100);
  }

  lemma DivUnique(a: int, b: int, q: int)
    requires b > 0 && b * q <= a < b * q + b
    ensures a / b == q
  {
    DivBounds(a, b);
    if a / b < q {
      MulMonotone(b, a / b + 1, q);
    } else if a / b > q {
      MulMonotone(b, q + 1, a / b);
    }
  }

  lemma MulMonotone(b: int, x: int, y: int)
    requires b > 0 && x <= y
    ensures b * x <= b * y
  {
  }

  lemma DivBounds(a: int, b: int)
    requires b > 0
    ensures b * (a / b) <= a < b * (a / b) + b
  {
  }

  lemma PercentRange(part: int, whole: int, r: int)
    requires whole > 0 && 0 <= part <= whole
    requires 2 * whole * r <= 200 * part + whole < 2 * whole * r + 2 * whole
    ensures 0 <= r <= 100
  {
    if r > 100 {
      MulMonotone(2 * whole, 101, r);
    } else if r < 0 {
      MulMonotone(2 * whole, r + 1, 0);
    }
  }
}
