/**
 * String operations the views rely on: JavaScript truthiness of optional strings,
 * `toLowerCase` and `includes`.
 */
module Text {
  import opened Wrappers

  /** JavaScript truthiness of a `string | undefined`: present and non-empty. */
  predicate Truthy(o: Option<string>) {
    o.Some? && o.value != ""
  }

  /** `o || ""`: the string itself, or "" when it is absent. */
  function OrEmpty(o: Option<string>): (r: string)
    ensures o.Some? ==> r == o.value
    ensures o.None? ==> r == ""
  {
    o.GetOr("")
  }

  /** Lower-cases one character of the ASCII range; every other character is kept. */
  function LowerChar(c: char): char {
    if 'A' <= c <= 'Z' then (c as int + 32) as char else c
  }

  /** `s.toLowerCase()` restricted to ASCII letters. */
  function ToLower(s: string): (r: string)
    ensures |r| == |s|
    ensures forall i :: 0 <= i < |s| ==> r[i] == LowerChar(s[i])
  {
    seq(|s|, i requires 0 <= i < |s| => LowerChar(s[i]))
  }

  /** `q` occurs in `s` starting at index `i`. */
  predicate OccursAt(s: string, q: string, i: int) {
    0 <= i && i + |q| <= |s| && s[i..i + |q|] == q
  }

  /** `s.includes(q)`: some position of `s` starts an occurrence of `q`. */
  function Includes(s: string, q: string): (r: bool)
    ensures r <==> exists i :: OccursAt(s, q, i)
    decreases |s|
  {
    if |q| > |s| then
      assert forall i :: !OccursAt(s, q, i);
      false
    else if s[..|q|] == q then
      assert OccursAt(s, q, 0);
      true
    else
      var r := Includes(s[1..], q);
      assert forall i :: OccursAt(s[1..], q, i) <==> OccursAt(s, q, i + 1) by {
        forall i ensures OccursAt(s[1..], q, i) <==> OccursAt(s, q, i + 1) {
          if 0 <= i && i + |q| <= |s[1..]| {
            assert s[1..][i..i + |q|] == s[i + 1..i + 1 + |q|];
          }
        }
      }
      assert !OccursAt(s, q, 0);
      assert (exists i :: OccursAt(s, q, i)) ==> exists i :: OccursAt(s[1..], q, i) by {
        if exists i :: OccursAt(s, q, i) {
          var i :| OccursAt(s, q, i);
          assert OccursAt(s[1..], q, i - 1);
        }
      }
      r
  }

  /** The empty string occurs in every string. */
  lemma IncludesEmpty(s: string)
    ensures Includes(s, "")
  {
    assert OccursAt(s, "", 0);
  }
}
