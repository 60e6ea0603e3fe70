/**
 * Sequence helpers shared by the view derivations: `Array.prototype.filter`,
 * counting and summing reductions, and the "order-preserving subsequence" relation.
 */
module Seqs {

  /** `a` can be obtained from `b` by deleting elements, keeping the order of the rest. */
  predicate IsSubsequence<T(==)>(a: seq<T>, b: seq<T>)
    decreases |b|
  {
    if |a| == 0 then true
    else if |b| == 0 then false
    else if a[0] == b[0] then IsSubsequence(a[1..], b[1..])
    else IsSubsequence(a, b[1..])
  }

  /**
   * `s.filter(p)`: the elements satisfying `p`, in their original order
   * (`FilterMultiset` states that each keeps its number of occurrences).
   */
  function Filter<T(==)>(s: seq<T>, p: T -> bool): (r: seq<T>)
    ensures |r| <= |s|
    ensures forall i :: 0 <= i < |r| ==> r[i] in s && p(r[i])
    ensures forall i :: 0 <= i < |s| && p(s[i]) ==> s[i] in r
    ensures IsSubsequence(r, s)
  {
    if |s| == 0 then []
    else if p(s[0]) then [s[0]] + Filter(s[1..], p)
    else Filter(s[1..], p)
  }

  /** The filter keeps every element satisfying `p` as often as `s` holds it, and no other. */
  lemma {:induction false} FilterMultiset<T>(s: seq<T>, p: T -> bool)
    ensures forall x :: x in s ==> multiset(Filter(s, p))[x] == if p(x) then multiset(s)[x] else 0
  {
    if |s| > 0 {
      FilterMultiset(s[1..], p);
      assert s == [s[0]] + s[1..];
      forall x | x in s
        ensures multiset(Filter(s, p))[x] == if p(x) then multiset(s)[x] else 0
      {
        if x !in s[1..] {
          assert x !in Filter(s[1..], p);
        }
      }
    }
  }

  /** The number of elements satisfying `p`, i.e. `s.filter(p).length`. */
  function Count<T(==)>(s: seq<T>, p: T -> bool): nat {
    |Filter(s, p)|
  }

  /** `s.reduce((acc, x) => acc + f(x), 0)`. */
  function Sum<T>(s: seq<T>, f: T -> int): int {
    if |s| == 0 then 0 else f(s[0]) + Sum(s[1..], f)
  }

  /** Filtering on `p` and on its complement `q` splits the sequence: the two lengths add up. */
  lemma {:induction false} FilterPartition<T>(s: seq<T>, p: T -> bool, q: T -> bool)
    requires forall i :: 0 <= i < |s| ==> (q(s[i]) <==> !p(s[i]))
    ensures |Filter(s, p)| + |Filter(s, q)| == |s|
  {
    if |s| > 0 {
      FilterPartition(s[1..], p, q);
    }
  }

  /** Nothing survives the filter exactly when no element satisfies `p`. */
  lemma {:induction false} FilterEmptyIff<T>(s: seq<T>, p: T -> bool)
    ensures |Filter(s, p)| == 0 <==> forall i :: 0 <= i < |s| ==> !p(s[i])
  {
    if |s| > 0 {
      FilterEmptyIff(s[1..], p);
      assert (forall i :: 0 <= i < |s| ==> !p(s[i])) <==>
        (!p(s[0]) && forall i :: 0 <= i < |s[1..]| ==> !p(s[1..][i])) by {
        if !p(s[0]) && forall i :: 0 <= i < |s[1..]| ==> !p(s[1..][i]) {
          forall i | 0 <= i < |s| ensures !p(s[i]) {
            if i > 0 { assert s[i] == s[1..][i - 1]; }
          }
        }
      }
    }
  }

  /** Everything survives the filter exactly when every element satisfies `p`. */
  lemma {:induction false} FilterFullIff<T>(s: seq<T>, p: T -> bool)
    ensures |Filter(s, p)| == |s| <==> forall i :: 0 <= i < |s| ==> p(s[i])
  {
    if |s| > 0 {
      FilterFullIff(s[1..], p);
      assert (forall i :: 0 <= i < |s| ==> p(s[i])) <==>
        (p(s[0]) && forall i :: 0 <= i < |s[1..]| ==> p(s[1..][i])) by {
        if p(s[0]) && forall i :: 0 <= i < |s[1..]| ==> p(s[1..][i]) {
          forall i | 0 <= i < |s| ensures p(s[i]) {
            if i > 0 { assert s[i] == s[1..][i - 1]; }
          }
        }
      }
    }
  }

  /** Filtering with a predicate that holds of every element changes nothing. */
  lemma {:induction false} FilterAll<T>(s: seq<T>, p: T -> bool)
    requires forall i :: 0 <= i < |s| ==> p(s[i])
    ensures Filter(s, p) == s
  {
    if |s| > 0 {
      FilterAll(s[1..], p);
    }
  }

  /** Filters on two predicates no element satisfies together keep at most `|s|` elements between them. */
  lemma {:induction false} FilterDisjoint<T>(s: seq<T>, p: T -> bool, q: T -> bool)
    requires forall i :: 0 <= i < |s| ==> !(p(s[i]) && q(s[i]))
    ensures |Filter(s, p)| + |Filter(s, q)| <= |s|
  {
    if |s| > 0 {
      FilterDisjoint(s[1..], p, q);
    }
  }

  /** A sum of non-negative terms is non-negative, and zero exactly when every term is. */
  lemma {:induction false} SumNonNegative<T>(s: seq<T>, f: T -> int)
    requires forall i :: 0 <= i < |s| ==> 0 <= f(s[i])
    ensures 0 <= Sum(s, f)
    ensures Sum(s, f) == 0 <==> forall i :: 0 <= i < |s| ==> f(s[i]) == 0
  {
    if |s| > 0 {
      SumNonNegative(s[1..], f);
      assert (forall i :: 0 <= i < |s| ==> f(s[i]) == 0) <==>
        (f(s[0]) == 0 && forall i :: 0 <= i < |s[1..]| ==> f(s[1..][i]) == 0) by {
        if f(s[0]) == 0 && forall i :: 0 <= i < |s[1..]| ==> f(s[1..][i]) == 0 {
          forall i | 0 <= i < |s| ensures f(s[i]) == 0 {
            if i > 0 { assert s[i] == s[1..][i - 1]; }
          }
        }
      }
    }
  }

  /** The sum of a concatenation is the sum of its parts. */
  lemma {:induction false} SumConcat<T>(a: seq<T>, b: seq<T>, f: T -> int)
    ensures Sum(a + b, f) == Sum(a, f) + Sum(b, f)
  {
    if |a| == 0 {
      assert a + b == b;
    } else {
      assert (a + b)[1..] == a[1..] + b;
      SumConcat(a[1..], b, f);
    }
  }

  /** A sum of terms each bounded by the matching term of another sum is bounded by it. */
  lemma {:induction false} SumMonotone<T>(s: seq<T>, f: T -> int, g: T -> int)
    requires forall i :: 0 <= i < |s| ==> f(s[i]) <= g(s[i])
    ensures Sum(s, f) <= Sum(s, g)
  {
    if |s| > 0 {
      SumMonotone(s[1..], f, g);
    }
  }

  /** A one-element sequence is the display of its element. */
  lemma Singleton<T>(s: seq<T>)
    requires |s| == 1
    ensures s == [s[0]]
  {
  }

  /** `s` is in ascending order of `key`. */
  predicate SortedBy<T>(s: seq<T>, key: T -> int) {
    forall i, j :: 0 <= i < j < |s| ==> key(s[i]) <= key(s[j])
  }

  /** Inserts `x` into a sorted list, before the first element whose key is not smaller. */
  function InsertBy<T>(x: T, s: seq<T>, key: T -> int): (r: seq<T>)
    requires SortedBy(s, key)
    ensures |r| == |s| + 1
    ensures SortedBy(r, key)
    ensures multiset(r) == multiset(s) + multiset{x}
  {
    if |s| == 0 || key(x) <= key(s[0]) then
      [x] + s
    else
      var rest := InsertBy(x, s[1..], key);
      assert s == [s[0]] + s[1..];
      LowerBoundKept(rest, s[1..], x, key, key(s[0]));
      [s[0]] + rest
  }

  /** A lower bound on the keys of `s` and of `x` bounds every key of a permutation of `s` plus `x`. */
  lemma LowerBoundKept<T>(r: seq<T>, s: seq<T>, x: T, key: T -> int, lo: int)
    requires multiset(r) == multiset(s) + multiset{x}
    requires lo <= key(x) && forall i :: 0 <= i < |s| ==> lo <= key(s[i])
    ensures forall i :: 0 <= i < |r| ==> lo <= key(r[i])
  {
    forall i | 0 <= i < |r| ensures lo <= key(r[i]) {
      assert r[i] in multiset(s) + multiset{x};
      if r[i] != x {
        assert r[i] in s;
      }
    }
  }

  /**
   * A stable sort by `key` (insertion sort): the result is ascending and a
   * permutation of the input; an element is inserted before later elements
   * with the same key, so ties keep their original order.
   */
  function SortBy<T>(s: seq<T>, key: T -> int): (r: seq<T>)
    ensures |r| == |s|
    ensures SortedBy(r, key)
    ensures multiset(r) == multiset(s)
  {
    if |s| == 0 then []
    else
      assert s == [s[0]] + s[1..];
      InsertBy(s[0], SortBy(s[1..], key), key)
  }

  /** The first `n` elements of a sorted list have keys no larger than any element left out. */
  lemma SortedPrefixIsSmallest<T>(s: seq<T>, key: T -> int, n: int)
    requires SortedBy(s, key) && 0 <= n <= |s|
    ensures multiset(s[..n]) <= multiset(s)
    ensures forall x, i :: x in multiset(s) - multiset(s[..n]) && 0 <= i < n ==> key(s[i]) <= key(x)
  {
    assert s == s[..n] + s[n..];
    assert multiset(s) == multiset(s[..n]) + multiset(s[n..]);
    forall x, i | x in multiset(s) - multiset(s[..n]) && 0 <= i < n
      ensures key(s[i]) <= key(x)
    {
      assert x in multiset(s[n..]);
      var k :| 0 <= k < |s[n..]| && s[n..][k] == x;
      assert s[n + k] == x;
    }
  }

  /** Whatever is drawn from the elements of `s` satisfying `p` comes from `s` and satisfies `p`. */
  lemma SubMultisetOfFilter<T>(r: seq<T>, s: seq<T>, p: T -> bool)
    requires multiset(r) <= multiset(Filter(s, p))
    ensures forall i :: 0 <= i < |r| ==> p(r[i]) && r[i] in s
  {
    forall i | 0 <= i < |r| ensures p(r[i]) && r[i] in s {
      assert r[i] in multiset(r);
      assert r[i] in Filter(s, p);
    }
  }

  /**
   * `s.filter(p).sort(byKey).slice(0, n)`: at most `n` of the elements
   * satisfying `p`, ascending by key.
   */
  function SmallestBy<T(==)>(s: seq<T>, p: T -> bool, key: T -> int, n: nat): (r: seq<T>)
    ensures |r| == if Count(s, p) < n then Count(s, p) else n
    ensures SortedBy(r, key)
    ensures multiset(r) <= multiset(Filter(s, p))
  {
    var sorted := SortBy(Filter(s, p), key);
    var m := if |sorted| < n then |sorted| else n;
    SortedPrefixIsSmallest(sorted, key, m);
    sorted[..m]
  }

  /** No element satisfying `p` that `SmallestBy` leaves out has a smaller key than one it keeps. */
  lemma SmallestByIsSmallest<T>(s: seq<T>, p: T -> bool, key: T -> int, n: nat)
    ensures var r := SmallestBy(s, p, key, n);
      forall x, i :: x in multiset(Filter(s, p)) - multiset(r) && 0 <= i < |r| ==> key(r[i]) <= key(x)
  {
    var sorted := SortBy(Filter(s, p), key);
    var m := if |sorted| < n then |sorted| else n;
    SortedPrefixIsSmallest(sorted, key, m);
  }
}
