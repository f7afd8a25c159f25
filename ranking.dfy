/** The `sort`, `slice` and `reduce`-to-a-sum steps the charts apply to their groups:
    a stable sort by a numeric key, the top-n cut and the sum of a key. */
module Ranking {

  /** Sorted as `sort((a, b) => f(b) - f(a))` leaves it: largest key first. */
  predicate NonIncreasing<T>(s: seq<T>, f: T -> int) {
    forall i, j :: 0 <= i < j < |s| ==> f(s[i]) >= f(s[j])
  }

  /** No two elements share a key. */
  predicate DistinctBy<T, K(==)>(s: seq<T>, g: T -> K) {
    forall i, j :: 0 <= i < j < |s| ==> g(s[i]) != g(s[j])
  }

  /** `s.reduce((sum, x) => sum + f(x), 0)` */
  function SumBy<T>(s: seq<T>, f: T -> int): int {
    if s == [] then 0 else f(s[0]) + SumBy(s[1..], f)
  }

  /** Inserts `x` in front of the first element whose key is not larger, so that equal keys
      keep their input order, as JavaScript's stable sort does. */
  function Insert<T>(x: T, s: seq<T>, f: T -> int): (r: seq<T>)
    requires NonIncreasing(s, f)
    ensures NonIncreasing(r, f)
    ensures multiset(r) == multiset(s) + multiset{x}
    ensures forall y :: y in r ==> y == x || y in s
  {
    if s == [] then [x]
    else if f(x) >= f(s[0]) then
      ConsNonIncreasing(x, s, f);
      [x] + s
    else
      TailNonIncreasing(s, f);
      var rest := Insert(x, s[1..], f);
      assert s == [s[0]] + s[1..];
      AllBelow(s, x, rest, f);
      ConsNonIncreasing(s[0], rest, f);
      [s[0]] + rest
  }

  lemma TailNonIncreasing<T>(s: seq<T>, f: T -> int)
    requires s != [] && NonIncreasing(s, f)
    ensures NonIncreasing(s[1..], f)
    ensures forall y :: y in s[1..] ==> f(s[0]) >= f(y)
  {
    var t := s[1..];
    forall i, j | 0 <= i < j < |t| ensures f(t[i]) >= f(t[j]) {
      assert t[i] == s[i + 1] && t[j] == s[j + 1];
    }
    forall y | y in t ensures f(s[0]) >= f(y) {
      var m :| 0 <= m < |t| && t[m] == y;
      assert t[m] == s[m + 1];
    }
  }

  /** What goes behind the head of a sorted list, the inserted element included, is no
      larger than the head. */
  lemma AllBelow<T>(s: seq<T>, x: T, rest: seq<T>, f: T -> int)
    requires s != [] && f(x) < f(s[0])
    requires forall y :: y in s[1..] ==> f(s[0]) >= f(y)
    requires forall y :: y in rest ==> y == x || y in s[1..]
    ensures forall k :: 0 <= k < |rest| ==> f(s[0]) >= f(rest[k])
  {
    forall k | 0 <= k < |rest| ensures f(s[0]) >= f(rest[k]) {
      assert rest[k] in rest;
    }
  }

  /** An element no smaller than any of a sorted list can go in front of it. */
  lemma ConsNonIncreasing<T>(a: T, s: seq<T>, f: T -> int)
    requires NonIncreasing(s, f)
    requires forall k :: 0 <= k < |s| ==> f(a) >= f(s[k])
    ensures NonIncreasing([a] + s, f)
  {
    var r := [a] + s;
    forall i, j | 0 <= i < j < |r| ensures f(r[i]) >= f(r[j]) {
      assert r[j] == s[j - 1];
      if i > 0 {
        assert r[i] == s[i - 1];
      }
    }
  }

  function SortDesc<T>(s: seq<T>, f: T -> int): (r: seq<T>)
    ensures NonIncreasing(r, f)
    ensures multiset(r) == multiset(s)
  {
    if s == [] then []
    else
      assert s == [s[0]] + s[1..];
      Insert(s[0], SortDesc(s[1..], f), f)
  }

  /** `.sort((a, b) => f(b) - f(a)).slice(0, n)` */
  function Top<T>(s: seq<T>, n: nat, f: T -> int): seq<T> {
    var sorted := SortDesc(s, f);
    sorted[..if n < |sorted| then n else |sorted|]
  }

  /** The top-n cut keeps min(n, |s|) elements of `s`, largest first, and every element it
      drops has a key no larger than any element it keeps. */
  lemma TopCut<T>(s: seq<T>, n: nat, f: T -> int)
    ensures |Top(s, n, f)| == if n < |s| then n else |s|
    ensures NonIncreasing(Top(s, n, f), f)
    ensures forall x :: x in Top(s, n, f) ==> x in s
    ensures forall x, y :: x in s && x !in Top(s, n, f) && y in Top(s, n, f) ==> f(x) <= f(y)
  {
    var sorted := SortDesc(s, f);
    var r := Top(s, n, f);
    assert |sorted| == |multiset(sorted)| == |multiset(s)| == |s|;
    forall x | x in r ensures x in s {
      assert x in multiset(sorted);
    }
    forall x, y | x in s && x !in r && y in r ensures f(x) <= f(y) {
      assert x in multiset(sorted);
      var i :| 0 <= i < |sorted| && sorted[i] == x;
      var j :| 0 <= j < |r| && r[j] == y;
      assert sorted[j] == y;
    }
  }

  lemma InsertKeepsDistinct<T, K>(x: T, s: seq<T>, f: T -> int, g: T -> K)
    requires NonIncreasing(s, f) && DistinctBy(s, g)
    requires forall y :: y in s ==> g(y) != g(x)
    ensures DistinctBy(Insert(x, s, f), g)
  {
    if s == [] {
    } else if f(x) >= f(s[0]) {
      forall k | 0 <= k < |s| ensures g(x) != g(s[k]) {
        assert s[k] in s;
      }
      ConsDistinct(x, s, g);
    } else {
      var rest := Insert(x, s[1..], f);
      var t := s[1..];
      assert DistinctBy(t, g) by {
        forall i, j | 0 <= i < j < |t| ensures g(t[i]) != g(t[j]) {
          assert t[i] == s[i + 1] && t[j] == s[j + 1];
        }
      }
      assert NonIncreasing(t, f) by {
        forall i, j | 0 <= i < j < |t| ensures f(t[i]) >= f(t[j]) {
          assert t[i] == s[i + 1] && t[j] == s[j + 1];
        }
      }
      InsertKeepsDistinct(x, t, f, g);
      forall k | 0 <= k < |rest| ensures g(s[0]) != g(rest[k]) {
        assert rest[k] in rest;
        if rest[k] != x {
          var m :| 0 <= m < |t| && t[m] == rest[k];
          assert t[m] == s[m + 1];
        } else {
          assert s[0] in s;
        }
      }
      ConsDistinct(s[0], rest, g);
    }
  }

  /** An element whose key no element of a list shares can go in front of it. */
  lemma ConsDistinct<T, K>(a: T, s: seq<T>, g: T -> K)
    requires DistinctBy(s, g)
    requires forall k :: 0 <= k < |s| ==> g(a) != g(s[k])
    ensures DistinctBy([a] + s, g)
  {
    var r := [a] + s;
    forall i, j | 0 <= i < j < |r| ensures g(r[i]) != g(r[j]) {
      assert r[j] == s[j - 1];
      if i > 0 {
        assert r[i] == s[i - 1];
      }
    }
  }

  /** Sorting never merges two groups: distinct keys stay distinct. */
  lemma {:induction false} SortKeepsDistinct<T, K>(s: seq<T>, f: T -> int, g: T -> K)
    requires DistinctBy(s, g)
    ensures DistinctBy(SortDesc(s, f), g)
  {
    if s != [] {
      SortKeepsDistinct(s[1..], f, g);
      var sorted := SortDesc(s[1..], f);
      forall y | y in sorted ensures g(y) != g(s[0]) {
        assert y in multiset(s[1..]);
      }
      InsertKeepsDistinct(s[0], sorted, f, g);
    }
  }

  lemma TopKeepsDistinct<T, K>(s: seq<T>, n: nat, f: T -> int, g: T -> K)
    requires DistinctBy(s, g)
    ensures DistinctBy(Top(s, n, f), g)
  {
    SortKeepsDistinct(s, f, g);
  }

  lemma {:induction false} InsertSum<T>(x: T, s: seq<T>, f: T -> int, h: T -> int)
    requires NonIncreasing(s, f)
    ensures SumBy(Insert(x, s, f), h) == h(x) + SumBy(s, h)
  {
    if s != [] && f(x) < f(s[0]) {
      InsertSum(x, s[1..], f, h);
      var r := Insert(x, s, f);
      assert r[1..] == Insert(x, s[1..], f);
    } else if s != [] {
      assert ([x] + s)[1..] == s;
    }
  }

  /** Sorting keeps the total of any key. */
  lemma {:induction false} SortSum<T>(s: seq<T>, f: T -> int, h: T -> int)
    ensures SumBy(SortDesc(s, f), h) == SumBy(s, h)
  {
    if s != [] {
      SortSum(s[1..], f, h);
      InsertSum(s[0], SortDesc(s[1..], f), f, h);
    }
  }

  lemma {:induction false} PrefixSum<T>(s: seq<T>, k: nat, h: T -> int)
    requires k <= |s|
    requires forall x :: x in s ==> h(x) >= 0
    ensures SumBy(s[..k], h) <= SumBy(s, h)
  {
    if k == 0 {
      NonNegativeSum(s, h);
    } else {
      PrefixSum(s[1..], k - 1, h);
      assert s[..k][1..] == s[1..][..k - 1];
    }
  }

  lemma {:induction false} NonNegativeSum<T>(s: seq<T>, h: T -> int)
    requires forall x :: x in s ==> h(x) >= 0
    ensures SumBy(s, h) >= 0
  {
    if s != [] {
      NonNegativeSum(s[1..], h);
    }
  }

  /** With non-negative values, the kept entries never add up to more than all entries. */
  lemma TopSumBounded<T>(s: seq<T>, n: nat, f: T -> int)
    requires forall x :: x in s ==> f(x) >= 0
    ensures SumBy(Top(s, n, f), f) <= SumBy(s, f)
  {
    var sorted := SortDesc(s, f);
    SortSum(s, f, f);
    forall x | x in sorted ensures f(x) >= 0 {
      assert x in multiset(s);
    }
    PrefixSum(sorted, if n < |sorted| then n else |sorted|, f);
  }
}
