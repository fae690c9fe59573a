/** Sequence helpers shared by the dashboard model: boolean-mask filtering,
    subsequences, column sums and a descending sort. They stand for the
    pandas operations (`df[mask]`, `sum`, `sort_values`, `nlargest`) that
    the dashboard applies to its tables. */
module Seqs {

  /** Keeps, in order, the elements that satisfy `p` (a pandas boolean mask
      or a Python list comprehension with an `if`). */
  function Filter<T(!new)>(s: seq<T>, p: T -> bool): (r: seq<T>)
    ensures |r| <= |s|
    ensures forall x :: x in r <==> x in s && p(x)
  {
    if s == [] then []
    else if p(s[0]) then [s[0]] + Filter(s[1..], p)
    else Filter(s[1..], p)
  }

  /** `a` is obtained from `b` by deleting elements, keeping the order. */
  predicate IsSubsequence<T(==)>(a: seq<T>, b: seq<T>)
    decreases |b|
  {
    if b == [] then a == []
    else (a != [] && a[0] == b[0] && IsSubsequence(a[1..], b[1..]))
         || IsSubsequence(a, b[1..])
  }

  lemma {:induction false} FilterIsSubsequence<T(!new)>(s: seq<T>, p: T -> bool)
    ensures IsSubsequence(Filter(s, p), s)
  {
    if s != [] {
      FilterIsSubsequence(s[1..], p);
      if p(s[0]) {
        assert Filter(s, p)[1..] == Filter(s[1..], p);
      }
    }
  }

  /** Filtering keeps every qualifying element as often as it occurs and
      drops every other one. */
  lemma {:induction false} FilterCounts<T(!new)>(s: seq<T>, p: T -> bool, x: T)
    ensures multiset(Filter(s, p))[x] == if p(x) then multiset(s)[x] else 0
  {
    if s != [] {
      FilterCounts(s[1..], p, x);
      assert s == [s[0]] + s[1..];
    }
  }

  /** Filtering twice is filtering once by the conjunction. */
  lemma {:induction false} FilterTwice<T(!new)>(s: seq<T>, p: T -> bool, q: T -> bool, pq: T -> bool)
    requires forall x :: pq(x) == (p(x) && q(x))
    ensures Filter(Filter(s, p), q) == Filter(s, pq)
  {
    if s != [] {
      FilterTwice(s[1..], p, q, pq);
    }
  }

  /** A filter that every element passes changes nothing. */
  lemma {:induction false} FilterKeepsAll<T(!new)>(s: seq<T>, p: T -> bool)
    requires forall x :: p(x)
    ensures Filter(s, p) == s
  {
    if s != [] {
      FilterKeepsAll(s[1..], p);
      assert s == [s[0]] + s[1..];
    }
  }

  /** Three mutually exclusive predicates that cover every element split
      the sequence: the three filtered parts add up to the whole. */
  lemma {:induction false} FilterSplitThree<T(!new)>(s: seq<T>, p: T -> bool, q: T -> bool, r: T -> bool)
    requires forall x :: (p(x) ==> !q(x) && !r(x)) && (q(x) ==> !r(x))
    requires forall x :: p(x) || q(x) || r(x)
    ensures |Filter(s, p)| + |Filter(s, q)| + |Filter(s, r)| == |s|
  {
    if s != [] {
      FilterSplitThree(s[1..], p, q, r);
    }
  }

  /** Sum of an integer column. */
  function SumInt<T>(s: seq<T>, f: T -> int): (total: int)
  {
    if s == [] then 0 else f(s[0]) + SumInt(s[1..], f)
  }

  /** Sum of a real-valued column. */
  function SumReal<T>(s: seq<T>, f: T -> real): (total: real)
  {
    if s == [] then 0.0 else f(s[0]) + SumReal(s[1..], f)
  }

  /** Bounds on the elements bound the sum. */
  lemma {:induction false} SumRealBounds<T>(s: seq<T>, f: T -> real, lo: real, hi: real)
    requires forall x :: x in s ==> lo <= f(x) <= hi
    ensures |s| as real * lo <= SumReal(s, f) <= |s| as real * hi
  {
    if s != [] {
      SumRealBounds(s[1..], f, lo, hi);
      assert f(s[0]) >= lo && f(s[0]) <= hi;
    }
  }

  /** Elements of `s` are in non-increasing order of `key`. */
  ghost predicate SortedDesc<T>(s: seq<T>, key: T -> real)
  {
    forall i, j :: 0 <= i < j < |s| ==> key(s[i]) >= key(s[j])
  }

  /** Inserts `x` into a list that is sorted in non-increasing order, in
      front of the first element whose key does not exceed that of `x`. */
  function Insert<T(==)>(x: T, s: seq<T>, key: T -> real): (r: seq<T>)
    ensures |r| == |s| + 1
    ensures multiset(r) == multiset(s) + multiset{x}
    ensures r[0] == x || (s != [] && r[0] == s[0])
  {
    if s == [] || key(s[0]) <= key(x) then [x] + s
    else
      assert s == [s[0]] + s[1..];
      [s[0]] + Insert(x, s[1..], key)
  }

  /** Insertion keeps a sorted list sorted. */
  lemma {:induction false} InsertKeepsSorted<T>(x: T, s: seq<T>, key: T -> real)
    requires SortedDesc(s, key)
    ensures SortedDesc(Insert(x, s, key), key)
  {
    if s != [] && key(s[0]) > key(x) {
      var t := s[1..];
      assert SortedDesc(t, key) by {
        forall i, j | 0 <= i < j < |t| ensures key(t[i]) >= key(t[j]) {
          assert t[i] == s[i + 1] && t[j] == s[j + 1];
        }
      }
      InsertKeepsSorted(x, t, key);
      var r := Insert(x, s, key);
      var rest := Insert(x, t, key);
      assert r == [s[0]] + rest;
      forall j | 0 <= j < |rest| ensures key(s[0]) >= key(rest[j]) {
        var e := rest[j];
        assert e in multiset(rest);
        assert e == x || e in multiset(t);
        if e != x {
          var k :| 0 <= k < |t| && t[k] == e;
          assert s[k + 1] == e;
        }
      }
    }
  }

  /** Sorts in non-increasing order of `key` (an insertion sort; the order of
      rows with equal keys is not part of what the dashboard relies on). */
  function SortDesc<T(==)>(s: seq<T>, key: T -> real): (r: seq<T>)
    ensures |r| == |s|
    ensures multiset(r) == multiset(s)
    ensures SortedDesc(r, key)
  {
    if s == [] then []
    else
      assert s == [s[0]] + s[1..];
      InsertKeepsSorted(s[0], SortDesc(s[1..], key), key);
      Insert(s[0], SortDesc(s[1..], key), key)
  }

  /** The `n` rows with the largest keys, largest first (pandas `nlargest`). */
  function TopN<T(==)>(s: seq<T>, n: nat, key: T -> real): (r: seq<T>)
    ensures |r| == if n < |s| then n else |s|
    ensures SortedDesc(r, key)
    ensures multiset(r) <= multiset(s)
  {
    var sorted := SortDesc(s, key);
    var k := if n < |s| then n else |s|;
    assert sorted == sorted[..k] + sorted[k..];
    sorted[..k]
  }

  /** An element that occurs more often in `a` than in a prefix of `a`
      occurs in the rest of `a`. */
  lemma BeyondPrefix<T>(a: seq<T>, k: nat, y: T)
    requires k <= |a|
    requires y in multiset(a) - multiset(a[..k])
    ensures y in a[k..]
  {
    assert a == a[..k] + a[k..];
    assert multiset(a) == multiset(a[..k]) + multiset(a[k..]);
  }

  /** No row left out of the top `n` has a larger key than a row kept. */
  lemma TopNKeepsLargest<T(!new)>(s: seq<T>, n: nat, key: T -> real, x: T, y: T)
    requires x in TopN(s, n, key)
    requires y in multiset(s) - multiset(TopN(s, n, key))
    ensures key(y) <= key(x)
  {
    var sorted := SortDesc(s, key);
    var k := if n < |s| then n else |s|;
    assert TopN(s, n, key) == sorted[..k];
    BeyondPrefix(sorted, k, y);
    var i :| 0 <= i < k && sorted[i] == x;
    var j :| 0 <= j < |s| - k && sorted[k..][j] == y;
    assert sorted[k + j] == y;
  }
}
