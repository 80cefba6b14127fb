/**
 * The ranking step of the reports: a stable sort in descending order of one
 * numeric metric (Python's `sorted(..., reverse=True)`), then the `[:n]` cut.
 */
module Ranking {
  import opened Wrappers

  predicate SortedDesc<T>(s: seq<T>, key: T -> real) {
    forall i, j :: 0 <= i < j < |s| ==> key(s[i]) >= key(s[j])
  }

  /** The elements whose metric equals `m`, in their original order. */
  function Filter<T>(s: seq<T>, key: T -> real, m: real): seq<T> {
    if |s| == 0 then []
    else (if key(s[0]) == m then [s[0]] else []) + Filter(s[1..], key, m)
  }

  /** Filtering a list with a new head. */
  lemma FilterCons<T>(a: T, s: seq<T>, key: T -> real, m: real)
    ensures Filter([a] + s, key, m) == (if key(a) == m then [a] else []) + Filter(s, key, m)
  {
    assert ([a] + s)[1..] == s;
  }

  /** A head whose metric is at least every other element's keeps a descending list descending. */
  lemma SortedCons<T>(a: T, s: seq<T>, key: T -> real)
    requires SortedDesc(s, key)
    requires forall y :: y in s ==> key(y) <= key(a)
    ensures SortedDesc([a] + s, key)
  {
    forall i, j | 0 <= i < j < |[a] + s| ensures key(([a] + s)[i]) >= key(([a] + s)[j]) {
      assert ([a] + s)[j] == s[j - 1];
      if i > 0 {
        assert ([a] + s)[i] == s[i - 1];
      }
    }
  }

  /** In a descending list every element is bounded by any value at least the head's metric. */
  lemma BoundedByHead<T>(s: seq<T>, key: T -> real, bound: real)
    requires SortedDesc(s, key)
    requires |s| == 0 || key(s[0]) <= bound
    ensures forall y :: y in s ==> key(y) <= bound
  {
    forall y | y in s ensures key(y) <= bound {
      var i :| 0 <= i < |s| && s[i] == y;
      assert key(s[0]) >= key(s[i]);
    }
  }

  /** Places `x` ahead of the first element whose metric is not greater than its own. */
  function InsertDesc<T>(x: T, s: seq<T>, key: T -> real): (r: seq<T>)
    requires SortedDesc(s, key)
    ensures SortedDesc(r, key)
    ensures multiset(r) == multiset(s) + multiset{x}
  {
    if |s| == 0 || key(x) >= key(s[0]) then
      BoundedByHead(s, key, key(x));
      SortedCons(x, s, key);
      [x] + s
    else
      var rest := InsertDesc(x, s[1..], key);
      assert s == [s[0]] + s[1..];
      BoundedByHead(s[1..], key, key(s[0]));
      assert forall y :: y in rest ==> key(y) <= key(s[0]) by {
        forall y | y in rest ensures key(y) <= key(s[0]) {
          assert y in multiset(rest);
          assert y == x || y in multiset(s[1..]);
        }
      }
      SortedCons(s[0], rest, key);
      [s[0]] + rest
  }

  /** The inserted element goes ahead of the elements whose metric equals its own. */
  lemma {:induction false} InsertDescStable<T>(x: T, s: seq<T>, key: T -> real, m: real)
    requires SortedDesc(s, key)
    ensures Filter(InsertDesc(x, s, key), key, m) == (if key(x) == m then [x] else []) + Filter(s, key, m)
    decreases |s|
  {
    if |s| == 0 || key(x) >= key(s[0]) {
      FilterCons(x, s, key, m);
    } else {
      InsertDescStable(x, s[1..], key, m);
      FilterCons(s[0], InsertDesc(x, s[1..], key), key, m);
      FilterCons(s[0], s[1..], key, m);
      assert s == [s[0]] + s[1..];
    }
  }

  /** Stable descending sort: same elements, metric non-increasing, equal metrics keep their order. */
  function SortDesc<T>(s: seq<T>, key: T -> real): (r: seq<T>)
    ensures SortedDesc(r, key)
    ensures multiset(r) == multiset(s)
    ensures forall m :: Filter(r, key, m) == Filter(s, key, m)
  {
    if |s| == 0 then []
    else
      assert s == [s[0]] + s[1..];
      var rest := SortDesc(s[1..], key);
      assert forall m :: Filter(InsertDesc(s[0], rest, key), key, m) == Filter(s, key, m) by {
        forall m ensures Filter(InsertDesc(s[0], rest, key), key, m) == Filter(s, key, m) {
          InsertDescStable(s[0], rest, key, m);
          FilterCons(s[0], s[1..], key, m);
        }
      }
      InsertDesc(s[0], rest, key)
  }

  /** Python's `s[:n] if n else s`: None or 0 keep everything, a negative `n` drops from the end. */
  function Truncate<T>(s: seq<T>, n: Option<int>): (r: seq<T>)
    ensures r <= s
    ensures n.None? || n.value == 0 ==> r == s
    ensures n.Some? && n.value > 0 ==> |r| == if n.value < |s| then n.value else |s|
    ensures n.Some? && n.value < 0 ==> |r| == if |s| + n.value > 0 then |s| + n.value else 0
  {
    if n.None? || n.value == 0 then s
    else if n.value > 0 then (if n.value < |s| then s[..n.value] else s)
    else if |s| + n.value > 0 then s[..|s| + n.value]
    else []
  }

  /** A prefix of a descending list is descending and holds some of its elements. */
  lemma PrefixOfSorted<T>(s: seq<T>, r: seq<T>, key: T -> real)
    requires SortedDesc(s, key) && r <= s
    ensures SortedDesc(r, key)
    ensures multiset(r) <= multiset(s)
  {
    assert s == r + s[|r|..];
    assert multiset(s) == multiset(r) + multiset(s[|r|..]);
  }

  /** The report shape: stable descending sort, then the optional cut. */
  function Rank<T>(s: seq<T>, key: T -> real, n: Option<int>): (r: seq<T>)
    ensures SortedDesc(r, key)
    ensures r <= SortDesc(s, key)
    ensures multiset(r) <= multiset(s)
    ensures n.None? || n.value == 0 ==> multiset(r) == multiset(s)
    ensures n.Some? && n.value > 0 ==> |r| == if n.value < |s| then n.value else |s|
  {
    var sorted := SortDesc(s, key);
    var r := Truncate(sorted, n);
    PrefixOfSorted(sorted, r, key);
    assert |sorted| == |s| by {
      assert |multiset(sorted)| == |multiset(s)|;
    }
    r
  }

  /** An element whose metric beats every other element's is the top-1. */
  lemma TopIsStrictMaximum<T>(s: seq<T>, key: T -> real, x: T)
    requires x in s
    requires forall y :: y in s && y != x ==> key(y) < key(x)
    ensures Rank(s, key, Some(1)) == [x]
  {
    var sorted := SortDesc(s, key);
    var r := Rank(s, key, Some(1));
    assert x in multiset(sorted);
    var j :| 0 <= j < |sorted| && sorted[j] == x;
    assert key(sorted[0]) >= key(x);
    assert sorted[0] in multiset(s);
  }
}
