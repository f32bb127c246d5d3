/** Sequence helpers for query results: row selection, table scans and sums. */
module Seqs {

  /** The rows of `xs` that satisfy `p`, in their original order (a SQL `WHERE`). */
  function Filter<T(!new)>(xs: seq<T>, p: T -> bool): (r: seq<T>)
    ensures |r| <= |xs|
    ensures forall x :: x in r <==> x in xs && p(x)
    ensures forall i :: 0 <= i < |r| ==> p(r[i])
    decreases |xs|
  {
    if xs == [] then []
    else if p(xs[0]) then [xs[0]] + Filter(xs[1..], p)
    else Filter(xs[1..], p)
  }

  /** Strictly ascending, hence free of repeats: the order of a primary-key scan. */
  predicate Ascending(xs: seq<int>)
  {
    forall i, j :: 0 <= i < j < |xs| ==> xs[i] < xs[j]
  }

  /** Selecting rows keeps them in scan order and never repeats one. */
  lemma {:induction false} FilterAscending(xs: seq<int>, p: int -> bool)
    requires Ascending(xs)
    ensures Ascending(Filter(xs, p))
    decreases |xs|
  {
    if xs != [] {
      FilterAscending(xs[1..], p);
      if p(xs[0]) {
        var rest := Filter(xs[1..], p);
        forall k | k in rest
          ensures xs[0] < k
        {
          var i :| 0 <= i < |xs[1..]| && xs[1..][i] == k;
        }
      }
    }
  }

  /** The keys of `m` between `lo` (inclusive) and `hi` (exclusive), ascending: a table scan in id order. */
  function KeysBetween<T>(m: map<int, T>, lo: int, hi: int): (r: seq<int>)
    ensures forall k :: k in r <==> lo <= k < hi && k in m
    ensures forall i :: 0 <= i < |r| ==> lo <= r[i] < hi
    ensures forall i, j :: 0 <= i < j < |r| ==> r[i] < r[j]
    decreases hi - lo
  {
    if lo >= hi then []
    else if lo in m then [lo] + KeysBetween(m, lo + 1, hi)
    else KeysBetween(m, lo + 1, hi)
  }

  /** The scan depends on which keys a table holds, not on the rows stored under them. */
  lemma {:induction false} KeysBetweenSameKeys<T, U>(m: map<int, T>, m': map<int, U>, lo: int, hi: int)
    requires m.Keys == m'.Keys
    ensures KeysBetween(m, lo, hi) == KeysBetween(m', lo, hi)
    decreases hi - lo
  {
    if lo < hi {
      KeysBetweenSameKeys(m, m', lo + 1, hi);
    }
  }

  /** A condition no row meets selects nothing. */
  lemma {:induction false} FilterNone<T(!new)>(xs: seq<T>, p: T -> bool)
    requires forall i :: 0 <= i < |xs| ==> !p(xs[i])
    ensures Filter(xs, p) == []
    decreases |xs|
  {
    if xs != [] {
      assert !p(xs[0]);
      FilterNone(xs[1..], p);
    }
  }

  /** Two conditions that agree on every row select the same rows. */
  lemma {:induction false} FilterCongruent<T(!new)>(xs: seq<T>, p: T -> bool, q: T -> bool)
    requires forall i :: 0 <= i < |xs| ==> p(xs[i]) == q(xs[i])
    ensures Filter(xs, p) == Filter(xs, q)
    decreases |xs|
  {
    if xs != [] {
      assert p(xs[0]) == q(xs[0]);
      FilterCongruent(xs[1..], p, q);
    }
  }
}
