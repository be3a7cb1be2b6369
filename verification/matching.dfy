/** The nearest-neighbour search of the matching estimator
    (`dist_arr_mat`, `arr_match_mat`, `mat_match_mat`). Covariates arrive
    already scaled; donor choice is specified by `IsNearest`, which any
    tie-breaking of `argpartition` satisfies. The estimator itself is in
    module `MatchingEstimator`. */
module Matching {
  import opened Stats
  import opened Masks
  import opened PoData

  // ---------------------------------------------------------------------
  // Distances and neighbour selection

  /** Every row of `xs` has `d` columns. */
  predicate SameWidth(xs: seq<Row>, d: nat) {
    forall j :: 0 <= j < |xs| ==> |xs[j]| == d
  }

  /** Squared Euclidean distance between two rows. */
  function SqDist(a: Row, b: Row): (d: real)
    requires |a| == |b|
    ensures d >= 0.0
    decreases |a|
  {
    if |a| == 0 then 0.0
    else SqDist(a[..|a| - 1], b[..|b| - 1]) + Square(a[|a| - 1] - b[|b| - 1])
  }

  /** A row is at distance zero from another exactly when the two are
      equal. */
  lemma {:induction false} SqDistZeroIff(a: Row, b: Row)
    requires |a| == |b|
    ensures SqDist(a, b) == 0.0 <==> a == b
    decreases |a|
  {
    if |a| > 0 {
      var k := |a| - 1;
      SqDistZeroIff(a[..k], b[..k]);
      var x := a[k] - b[k];
      assert SqDist(a, b) == SqDist(a[..k], b[..k]) + Square(x);
      if SqDist(a, b) == 0.0 {
        assert Square(x) == 0.0;
        assert Square(x) == x * x;
        SquareZero(x);
        assert a[k] == b[k] && a[..k] == b[..k];
        assert a == a[..k] + [a[k]] && b == b[..k] + [b[k]];
      }
      if a == b {
        assert a[..k] == b[..k];
        assert x == 0.0;
        assert Square(x) == x * x;
      }
    }
  }

  /** `dist_arr_mat(Xi, X)`: the squared distance from `xi` to each row
      of `xs`. */
  function DistArrMat(xi: Row, xs: seq<Row>): (dist: seq<real>)
    requires SameWidth(xs, |xi|)
    ensures |dist| == |xs|
    ensures forall j :: 0 <= j < |xs| ==> dist[j] >= 0.0
  {
    seq(|xs|, j requires 0 <= j < |xs| => SqDist(xs[j], xi))
  }

  /** Every position is below `n`. */
  predicate InRange(s: seq<nat>, n: nat) {
    forall k :: 0 <= k < |s| ==> s[k] < n
  }

  /** `idx` names `m` distinct positions of `dist`, and none of them is
      farther than any position left out: what `argpartition(dist, m)[:m]`
      returns, in some order. */
  predicate IsNearest(idx: seq<nat>, dist: seq<real>, m: nat) {
    && |idx| == m && InRange(idx, |dist|) && Distinct(idx)
    && forall k, j :: 0 <= k < |idx| && 0 <= j < |dist| && j !in idx ==> dist[idx[k]] <= dist[j]
  }

  /** Position in `rest` of a smallest distance. */
  method MinPosition(dist: seq<real>, rest: seq<nat>) returns (pos: nat)
    requires |rest| > 0 && InRange(rest, |dist|)
    ensures pos < |rest|
    ensures forall k :: 0 <= k < |rest| ==> dist[rest[pos]] <= dist[rest[k]]
  {
    pos := 0;
    var k := 1;
    while k < |rest|
      invariant 1 <= k <= |rest| && pos < k
      invariant forall q :: 0 <= q < k ==> dist[rest[pos]] <= dist[rest[q]]
    {
      if dist[rest[k]] < dist[rest[pos]] {
        pos := k;
      }
      k := k + 1;
    }
  }

  /** `s` without its entry at `p`. */
  function RemoveAt(s: seq<nat>, p: nat): (r: seq<nat>)
    requires p < |s|
    ensures |r| == |s| - 1
  {
    s[..p] + s[p + 1..]
  }

  /** Removing one entry of a duplicate-free sequence removes exactly that
      value and keeps the rest duplicate-free. */
  lemma RemoveAtFacts(s: seq<nat>, p: nat)
    requires p < |s| && Distinct(s)
    ensures Distinct(RemoveAt(s, p))
    ensures forall x :: x in RemoveAt(s, p) <==> x in s && x != s[p]
  {
    var r := RemoveAt(s, p);
    forall k | 0 <= k < |r|
      ensures r[k] == (if k < p then s[k] else s[k + 1])
    {
    }
    forall x | x in s && x != s[p]
      ensures x in r
    {
      var k :| 0 <= k < |s| && s[k] == x;
      if k < p {
        assert r[k] == x;
      } else {
        assert r[k - 1] == x;
      }
    }
  }

  /** `arr_match_mat(Xi, X, M)`: the `m` rows of `xs` nearest to `xi`.
      Repeatedly moves a nearest remaining row into the selection. */
  method ArrMatchMat(xi: Row, xs: seq<Row>, m: nat) returns (idx: seq<nat>)
    requires SameWidth(xs, |xi|) && m < |xs|
    ensures IsNearest(idx, DistArrMat(xi, xs), m)
  {
    var dist := DistArrMat(xi, xs);
    var n := |xs|;
    idx := [];
    var rest: seq<nat> := seq(n, j requires 0 <= j < n => j);
    forall j | 0 <= j < n
      ensures j in rest
    {
      assert rest[j] == j;
    }
    while |idx| < m
      invariant |idx| + |rest| == n && |idx| <= m
      invariant InRange(idx, n) && InRange(rest, n)
      invariant Distinct(idx) && Distinct(rest)
      invariant forall j :: 0 <= j < n ==> (j in idx <==> j !in rest)
      invariant forall a, b :: 0 <= a < |idx| && 0 <= b < |rest| ==> dist[idx[a]] <= dist[rest[b]]
      decreases m - |idx|
    {
      var pos := MinPosition(dist, rest);
      var pick := rest[pos];
      RemoveAtFacts(rest, pos);
      var rest' := RemoveAt(rest, pos);
      forall b | 0 <= b < |rest'|
        ensures dist[pick] <= dist[rest'[b]]
      {
        assert rest'[b] in rest;
        var k :| 0 <= k < |rest| && rest[k] == rest'[b];
      }
      assert pick !in idx;
      forall a | 0 <= a < |idx|
        ensures idx[a] != pick
      {
        assert idx[a] in idx;
      }
      idx := idx + [pick];
      rest := rest';
    }
    forall k, j | 0 <= k < |idx| && 0 <= j < n && j !in idx
      ensures dist[idx[k]] <= dist[j]
    {
      var b :| 0 <= b < |rest| && rest[b] == j;
    }
  }

  /** Matching a row among the rows it belongs to: unless the row is one of
      its own matches, every match is an exact duplicate of it. This is why
      the within-arm matches ask for one neighbour more than they use. */
  lemma SelfMatchOrDuplicates(xs: seq<Row>, i: nat, idx: seq<nat>, m: nat)
    requires i < |xs| && SameWidth(xs, |xs[i]|)
    requires IsNearest(idx, DistArrMat(xs[i], xs), m)
    ensures i !in idx ==> forall k :: 0 <= k < |idx| ==> xs[idx[k]] == xs[i]
  {
    var dist := DistArrMat(xs[i], xs);
    SqDistZeroIff(xs[i], xs[i]);
    if i !in idx {
      forall k | 0 <= k < |idx|
        ensures xs[idx[k]] == xs[i]
      {
        assert dist[idx[k]] <= dist[i];
        SqDistZeroIff(xs[idx[k]], xs[i]);
      }
    }
  }

  /** Every query row's donor list is a nearest-`m` selection among
      `donors`. */
  predicate Matched(matches: seq<seq<nat>>, queries: seq<Row>, donors: seq<Row>, m: nat) {
    && |matches| == |queries|
    && forall i :: 0 <= i < |queries| ==>
         SameWidth(donors, |queries[i]|) && IsNearest(matches[i], DistArrMat(queries[i], donors), m)
  }

  /** `mat_match_mat(X, Y, M)`: the nearest-`m` donors of every query
      row. */
  method MatMatchMat(queries: seq<Row>, donors: seq<Row>, m: nat) returns (matches: seq<seq<nat>>)
    requires forall i :: 0 <= i < |queries| ==> SameWidth(donors, |queries[i]|)
    requires |queries| > 0 ==> m < |donors|
    ensures Matched(matches, queries, donors, m)
  {
    matches := [];
    while |matches| < |queries|
      invariant |matches| <= |queries|
      invariant Matched(matches, queries[..|matches|], donors, m)
    {
      var row := ArrMatchMat(queries[|matches|], donors, m);
      matches := matches + [row];
    }
    assert queries[..|matches|] == queries;
  }
}
