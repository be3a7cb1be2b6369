/** Estimators for randomised experiments (`Experimental`): the
    difference in means with its Neyman variance (`cal_dm`, `est_via_dm`),
    the stratified difference in means (`est_via_strata`) and the Fisher
    randomisation p-value (`test_via_fisher`) over a supplied sequence of
    drawn assignments. */
module Experimental {
  import opened Wrappers
  import opened Stats
  import opened Masks
  import opened PoData
  import opened Results

  // ---------------------------------------------------------------------
  // Difference in means

  /** Both arms of the assignment `z` are non-empty; numpy's mean of an
      empty arm is nan. */
  predicate BothArms(z: seq<real>) {
    Count(Mask(z, 1.0)) > 0 && Count(Mask(z, 0.0)) > 0
  }

  /** `cal_stats(Z)`: mean outcome of the `Z == 1` rows less mean outcome
      of the `Z == 0` rows. */
  function DmStatistic(z: seq<real>, y: seq<real>): real
    requires |z| == |y| && BothArms(z)
  {
    Mean(Select(y, Mask(z, 1.0))) - Mean(Select(y, Mask(z, 0.0)))
  }

  /** `cal_dm(Z, Y)`: the difference in means and
      `se^2 = var1 / n1 + var0 / n0` with population variances. */
  function CalDm(z: seq<real>, y: seq<real>): (e: Estimate)
    requires |z| == |y| && BothArms(z)
    ensures e.variance >= 0.0
  {
    var t, c := Mask(z, 1.0), Mask(z, 0.0);
    var v1 := Variance(Select(y, t));
    var v0 := Variance(Select(y, c));
    NonnegativeRatio(v1, Count(t) as real);
    NonnegativeRatio(v0, Count(c) as real);
    Estimate(DmStatistic(z, y), v1 / (Count(t) as real) + v0 / (Count(c) as real))
  }

  /** Difference in means on four units: outcomes `[1, 2, 3, 4]` under assignment
      `[0, 0, 1, 1]` give a difference of 2 and `se^2 = 0.25`. */
  lemma CalDmExample()
    ensures BothArms([0.0, 0.0, 1.0, 1.0])
    ensures CalDm([0.0, 0.0, 1.0, 1.0], [1.0, 2.0, 3.0, 4.0]) == Estimate(2.0, 0.25)
  {
    var z, y := [0.0, 0.0, 1.0, 1.0], [1.0, 2.0, 3.0, 4.0];
    var t, c := Mask(z, 1.0), Mask(z, 0.0);
    assert t == [false, false, true, true];
    assert c == [true, true, false, false];
    assert Select(y, t) == [3.0, 4.0] by {
      assert y[..3] == [1.0, 2.0, 3.0] && t[..3] == [false, false, true];
      assert Select(y[..3], t[..3]) == [3.0] by {
        assert y[..3][..2] == [1.0, 2.0] && t[..3][..2] == [false, false];
        assert Select([1.0, 2.0], [false, false]) == [] by {
          assert [1.0, 2.0][..1] == [1.0] && [false, false][..1] == [false];
        }
      }
    }
    assert Select(y, c) == [1.0, 2.0] by {
      assert y[..3] == [1.0, 2.0, 3.0] && c[..3] == [true, true, false];
      assert y[..3][..2] == [1.0, 2.0] && c[..3][..2] == [true, true];
      assert Select([1.0, 2.0], [true, true]) == [1.0, 2.0] by {
        assert [1.0, 2.0][..1] == [1.0] && [true, true][..1] == [true];
        assert [1.0][..0] == [] && [true][..0] == [];
      }
    }
    assert Count(t) == 2 && Count(c) == 2;
    PairMoments(3.0, 4.0);
    PairMoments(1.0, 2.0);
  }

  /** Mean and population variance of a two-element vector `[a, a + 1]`. */
  lemma PairMoments(a: real, b: real)
    requires b == a + 1.0
    ensures Mean([a, b]) == a + 0.5 && Variance([a, b]) == 0.25
  {
    assert [a, b][..1] == [a] && [a][..0] == [];
    assert Sum([a]) == a;
    assert Sum([a, b]) == a + b;
    var d := SquaredDeviations([a, b], a + 0.5);
    assert d[0] == 0.25 && d[1] == 0.25;
    assert d[..1] == [d[0]] && [d[0]][..0] == [];
    assert Sum(d) == 0.5;
  }

  /** The assignment with the arms exchanged. */
  function Flip(z: seq<real>): (f: seq<real>)
    ensures |f| == |z|
  {
    seq(|z|, i requires 0 <= i < |z| => 1.0 - z[i])
  }

  /** Exchanging the arms negates the difference in means and leaves its
      variance unchanged. */
  lemma CalDmFlip(z: seq<real>, y: seq<real>)
    requires |z| == |y| && BothArms(z)
    ensures BothArms(Flip(z))
    ensures CalDm(Flip(z), y) == Estimate(0.0 - CalDm(z, y).ate, CalDm(z, y).variance)
  {
    assert Mask(Flip(z), 1.0) == Mask(z, 0.0);
    assert Mask(Flip(z), 0.0) == Mask(z, 1.0);
  }

  /** When every outcome is the same the difference and its variance are
      zero. */
  lemma CalDmOfConstantOutcomes(z: seq<real>, y: seq<real>, c: real)
    requires |z| == |y| && BothArms(z) && AllEqualTo(y, c)
    ensures CalDm(z, y) == Estimate(0.0, 0.0)
  {
    var t, u := Mask(z, 1.0), Mask(z, 0.0);
    ConstantArm(y, t, c);
    ConstantArm(y, u, c);
  }

  /** A non-empty arm of identical outcomes has that mean and no
      variance. */
  lemma ConstantArm(y: seq<real>, m: seq<bool>, c: real)
    requires |y| == |m| && Count(m) > 0 && AllEqualTo(y, c)
    ensures Mean(Select(y, m)) == c && Variance(Select(y, m)) == 0.0
  {
    var s := Select(y, m);
    SelectOfConstant(y, m, c);
    MeanOfConstant(s, c);
    VarianceOfConstant(s, c);
  }

  /** `est_via_dm`'s record: the statistic it stores for the Fisher test,
      and the estimate it reports. */
  datatype DmResult = DmResult(stats: real, estimate: Estimate)

  /** `est_via_dm`: the stored statistic is the reported difference in
      means. */
  function EstViaDm(z: seq<real>, y: seq<real>): (r: DmResult)
    requires |z| == |y| && BothArms(z)
    ensures r.stats == r.estimate.ate
    ensures r.estimate.variance >= 0.0
  {
    DmResult(DmStatistic(z, y), CalDm(z, y))
  }

  // ---------------------------------------------------------------------
  // Stratification

  /** The distinct labels of `s`, in order of first occurrence (the source
      iterates over `set(strata)`, whose order does not affect the sums). */
  function Labels<L(==)>(s: seq<L>): seq<L>
    decreases |s|
  {
    if |s| == 0 then []
    else
      var front := Labels(s[..|s| - 1]);
      if s[|s| - 1] in front then front else front + [s[|s| - 1]]
  }

  /** `Labels(s)` lists every label of `s` exactly once and nothing
      else. */
  lemma {:induction false} LabelsExact<L>(s: seq<L>)
    ensures Distinct(Labels(s))
    ensures forall x :: x in Labels(s) <==> x in s
    decreases |s|
  {
    if |s| > 0 {
      var k := |s| - 1;
      LabelsExact(s[..k]);
      assert s == s[..k] + [s[k]];
    }
  }

  /** Every stratum holds units of both arms. */
  predicate StrataBalanced<L(==)>(z: seq<real>, strata: seq<L>)
    requires |z| == |strata|
  {
    forall i :: 0 <= i < |strata| ==> BothArms(Select(z, Mask(strata, strata[i])))
  }

  /** `cal_dm(Z[strata == l], Y[strata == l])`. */
  function StratumEstimate<L(==)>(z: seq<real>, y: seq<real>, strata: seq<L>, l: L): (e: Estimate)
    requires |z| == |y| == |strata| && StrataBalanced(z, strata) && l in strata
    ensures e.variance >= 0.0
  {
    var m := Mask(strata, l);
    CalDm(Select(z, m), Select(y, m))
  }

  /** `w = mean(strata == l)`: the stratum's share of the sample. */
  function Weight<L(==)>(strata: seq<L>, l: L): real
    requires |strata| > 0
  {
    (Count(Mask(strata, l)) as real) / (|strata| as real)
  }

  /** `sum(ate_l * w_l)` and `sum(se_l^2 * w_l^2)` over the listed strata. */
  function Combine<L(==)>(z: seq<real>, y: seq<real>, strata: seq<L>, labels: seq<L>): (e: Estimate)
    requires |z| == |y| == |strata| && StrataBalanced(z, strata)
    requires forall k :: 0 <= k < |labels| ==> labels[k] in strata
    ensures e.variance >= 0.0
    decreases |labels|
  {
    if |labels| == 0 then Estimate(0.0, 0.0)
    else
      var rest := Combine(z, y, strata, labels[..|labels| - 1]);
      var l := labels[|labels| - 1];
      var t := Contribution(StratumEstimate(z, y, strata, l), Weight(strata, l));
      Estimate(rest.ate + t.ate, rest.variance + t.variance)
  }

  /** One stratum's contribution: its difference scaled by the weight and
      its variance by the squared weight, which keeps it non-negative. */
  function Contribution(s: Estimate, w: real): (t: Estimate)
    requires s.variance >= 0.0
    ensures t.variance >= 0.0
  {
    NonnegativeProduct(s.variance, Square(w));
    Estimate(s.ate * w, s.variance * Square(w))
  }

  /** The exceptions `est_via_strata` raises. */
  datatype StrataError =
    | LengthMismatch   // RuntimeError: the labels do not cover the sample
    | NotAnArray       // TypeError: the labels are not a numpy array

  /** `est_via_strata(strata)`: the length check comes first, then the type
      check, then the weighted combination over the distinct labels. */
  function EstViaStrata<L(==)>(z: seq<real>, y: seq<real>, strata: Column<L>): (r: Result<Estimate, StrataError>)
    requires |z| == |y|
    requires |strata.items| == |y| && strata.NdArray? ==> StrataBalanced(z, strata.items)
    ensures r == Failure(LengthMismatch) <==> |strata.items| != |y|
    ensures r == Failure(NotAnArray) <==> |strata.items| == |y| && strata.OtherSequence?
    ensures r.Success? ==> r.value.variance >= 0.0
  {
    if |strata.items| != |y| then Failure(LengthMismatch)
    else if !strata.NdArray? then Failure(NotAnArray)
    else
      LabelsExact(strata.items);
      Success(Combine(z, y, strata.items, Labels(strata.items)))
  }

  /** Each label's number of occurrences. */
  function LabelCounts<L(==)>(s: seq<L>, labels: seq<L>): (c: seq<real>)
    ensures |c| == |labels|
  {
    seq(|labels|, k requires 0 <= k < |labels| => Count(Mask(s, labels[k])) as real)
  }

  /** Appending one entry adds one occurrence of it and none of any other
      label. */
  lemma CountAppend<L>(s: seq<L>, x: L, l: L)
    ensures Count(Mask(s + [x], l)) == Count(Mask(s, l)) + (if x == l then 1 else 0)
  {
    MaskPrefix(s + [x], l, |s|);
    assert (s + [x])[..|s|] == s;
  }

  /** The occurrences of the distinct labels add up to the sample size. */
  lemma {:induction false} LabelCountsCover<L>(s: seq<L>)
    ensures Sum(LabelCounts(s, Labels(s))) == |s| as real
    decreases |s|
  {
    if |s| == 0 {
    } else {
      var k := |s| - 1;
      var front, x := s[..k], s[k];
      assert s == front + [x];
      LabelCountsCover(front);
      LabelsExact(front);
      var ls := Labels(front);
      var before := LabelCounts(front, ls);
      var after := LabelCounts(s, ls);
      forall q | 0 <= q < |ls|
        ensures after[q] == before[q] + (if ls[q] == x then 1.0 else 0.0)
      {
        CountAppend(front, x, ls[q]);
      }
      if x in ls {
        var p :| 0 <= p < |ls| && ls[p] == x;
        AddOneAt(before, after, p);
      } else {
        assert after == before;
        assert Labels(s) == ls + [x];
        assert LabelCounts(s, Labels(s)) == after + [Count(Mask(s, x)) as real];
        ZeroCountWhenAbsent(front, x);
        CountAppend(front, x, x);
        SumAppend(after, [Count(Mask(s, x)) as real]);
        assert [Count(Mask(s, x)) as real][..0] == [];
      }
    }
  }

  /** Each distinct label's share of the sample. */
  function StrataWeights<L(==)>(strata: seq<L>): (w: seq<real>)
    requires |strata| > 0
    ensures |w| == |Labels(strata)|
  {
    var ls := Labels(strata);
    seq(|ls|, k requires 0 <= k < |ls| => Weight(strata, ls[k]))
  }

  /** The strata weights sum to one. */
  lemma StrataWeightsSumToOne<L>(strata: seq<L>)
    requires |strata| > 0
    ensures Sum(StrataWeights(strata)) == 1.0
  {
    var n := |strata| as real;
    var counts := LabelCounts(strata, Labels(strata));
    var w := StrataWeights(strata);
    forall k | 0 <= k < |w|
      ensures w[k] == (1.0 / n) * counts[k]
    {
      DivideAsScale(counts[k], n);
    }
    SumScale(counts, w, 1.0 / n);
    LabelCountsCover(strata);
    DivideAsScale(n, n);
  }

  /** Division is multiplication by the reciprocal. */
  lemma DivideAsScale(a: real, n: real)
    requires n != 0.0
    ensures a / n == (1.0 / n) * a
  {
  }

  /** A single stratum reproduces the unstratified difference in means. */
  lemma SingleStratum<L>(z: seq<real>, y: seq<real>, strata: seq<L>, l: L)
    requires |z| == |y| == |strata| > 0 && BothArms(z)
    requires forall i :: 0 <= i < |strata| ==> strata[i] == l
    ensures StrataBalanced(z, strata)
    ensures EstViaStrata(z, y, NdArray(strata)) == Success(CalDm(z, y))
  {
    WholeStratum(z, y, strata, l);
    OnlyLabel(strata, l);
    var e := CalDm(z, y);
    assert Contribution(e, 1.0) == e by {
      assert Square(1.0) == 1.0;
    }
    assert [l][..0] == [];
    assert Combine(z, y, strata, [l]) == Estimate(0.0 + e.ate, 0.0 + e.variance);
  }

  /** When every unit carries the label `l`, its stratum is the whole
      sample and has weight one. */
  lemma WholeStratum<L>(z: seq<real>, y: seq<real>, strata: seq<L>, l: L)
    requires |z| == |y| == |strata| > 0 && BothArms(z)
    requires forall i :: 0 <= i < |strata| ==> strata[i] == l
    ensures l in strata && StrataBalanced(z, strata)
    ensures StratumEstimate(z, y, strata, l) == CalDm(z, y)
    ensures Weight(strata, l) == 1.0
  {
    var m := Mask(strata, l);
    SelectAll(z, m);
    SelectAll(y, m);
    forall i | 0 <= i < |strata|
      ensures Select(z, Mask(strata, strata[i])) == z
    {
      assert strata[i] == l;
    }
    assert strata[0] == l;
    FullShare(Count(m), |strata|);
  }

  /** A count equal to the sample size is a share of one. */
  lemma FullShare(c: nat, n: nat)
    requires c == n > 0
    ensures (c as real) / (n as real) == 1.0
  {
  }

  /** A sample carrying one label has exactly that label. */
  lemma OnlyLabel<L>(strata: seq<L>, l: L)
    requires |strata| > 0
    requires forall i :: 0 <= i < |strata| ==> strata[i] == l
    ensures Labels(strata) == [l]
  {
    LabelsExact(strata);
    var ls := Labels(strata);
    assert strata[0] in ls;
    forall k | 0 <= k < |ls|
      ensures ls[k] == l
    {
      assert ls[k] in Labels(strata);
      assert ls[k] in strata;
      var i :| 0 <= i < |strata| && strata[i] == ls[k];
    }
  }

  // ---------------------------------------------------------------------
  // Fisher randomisation test

  /** The share of `true` entries (`np.mean` of a boolean array). */
  function Fraction(b: seq<bool>): (f: real)
    requires |b| > 0
    ensures 0.0 <= f
  {
    NonnegativeRatio(Count(b) as real, |b| as real);
    (Count(b) as real) / (|b| as real)
  }

  /** `a > b` on numpy floats: a comparison with an undefined (`nan`)
      operand is false. */
  predicate Exceeds(a: Option<real>, b: Option<real>) {
    a.Some? && b.Some? && a.value > b.value
  }

  /** Which drawn statistics exceed the observed one. */
  function Above(ts: seq<Option<real>>, stat: Option<real>): (b: seq<bool>)
    ensures |b| == |ts|
  {
    seq(|ts|, i requires 0 <= i < |ts| => Exceeds(ts[i], stat))
  }

  /** Which drawn statistics fall below the observed one. */
  function Below(ts: seq<Option<real>>, stat: Option<real>): (b: seq<bool>)
    ensures |b| == |ts|
  {
    seq(|ts|, i requires 0 <= i < |ts| => Exceeds(stat, ts[i]))
  }

  /** `min(mean(T_s > stats), mean(T_s < stats))`: a two-sided p-value that
      never exceeds one half, since no draw is both above and below. */
  function FisherPValue(ts: seq<Option<real>>, stat: Option<real>): (p: real)
    requires |ts| > 0
    ensures 0.0 <= p <= 0.5
  {
    var above, below := Above(ts, stat), Below(ts, stat);
    CountDisjoint(above, below);
    HalfOfShare(Count(above) as real, Count(below) as real, |ts| as real);
    if Fraction(above) <= Fraction(below) then Fraction(above) else Fraction(below)
  }

  /** Two masks that are never set together count at most their length
      between them. */
  lemma {:induction false} CountDisjoint(a: seq<bool>, b: seq<bool>)
    requires |a| == |b|
    requires forall i :: 0 <= i < |a| ==> !(a[i] && b[i])
    ensures Count(a) + Count(b) <= |a|
    decreases |a|
  {
    if |a| > 0 {
      var k := |a| - 1;
      CountDisjoint(a[..k], b[..k]);
    }
  }

  /** The smaller of two shares of one whole is at most one half. */
  lemma HalfOfShare(x: real, y: real, n: real)
    requires n > 0.0 && x >= 0.0 && y >= 0.0 && x + y <= n
    ensures x / n <= 0.5 || y / n <= 0.5
  {
    if x / n > 0.5 {
      assert x > 0.5 * n by {
        assert (x / n) * n == x;
      }
      assert y < 0.5 * n;
      assert (y / n) * n == y;
    }
  }

  /** When every draw either reproduces the observed statistic exactly or
      has an undefined statistic, the p-value is zero. */
  lemma FisherPValueOfTies(ts: seq<Option<real>>, stat: Option<real>)
    requires |ts| > 0
    requires forall i :: 0 <= i < |ts| ==> ts[i].None? || ts[i] == stat
    ensures FisherPValue(ts, stat) == 0.0
  {
    var above := Above(ts, stat);
    assert forall i :: 0 <= i < |above| ==> !above[i];
    NoneSet(above);
  }

  /** An undefined observed statistic (an empty arm in the observed
      assignment) compares false with every draw, so the p-value is zero. */
  lemma UndefinedObservedStatistic(ts: seq<Option<real>>)
    requires |ts| > 0
    ensures FisherPValue(ts, None) == 0.0
  {
    var above := Above(ts, None);
    assert forall i :: 0 <= i < |above| ==> !above[i];
    NoneSet(above);
  }

  /** An undefined draw counts on neither side: it only lengthens the
      denominator of both shares. */
  lemma UndefinedDrawCountsNowhere(ts: seq<Option<real>>, stat: Option<real>)
    ensures Count(Above(ts + [None], stat)) == Count(Above(ts, stat))
    ensures Count(Below(ts + [None], stat)) == Count(Below(ts, stat))
  {
    assert Above(ts + [None], stat)[..|ts|] == Above(ts, stat);
    assert Below(ts + [None], stat)[..|ts|] == Below(ts, stat);
  }

  /** A mask with no set entry counts zero. */
  lemma {:induction false} NoneSet(b: seq<bool>)
    requires forall i :: 0 <= i < |b| ==> !b[i]
    ensures Count(b) == 0
    decreases |b|
  {
    if |b| > 0 {
      NoneSet(b[..|b| - 1]);
    }
  }

  /** The statistic `cal_stats` gives one drawn assignment: `None` stands
      for the `nan` that the mean of an empty arm yields. */
  function DrawStatistic(d: seq<real>, y: seq<real>): (t: Option<real>)
    requires |d| == |y|
    ensures t.Some? <==> BothArms(d)
    ensures t.Some? ==> t.value == DmStatistic(d, y)
  {
    if BothArms(d) then Some(DmStatistic(d, y)) else None
  }

  /** Exchanging a draw's arms negates a defined statistic and leaves an
      undefined one undefined. */
  lemma DrawStatisticFlip(d: seq<real>, y: seq<real>)
    requires |d| == |y|
    ensures DrawStatistic(Flip(d), y).Some? <==> DrawStatistic(d, y).Some?
    ensures DrawStatistic(d, y).Some? ==>
              DrawStatistic(Flip(d), y).value == 0.0 - DrawStatistic(d, y).value
  {
    assert Mask(Flip(d), 1.0) == Mask(d, 0.0);
    assert Mask(Flip(d), 0.0) == Mask(d, 1.0);
  }

  /** The statistic of every drawn assignment. */
  function DrawnStatistics(draws: seq<seq<real>>, y: seq<real>): (ts: seq<Option<real>>)
    requires forall i :: 0 <= i < |draws| ==> |draws[i]| == |y|
    ensures |ts| == |draws|
    ensures forall i :: 0 <= i < |draws| ==> (ts[i].Some? <==> BothArms(draws[i]))
  {
    seq(|draws|, i requires 0 <= i < |draws| => DrawStatistic(draws[i], y))
  }

  /** `test_via_fisher` after `est_via_dm`: the observed statistic against
      the statistics of the supplied draws, computed one draw at a time. An
      empty arm in the observed assignment makes the observed statistic
      undefined, and then no draw counts on either side. */
  method TestViaFisher(z: seq<real>, y: seq<real>, draws: seq<seq<real>>) returns (p: real)
    requires |z| == |y| && |draws| > 0
    requires forall i :: 0 <= i < |draws| ==> |draws[i]| == |y|
    ensures p == FisherPValue(DrawnStatistics(draws, y), DrawStatistic(z, y))
    ensures BothArms(z) ==> p == FisherPValue(DrawnStatistics(draws, y), Some(EstViaDm(z, y).stats))
    ensures !BothArms(z) ==> p == 0.0
    ensures 0.0 <= p <= 0.5
  {
    var stats := DrawStatistic(z, y);
    var ts: seq<Option<real>> := [];
    var i := 0;
    while i < |draws|
      invariant 0 <= i <= |draws| && |ts| == i
      invariant forall k :: 0 <= k < i ==> ts[k] == DrawStatistic(draws[k], y)
    {
      ts := ts + [DrawStatistic(draws[i], y)];
      i := i + 1;
    }
    assert ts == DrawnStatistics(draws, y);
    if !BothArms(z) {
      UndefinedObservedStatistic(ts);
    }
    p := FisherPValue(ts, stats);
  }
}
