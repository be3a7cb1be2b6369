/** Inverse-propensity weighting (`est_via_ipw`) and its augmented, doubly
    robust variant (`est_via_aipw`), with the propensity and the outcome
    predictions given as inputs. */
module Weighting {
  import opened Stats
  import opened Masks
  import opened Results
  import opened Propensity

  /** No entry is 0 or 1, so both `p` and `1 - p` are usable divisors. */
  predicate Interior(p: seq<real>) {
    forall i :: 0 <= i < |p| ==> p[i] != 0.0 && p[i] != 1.0
  }

  /** Every treatment value is 0 or 1. */
  predicate Binary(z: seq<real>) {
    forall i :: 0 <= i < |z| ==> z[i] == 0.0 || z[i] == 1.0
  }

  /** `w1 = Z / p`: zero on control rows, `1 / p` on treated rows. */
  function TreatedWeights(z: seq<real>, p: seq<real>): (w: seq<real>)
    requires |z| == |p| && Interior(p)
    ensures |w| == |z|
    ensures forall i :: 0 <= i < |z| && z[i] == 0.0 ==> w[i] == 0.0
    ensures forall i :: 0 <= i < |z| && z[i] == 1.0 ==> w[i] == 1.0 / p[i]
  {
    seq(|z|, i requires 0 <= i < |z| => z[i] / p[i])
  }

  /** `w0 = (1 - Z) / (1 - p)`: zero on treated rows, `1 / (1 - p)` on
      control rows. */
  function ControlWeights(z: seq<real>, p: seq<real>): (w: seq<real>)
    requires |z| == |p| && Interior(p)
    ensures |w| == |z|
    ensures forall i :: 0 <= i < |z| && z[i] == 1.0 ==> w[i] == 0.0
    ensures forall i :: 0 <= i < |z| && z[i] == 0.0 ==> w[i] == 1.0 / (1.0 - p[i])
  {
    var w := seq(|z|, i requires 0 <= i < |z| => (1.0 - z[i]) / (1.0 - p[i]));
    assert forall i :: 0 <= i < |z| && z[i] == 1.0 ==> w[i] == 0.0 / (1.0 - p[i]);
    w
  }

  /** Both weight totals are non-zero, so normalisation divides by non-zero
      means. */
  predicate Normalizable(z: seq<real>, p: seq<real>)
    requires |z| == |p| && Interior(p)
  {
    Sum(TreatedWeights(z, p)) != 0.0 && Sum(ControlWeights(z, p)) != 0.0
  }

  /** `w * Y`, entry by entry. */
  function Weighted(w: seq<real>, y: seq<real>): (v: seq<real>)
    requires |w| == |y|
    ensures |v| == |y|
  {
    seq(|y|, i requires 0 <= i < |y| => w[i] * y[i])
  }

  /** `v / d`, entry by entry. */
  function Rescaled(v: seq<real>, d: real): (r: seq<real>)
    requires d != 0.0
    ensures |r| == |v|
  {
    seq(|v|, i requires 0 <= i < |v| => v[i] / d)
  }

  /** The IPW pseudo-outcome `G`: `w1 * Y - w0 * Y`, or, with `normalize`,
      `w1 * Y / (sum(w1) / n) - w0 * Y / (sum(w0) / n)`. */
  function IpwPseudoOutcome(y: seq<real>, z: seq<real>, p: seq<real>, normalize: bool): (g: seq<real>)
    requires |y| == |z| == |p| && Interior(p)
    requires normalize ==> Normalizable(z, p)
    ensures |g| == |y|
  {
    var v1, v0 := Weighted(TreatedWeights(z, p), y), Weighted(ControlWeights(z, p), y);
    if normalize then
      var n := |y| as real;
      NonzeroSumNonempty(TreatedWeights(z, p));
      var r1 := Rescaled(v1, Sum(TreatedWeights(z, p)) / n);
      var r0 := Rescaled(v0, Sum(ControlWeights(z, p)) / n);
      seq(|y|, i requires 0 <= i < |y| => r1[i] - r0[i])
    else
      seq(|y|, i requires 0 <= i < |y| => v1[i] - v0[i])
  }

  /** The propensity the estimators actually use: the input after clipping
      with `Eps`. */
  function Clip(propensity: seq<real>): (p: seq<real>)
    ensures |p| == |propensity| && Interior(p)
  {
    FixPropensity(propensity, Eps).propensity
  }

  /** `est_via_ipw` with a given propensity. */
  function EstViaIpw(y: seq<real>, z: seq<real>, propensity: seq<real>, normalize: bool): (e: Estimate)
    requires |y| == |z| == |propensity| >= 2
    requires normalize ==> Normalizable(z, Clip(propensity))
    ensures e.variance >= 0.0
  {
    InfluenceEstimate(IpwPseudoOutcome(y, z, Clip(propensity), normalize))
  }

  /** The AIPW pseudo-outcome: the outcome-model contrast plus the
      inverse-propensity-weighted residuals of each arm. */
  function AipwPseudoOutcome(y: seq<real>, z: seq<real>, mu1: seq<real>, mu0: seq<real>, p: seq<real>): (g: seq<real>)
    requires |y| == |z| == |mu1| == |mu0| == |p| && Interior(p)
    ensures |g| == |y|
  {
    seq(|y|, i requires 0 <= i < |y| =>
      mu1[i] - mu0[i] + z[i] * (y[i] - mu1[i]) / p[i] - (1.0 - z[i]) * (y[i] - mu0[i]) / (1.0 - p[i]))
  }

  /** `est_via_aipw` with given treated/control predictions and propensity. */
  function EstViaAipw(y: seq<real>, z: seq<real>, mu1: seq<real>, mu0: seq<real>, propensity: seq<real>): (e: Estimate)
    requires |y| == |z| == |mu1| == |mu0| == |propensity| >= 2
    ensures e.variance >= 0.0
  {
    InfluenceEstimate(AipwPseudoOutcome(y, z, mu1, mu0, Clip(propensity)))
  }

  /** Each arm's normalised weights `w / (sum(w) / n)` add up to `n`. */
  lemma NormalizedWeightsSumToN(z: seq<real>, p: seq<real>)
    requires |z| == |p| && Interior(p) && Normalizable(z, p)
    ensures var w1, n := TreatedWeights(z, p), |z| as real;
            Sum(seq(|z|, i requires 0 <= i < |z| => w1[i] / (Sum(w1) / n))) == n
    ensures var w0, n := ControlWeights(z, p), |z| as real;
            Sum(seq(|z|, i requires 0 <= i < |z| => w0[i] / (Sum(w0) / n))) == n
  {
    ScaledToMean(TreatedWeights(z, p));
    ScaledToMean(ControlWeights(z, p));
  }

  /** Dividing a vector with non-zero total by its mean makes it sum to its
      length. */
  lemma ScaledToMean(w: seq<real>)
    requires Sum(w) != 0.0
    ensures |w| > 0
    ensures var n := |w| as real;
            Sum(seq(|w|, i requires 0 <= i < |w| => w[i] / (Sum(w) / n))) == n
  {
    assert |w| == 0 ==> Sum(w) == 0.0;
    var n := |w| as real;
    var S := Sum(w);
    var q := S / n;
    assert q != 0.0;
    var r := seq(|w|, i requires 0 <= i < |w| => w[i] / q);
    forall i | 0 <= i < |w|
      ensures r[i] == (1.0 / q) * w[i]
    {
    }
    SumScale(w, r, 1.0 / q);
    assert Sum(r) == S / q;
    assert S / q == n;
  }

  /** A vector of `n` copies of `c`. */
  function Constant(n: nat, c: real): (v: seq<real>)
    ensures |v| == n && AllEqualTo(v, c)
  {
    seq(n, i requires 0 <= i < n => c)
  }

  /** A constant propensity strictly inside (0, 1) is left alone by
      clipping. */
  lemma ClipConstant(n: nat, c: real)
    requires 0.0 < c < 1.0
    ensures Clip(Constant(n, c)) == Constant(n, c)
  {
  }

  /** The entries of `y` on the rows where `m` is set, zero elsewhere. */
  function OnRows(y: seq<real>, m: seq<bool>): (v: seq<real>)
    requires |y| == |m|
    ensures |v| == |y|
    ensures forall i :: 0 <= i < |y| ==> (m[i] ==> v[i] == y[i]) && (!m[i] ==> v[i] == 0.0)
  {
    seq(|y|, i requires 0 <= i < |y| => if m[i] then y[i] else 0.0)
  }

  /** With a constant propensity `c`, a treated row weighs `1 / c` in the
      treated arm and a control row `1 / (1 - c)` in the control arm; each
      weighs nothing in the other arm. */
  lemma ConstantWeights(z: seq<real>, c: real)
    requires Binary(z) && 0.0 < c < 1.0
    ensures var w1, t := TreatedWeights(z, Constant(|z|, c)), Mask(z, 1.0);
            forall i :: 0 <= i < |z| ==> (t[i] ==> w1[i] == 1.0 / c) && (!t[i] ==> w1[i] == 0.0)
    ensures var w0, u := ControlWeights(z, Constant(|z|, c)), Mask(z, 0.0);
            forall i :: 0 <= i < |z| ==> (u[i] ==> w0[i] == 1.0 / (1.0 - c)) && (!u[i] ==> w0[i] == 0.0)
  {
  }

  /** Weights equal to `a` on the rows of `m` and zero elsewhere, times the
      outcome, total `a` times the outcomes of those rows. */
  lemma ArmWeightedSum(y: seq<real>, m: seq<bool>, w: seq<real>, a: real)
    requires |y| == |m| == |w|
    requires forall i :: 0 <= i < |m| ==> (m[i] ==> w[i] == a) && (!m[i] ==> w[i] == 0.0)
    ensures Sum(Weighted(w, y)) == a * Sum(OnRows(y, m))
  {
    var ym := OnRows(y, m);
    var wy := Weighted(w, y);
    forall i | 0 <= i < |y|
      ensures wy[i] == a * ym[i]
    {
      assert wy[i] == w[i] * y[i];
      if m[i] {
        assert ym[i] == y[i];
      } else {
        assert ym[i] == 0.0 && w[i] == 0.0;
      }
    }
    SumScale(ym, wy, a);
  }

  /** The selected rows total what the zero-padded vector totals. */
  lemma SelectedTotal(y: seq<real>, m: seq<bool>)
    requires |y| == |m|
    ensures Sum(Select(y, m)) == Sum(OnRows(y, m))
  {
    SumSelect(y, m, OnRows(y, m));
  }

  /** The mean of the selected rows is their zero-padded total over their
      count. */
  lemma MeanOfSelected(y: seq<real>, m: seq<bool>)
    requires |y| == |m| && Count(m) > 0
    ensures Mean(Select(y, m)) == Sum(OnRows(y, m)) / (Count(m) as real)
  {
    SelectedTotal(y, m);
  }

  /** Dividing each entry by `d` divides the total by `d`. */
  lemma SumRescaled(v: seq<real>, d: real)
    requires d != 0.0
    ensures Sum(Rescaled(v, d)) == Sum(v) / d
  {
    var r := Rescaled(v, d);
    forall i | 0 <= i < |v|
      ensures r[i] == (1.0 / d) * v[i]
    {
    }
    SumScale(v, r, 1.0 / d);
  }

  /** The scalar core of a normalised arm: with total weight `W = a * c`
      and a rescaled total `R = a * S / (W / n)`, `R / n == S / c`. */
  lemma NormalizedArmScalar(a: real, c: real, n: real, bigW: real, r: real, total: real)
    requires a != 0.0 && c > 0.0 && n > 0.0
    requires bigW == a * c && bigW / n != 0.0 && r == (a * total) / (bigW / n)
    ensures r / n == total / c
  {
    var q := bigW / n;
    assert q * n == bigW;
    assert (total / c) * n * q == a * total;
  }

  /** A non-zero real divided by a positive one stays non-zero. */
  lemma NonzeroRatio(x: real, n: real)
    requires x != 0.0 && n > 0.0
    ensures x / n != 0.0
  {
    assert (x / n) * n == x;
  }

  /** The weights `w` total `a * c` and the weighted outcomes `v` total
      `a * total`: an arm of `c` rows, each weighing `a`, whose outcomes add
      up to `total`. */
  predicate ArmTotalsAre(v: seq<real>, w: seq<real>, a: real, c: real, total: real) {
    Sum(w) == a * c && Sum(v) == a * total
  }

  /** Normalisation from the two totals alone: if the weights total `a * c`
      and the weighted outcomes `a * S`, the weighted outcomes divided by
      the mean weight average to `S / c`. */
  lemma NormalizedFromTotals(v: seq<real>, w: seq<real>, total: real, a: real, c: real)
    requires |v| == |w| > 0 && a != 0.0 && c > 0.0
    requires ArmTotalsAre(v, w, a, c, total)
    ensures NormalizesTo(v, w, total / c)
  {
    var n := |w| as real;
    NonzeroProduct(a, c);
    NonzeroRatio(Sum(w), n);
    SumRescaled(v, Sum(w) / n);
    NormalizedArmScalar(a, c, n, Sum(w), Sum(Rescaled(v, Sum(w) / n)), total);
  }

  /** A normalised arm averages to the mean outcome of its rows: with
      weights `a` on the rows of `m` and zero elsewhere, the weighted
      outcomes divided by the mean weight average to the arm's total over
      its count. */
  lemma NormalizedArmMean(y: seq<real>, m: seq<bool>, w: seq<real>, a: real)
    requires |y| == |m| == |w| && a != 0.0 && Count(m) > 0
    requires forall i :: 0 <= i < |m| ==> (m[i] ==> w[i] == a) && (!m[i] ==> w[i] == 0.0)
    ensures NormalizesTo(Weighted(w, y), w, Sum(OnRows(y, m)) / (Count(m) as real))
  {
    ArmTotals(y, m, w, a);
    NormalizedFromTotals(Weighted(w, y), w, Sum(OnRows(y, m)), a, Count(m) as real);
  }

  /** The weight total and the weighted-outcome total of one arm. */
  lemma ArmTotals(y: seq<real>, m: seq<bool>, w: seq<real>, a: real)
    requires |y| == |m| == |w| && Count(m) > 0
    requires forall i :: 0 <= i < |m| ==> (m[i] ==> w[i] == a) && (!m[i] ==> w[i] == 0.0)
    ensures |w| > 0 && ArmTotalsAre(Weighted(w, y), w, a, Count(m) as real, Sum(OnRows(y, m)))
  {
    assert |m| == 0 ==> Count(m) == 0;
    SumOfIndicator(m, w, a);
    ArmWeightedSum(y, m, w, a);
  }

  /** The mean of a pointwise difference is the difference of the two
      averages. */
  lemma MeanOfDifference(a: seq<real>, b: seq<real>, g: seq<real>)
    requires |a| == |b| == |g| > 0
    requires forall i :: 0 <= i < |g| ==> g[i] == a[i] - b[i]
    ensures var n := |g| as real;
            Mean(g) == Sum(a) / n - Sum(b) / n
  {
    SumDifference(a, b, g);
    DivDifference(Sum(a), Sum(b), |g| as real);
  }

  /** `(a - b) / n == a / n - b / n`. */
  lemma DivDifference(a: real, b: real, n: real)
    requires n != 0.0
    ensures (a - b) / n == a / n - b / n
  {
  }

  /** Normalising the weighted outcomes `v` by the mean weight `sum(w) / n`
      is well defined and averages to `avg`. */
  predicate NormalizesTo(v: seq<real>, w: seq<real>, avg: real) {
    && |v| == |w| > 0 && Sum(w) != 0.0 && Sum(w) / (|w| as real) != 0.0
    && Sum(Rescaled(v, Sum(w) / (|w| as real))) / (|w| as real) == avg
  }

  /** For any usable propensity, the mean of the normalised pseudo-outcome
      is the treated arm's normalised average minus the control arm's. */
  lemma NormalizedMeanSplits(y: seq<real>, z: seq<real>, p: seq<real>, avg1: real, avg0: real)
    requires |y| == |z| == |p| && Interior(p)
    requires var w1, w0 := TreatedWeights(z, p), ControlWeights(z, p);
             NormalizesTo(Weighted(w1, y), w1, avg1) && NormalizesTo(Weighted(w0, y), w0, avg0)
    ensures |y| > 0 && Normalizable(z, p)
    ensures Mean(IpwPseudoOutcome(y, z, p, true)) == avg1 - avg0
  {
    var n, w1, w0 := |y| as real, TreatedWeights(z, p), ControlWeights(z, p);
    MeanOfDifference(Rescaled(Weighted(w1, y), Sum(w1) / n), Rescaled(Weighted(w0, y), Sum(w0) / n),
                     IpwPseudoOutcome(y, z, p, true));
  }

  /** Under a constant propensity the normalised treated arm averages to the
      treated rows' total over their count. */
  lemma NormalizedTreatedOfConstant(y: seq<real>, z: seq<real>, c: real)
    requires |y| == |z| && Binary(z) && 0.0 < c < 1.0 && Count(Mask(z, 1.0)) > 0
    ensures var w := TreatedWeights(z, Constant(|z|, c));
            NormalizesTo(Weighted(w, y), w, Sum(OnRows(y, Mask(z, 1.0))) / (Count(Mask(z, 1.0)) as real))
  {
    ConstantWeights(z, c);
    NormalizedArmMean(y, Mask(z, 1.0), TreatedWeights(z, Constant(|z|, c)), 1.0 / c);
  }

  /** Under a constant propensity the normalised control arm averages to the
      control rows' total over their count. */
  lemma NormalizedControlOfConstant(y: seq<real>, z: seq<real>, c: real)
    requires |y| == |z| && Binary(z) && 0.0 < c < 1.0 && Count(Mask(z, 0.0)) > 0
    ensures var w := ControlWeights(z, Constant(|z|, c));
            NormalizesTo(Weighted(w, y), w, Sum(OnRows(y, Mask(z, 0.0))) / (Count(Mask(z, 0.0)) as real))
  {
    ConstantWeights(z, c);
    NormalizedArmMean(y, Mask(z, 0.0), ControlWeights(z, Constant(|z|, c)), 1.0 / (1.0 - c));
  }

  /** The mean of the normalised pseudo-outcome under a constant propensity
      is the difference of the two arms' averages. */
  lemma NormalizedMeanOfConstant(y: seq<real>, z: seq<real>, c: real)
    requires |y| == |z| && Binary(z) && 0.0 < c < 1.0
    requires Count(Mask(z, 1.0)) > 0 && Count(Mask(z, 0.0)) > 0
    ensures |y| > 0 && Normalizable(z, Constant(|z|, c))
    ensures var t, u := Mask(z, 1.0), Mask(z, 0.0);
            Mean(IpwPseudoOutcome(y, z, Constant(|z|, c), true))
            == Sum(OnRows(y, t)) / (Count(t) as real) - Sum(OnRows(y, u)) / (Count(u) as real)
  {
    NormalizedTreatedOfConstant(y, z, c);
    NormalizedControlOfConstant(y, z, c);
    var t, u := Mask(z, 1.0), Mask(z, 0.0);
    NormalizedMeanSplits(y, z, Constant(|z|, c),
                         Sum(OnRows(y, t)) / (Count(t) as real), Sum(OnRows(y, u)) / (Count(u) as real));
  }

  /** With a constant propensity strictly inside (0, 1) and normalised
      weights, IPW is exactly the difference in means of the two arms. */
  lemma IpwConstantPropensityIsDifferenceInMeans(y: seq<real>, z: seq<real>, c: real)
    requires |y| == |z| >= 2 && Binary(z) && 0.0 < c < 1.0
    requires Count(Mask(z, 1.0)) > 0 && Count(Mask(z, 0.0)) > 0
    ensures Normalizable(z, Clip(Constant(|z|, c)))
    ensures EstViaIpw(y, z, Constant(|z|, c), true).ate
            == Mean(Select(y, Mask(z, 1.0))) - Mean(Select(y, Mask(z, 0.0)))
  {
    ClipConstant(|z|, c);
    NormalizedMeanOfConstant(y, z, c);
    MeanOfSelected(y, Mask(z, 1.0));
    MeanOfSelected(y, Mask(z, 0.0));
  }

  /** For any usable propensity, the raw pseudo-outcome totals the treated
      weighted outcomes minus the control ones. */
  lemma RawSumSplits(y: seq<real>, z: seq<real>, p: seq<real>)
    requires |y| == |z| == |p| && Interior(p)
    ensures Sum(IpwPseudoOutcome(y, z, p, false))
            == Sum(Weighted(TreatedWeights(z, p), y)) - Sum(Weighted(ControlWeights(z, p), y))
  {
    SumDifference(Weighted(TreatedWeights(z, p), y), Weighted(ControlWeights(z, p), y),
                  IpwPseudoOutcome(y, z, p, false));
  }

  /** Under a constant propensity the raw treated arm totals the treated
      outcomes divided by `c`. */
  lemma RawTreatedOfConstant(y: seq<real>, z: seq<real>, c: real)
    requires |y| == |z| && Binary(z) && 0.0 < c < 1.0
    ensures Sum(Weighted(TreatedWeights(z, Constant(|z|, c)), y)) == (1.0 / c) * Sum(OnRows(y, Mask(z, 1.0)))
  {
    ConstantWeights(z, c);
    ArmWeightedSum(y, Mask(z, 1.0), TreatedWeights(z, Constant(|z|, c)), 1.0 / c);
  }

  /** Under a constant propensity the raw control arm totals the control
      outcomes divided by `1 - c`. */
  lemma RawControlOfConstant(y: seq<real>, z: seq<real>, c: real)
    requires |y| == |z| && Binary(z) && 0.0 < c < 1.0
    ensures Sum(Weighted(ControlWeights(z, Constant(|z|, c)), y))
            == (1.0 / (1.0 - c)) * Sum(OnRows(y, Mask(z, 0.0)))
  {
    ConstantWeights(z, c);
    ArmWeightedSum(y, Mask(z, 0.0), ControlWeights(z, Constant(|z|, c)), 1.0 / (1.0 - c));
  }

  /** With a constant propensity and raw weights, the IPW pseudo-outcome
      totals `sum(Yt) / c - sum(Yc) / (1 - c)`. */
  lemma RawSumOfConstant(y: seq<real>, z: seq<real>, c: real)
    requires |y| == |z| && Binary(z) && 0.0 < c < 1.0
    ensures Sum(IpwPseudoOutcome(y, z, Constant(|z|, c), false))
            == (1.0 / c) * Sum(OnRows(y, Mask(z, 1.0))) - (1.0 / (1.0 - c)) * Sum(OnRows(y, Mask(z, 0.0)))
  {
    RawTreatedOfConstant(y, z, c);
    RawControlOfConstant(y, z, c);
    RawSumSplits(y, z, Constant(|z|, c));
  }

  /** With a constant propensity and raw weights, IPW is
      `(sum(Yt) / c - sum(Yc) / (1 - c)) / n`, where the arm totals are
      taken over `Y` with the other arm's rows zeroed. */
  lemma IpwConstantPropensityRaw(y: seq<real>, z: seq<real>, c: real)
    requires |y| == |z| >= 2 && Binary(z) && 0.0 < c < 1.0
    ensures EstViaIpw(y, z, Constant(|z|, c), false).ate
            == ((1.0 / c) * Sum(OnRows(y, Mask(z, 1.0))) - (1.0 / (1.0 - c)) * Sum(OnRows(y, Mask(z, 0.0))))
               / (|y| as real)
  {
    ClipConstant(|z|, c);
    RawSumOfConstant(y, z, c);
  }

  /** One AIPW row with zero predictions is the raw IPW row. */
  lemma AipwZeroRow(zi: real, yi: real, pi: real)
    requires pi != 0.0 && pi != 1.0
    ensures 0.0 - 0.0 + zi * (yi - 0.0) / pi - (1.0 - zi) * (yi - 0.0) / (1.0 - pi)
            == (zi / pi) * yi - ((1.0 - zi) / (1.0 - pi)) * yi
  {
    MoveDivisor(zi, yi, pi);
    MoveDivisor(1.0 - zi, yi, 1.0 - pi);
  }

  /** `a * b / d == (a / d) * b`. */
  lemma MoveDivisor(a: real, b: real, d: real)
    requires d != 0.0
    ensures a * (b - 0.0) / d == (a / d) * b
  {
    assert (a / d) * d == a;
  }

  /** For any usable propensity, AIPW with both predictions identically zero
      has the raw IPW pseudo-outcome. */
  lemma AipwZeroPredictions(y: seq<real>, z: seq<real>, p: seq<real>)
    requires |y| == |z| == |p| && Interior(p)
    ensures var zero := Constant(|y|, 0.0);
            AipwPseudoOutcome(y, z, zero, zero, p) == IpwPseudoOutcome(y, z, p, false)
  {
    var zero := Constant(|y|, 0.0);
    forall i | 0 <= i < |y|
      ensures AipwPseudoOutcome(y, z, zero, zero, p)[i] == IpwPseudoOutcome(y, z, p, false)[i]
    {
      AipwZeroAt(y, z, p, i);
    }
  }

  /** Row `i` of the zero-prediction AIPW pseudo-outcome is row `i` of the
      raw IPW one. */
  lemma AipwZeroAt(y: seq<real>, z: seq<real>, p: seq<real>, i: nat)
    requires |y| == |z| == |p| && Interior(p) && i < |y|
    ensures var zero := Constant(|y|, 0.0);
            AipwPseudoOutcome(y, z, zero, zero, p)[i] == IpwPseudoOutcome(y, z, p, false)[i]
  {
    var w1, w0 := TreatedWeights(z, p), ControlWeights(z, p);
    assert w1[i] == z[i] / p[i] && w0[i] == (1.0 - z[i]) / (1.0 - p[i]);
    AipwZeroRow(z[i], y[i], p[i]);
  }

  /** AIPW with both outcome predictions identically zero has the same
      estimate as IPW with raw weights. */
  lemma AipwWithZeroPredictionsIsIpw(y: seq<real>, z: seq<real>, propensity: seq<real>)
    requires |y| == |z| == |propensity| >= 2
    ensures var zero := Constant(|y|, 0.0);
            EstViaAipw(y, z, zero, zero, propensity) == EstViaIpw(y, z, propensity, false)
  {
    AipwZeroPredictions(y, z, Clip(propensity));
  }

  /** One AIPW row whose own-arm prediction is exact. */
  lemma AipwExactRow(zi: real, yi: real, m1: real, m0: real, pi: real)
    requires zi == 0.0 || zi == 1.0
    requires zi == 1.0 ==> m1 == yi
    requires zi == 0.0 ==> m0 == yi
    requires pi != 0.0 && pi != 1.0
    ensures m1 - m0 + zi * (yi - m1) / pi - (1.0 - zi) * (yi - m0) / (1.0 - pi)
            == (if zi == 1.0 then yi - m0 else m1 - yi)
  {
    if zi == 1.0 {
      assert (1.0 - zi) * (yi - m0) / (1.0 - pi) == 0.0 / (1.0 - pi);
      assert zi * (yi - m1) / pi == 0.0 / pi;
    } else {
      assert zi * (yi - m1) / pi == 0.0 / pi;
      assert (1.0 - zi) * (yi - m0) / (1.0 - pi) == 0.0 / (1.0 - pi);
    }
  }

  /** When each arm's prediction reproduces the observed outcome on that
      arm's own rows, the AIPW pseudo-outcome is the imputed effect: `Y - mu0`
      on treated rows and `mu1 - Y` on control rows, whatever the
      propensity. */
  lemma AipwExactModel(y: seq<real>, z: seq<real>, mu1: seq<real>, mu0: seq<real>, p: seq<real>)
    requires |y| == |z| == |mu1| == |mu0| == |p| && Interior(p) && Binary(z)
    requires forall i :: 0 <= i < |y| && z[i] == 1.0 ==> mu1[i] == y[i]
    requires forall i :: 0 <= i < |y| && z[i] == 0.0 ==> mu0[i] == y[i]
    ensures var g := AipwPseudoOutcome(y, z, mu1, mu0, p);
            forall i :: 0 <= i < |y| ==> g[i] == (if z[i] == 1.0 then y[i] - mu0[i] else mu1[i] - y[i])
  {
    var g := AipwPseudoOutcome(y, z, mu1, mu0, p);
    forall i | 0 <= i < |y|
      ensures g[i] == (if z[i] == 1.0 then y[i] - mu0[i] else mu1[i] - y[i])
    {
      AipwExactRow(z[i], y[i], mu1[i], mu0[i], p[i]);
    }
  }

  /** With exact own-arm predictions, any two propensities give the same
      AIPW estimate. */
  lemma AipwExactOutcomeModel(y: seq<real>, z: seq<real>, mu1: seq<real>, mu0: seq<real>,
                              p1: seq<real>, p2: seq<real>)
    requires |y| == |z| == |mu1| == |mu0| == |p1| == |p2| >= 2 && Binary(z)
    requires forall i :: 0 <= i < |y| && z[i] == 1.0 ==> mu1[i] == y[i]
    requires forall i :: 0 <= i < |y| && z[i] == 0.0 ==> mu0[i] == y[i]
    ensures EstViaAipw(y, z, mu1, mu0, p1) == EstViaAipw(y, z, mu1, mu0, p2)
  {
    AipwExactModel(y, z, mu1, mu0, Clip(p1));
    AipwExactModel(y, z, mu1, mu0, Clip(p2));
    assert AipwPseudoOutcome(y, z, mu1, mu0, Clip(p1)) == AipwPseudoOutcome(y, z, mu1, mu0, Clip(p2));
  }
}
