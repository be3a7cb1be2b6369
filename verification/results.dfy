/** The result builder shared by every estimator, and the influence-function
    estimate used by the weighting estimators. The square root and the normal
    CDF are not modelled: estimators return the squared standard error, and
    the CDF is a parameter. */
module Results {
  import opened Wrappers
  import opened Stats

  /** Two-sided 95% normal critical value of the confidence interval. */
  const Critical: real := 1.96

  /** An estimator's output: the point estimate and its squared standard
      error (`se ** 2`). */
  datatype Estimate = Estimate(ate: real, variance: real)

  /** The inference record. `z` is `None` where the standard error is zero,
      so that numpy's `ate / se` is infinite (or nan when `ate` is zero too).
      `pValue` is `None` exactly when `z` is; the value numpy gives there (0
      or 2 for an infinite `z`, nan otherwise) is not represented. */
  datatype EstimationResult = EstimationResult(
    ate: real, se: real, z: Option<real>, pValue: Option<real>,
    ciLow: real, ciHigh: real)

  /** `_get_results(ate, se)`: z-statistic, two-sided p-value
      `(1 - cdf(z)) * 2` and the interval `ate -+ 1.96 se`. */
  function GetResults(ate: real, se: real, cdf: real -> real): (r: EstimationResult)
    ensures r.ate == ate && r.se == se
    ensures r.z.Some? <==> se != 0.0
    ensures r.z.Some? ==> r.z.value * se == ate
    ensures r.pValue.Some? <==> r.z.Some?
    ensures r.ate - r.ciLow == r.ciHigh - r.ate == Critical * se
    ensures r.ciLow <= r.ate <= r.ciHigh <==> se >= 0.0
  {
    var z := if se == 0.0 then None else Some(ate / se);
    var p := if z.Some? then Some((1.0 - cdf(z.value)) * 2.0) else None;
    EstimationResult(ate, se, z, p, ate - Critical * se, ate + Critical * se)
  }

  /** The record built from an estimate and its standard error `se`, the
      non-negative square root of the estimate's variance: the interval
      always contains the point estimate. */
  function Report(e: Estimate, se: real, cdf: real -> real): (r: EstimationResult)
    requires se >= 0.0 && se * se == e.variance
    ensures r.ate == e.ate
    ensures r.ciLow <= e.ate <= r.ciHigh
    ensures r.ciHigh - r.ciLow == 2.0 * Critical * se
    ensures r.z.None? ==> e.variance == 0.0
  {
    GetResults(e.ate, se, cdf)
  }

  /** Mean of the influence values and their population variance over
      `n - 1`: `ate = mean(G)`, `se = sqrt(var(G) / (len(G) - 1))`. */
  function InfluenceEstimate(g: seq<real>): (e: Estimate)
    requires |g| >= 2
    ensures e.variance >= 0.0
    ensures e.ate * (|g| as real) == Sum(g)
  {
    Estimate(Mean(g), Variance(g) / ((|g| - 1) as real))
  }

  /** Shifting every influence value by `c` shifts the estimate by `c` and
      leaves its variance unchanged. */
  lemma InfluenceEstimateShift(g: seq<real>, c: real)
    requires |g| >= 2
    ensures var h := seq(|g|, i requires 0 <= i < |g| => g[i] + c);
            InfluenceEstimate(h).ate == InfluenceEstimate(g).ate + c
            && InfluenceEstimate(h).variance == InfluenceEstimate(g).variance
  {
    var h := seq(|g|, i requires 0 <= i < |g| => g[i] + c);
    var cs := seq(|g|, i requires 0 <= i < |g| => c);
    assert AllEqualTo(cs, c);
    SumOfConstant(cs, c);
    SumAdd(g, cs, h);
    var n := |g| as real;
    assert Sum(h) == Sum(g) + n * c;
    assert Mean(h) == Sum(h) / n;
    assert (Sum(g) + n * c) / n == Sum(g) / n + c;
    assert Mean(h) == Mean(g) + c;
    assert SquaredDeviations(h, Mean(h)) == SquaredDeviations(g, Mean(g)) by {
      forall i | 0 <= i < |g|
        ensures h[i] - Mean(h) == g[i] - Mean(g)
      {
      }
    }
  }

  /** Identical influence values give that value as the estimate, with zero
      variance. */
  lemma InfluenceEstimateOfConstant(g: seq<real>, c: real)
    requires |g| >= 2 && AllEqualTo(g, c)
    ensures InfluenceEstimate(g) == Estimate(c, 0.0)
  {
    MeanOfConstant(g, c);
    var d := SquaredDeviations(g, c);
    assert AllEqualTo(d, 0.0);
    SumOfConstant(d, 0.0);
  }
}
