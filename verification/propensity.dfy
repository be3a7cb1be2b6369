/** Propensity clipping (`_fix_propensity`): entries that are exactly 0 or 1
    are nudged into the open unit interval, and the number of such entries is
    reported. */
module Propensity {
  import opened Masks

  /** The clipping constant `self.eps`. */
  const Eps: real := 0.0001

  /** An entry at which `p * (1 - p)` vanishes. */
  predicate Degenerate(p: real) {
    p * (1.0 - p) == 0.0
  }

  /** `np.sum(p * (1 - p) == 0)`. */
  function CountDegenerate(p: seq<real>): nat
    decreases |p|
  {
    if |p| == 0 then 0
    else CountDegenerate(p[..|p| - 1]) + (if Degenerate(p[|p| - 1]) then 1 else 0)
  }

  /** The clipped propensity vector and the count the warning reports. */
  datatype Fixed = Fixed(propensity: seq<real>, numBad: nat)

  /** Entry `i` after clipping, when `eps != 1`. */
  function Clipped(x: real, eps: real): real {
    if x == 0.0 then eps else if x == 1.0 then 1.0 - eps else x
  }

  /** `_fix_propensity`: when some entry is degenerate, first every entry
      equal to 0 is raised by `eps`, then every entry that now equals 1 is
      lowered by `eps`. The count is taken before either update. */
  function FixPropensity(p: seq<real>, eps: real): (r: Fixed)
    ensures |r.propensity| == |p|
    ensures r.numBad == Count(Mask(p, 0.0)) + Count(Mask(p, 1.0))
    ensures forall i :: 0 <= i < |p| && p[i] != 0.0 && p[i] != 1.0 ==> r.propensity[i] == p[i]
    ensures eps != 1.0 ==>
              forall i :: 0 <= i < |p| ==> r.propensity[i] == Clipped(p[i], eps)
    ensures eps != 0.0 && eps != 1.0 ==>
              forall i :: 0 <= i < |p| ==> r.propensity[i] != 0.0 && r.propensity[i] != 1.0
    ensures 0.0 < eps < 1.0 && (forall i :: 0 <= i < |p| ==> 0.0 <= p[i] <= 1.0) ==>
              forall i :: 0 <= i < |p| ==> 0.0 < r.propensity[i] < 1.0
  {
    CountDegenerateByValue(p);
    var numBad := CountDegenerate(p);
    if numBad > 0 then
      var raised := seq(|p|, i requires 0 <= i < |p| => if p[i] == 0.0 then p[i] + eps else p[i]);
      var lowered := seq(|p|, i requires 0 <= i < |p| => if raised[i] == 1.0 then raised[i] - eps else raised[i]);
      Fixed(lowered, numBad)
    else
      NoDegenerateEntry(p);
      Fixed(p, 0)
  }

  /** `p * (1 - p) == 0` exactly when `p` is 0 or 1. */
  lemma DegenerateIff(p: real)
    ensures Degenerate(p) <==> p == 0.0 || p == 1.0
  {
    if Degenerate(p) {
      ZeroProduct(p, 1.0 - p);
    }
  }

  lemma ZeroProduct(a: real, b: real)
    requires a * b == 0.0
    ensures a == 0.0 || b == 0.0
  {
    if a != 0.0 {
      assert b == (a * b) / a;
    }
  }

  /** The degenerate count is the number of zeros plus the number of ones. */
  lemma {:induction false} CountDegenerateByValue(p: seq<real>)
    ensures CountDegenerate(p) == Count(Mask(p, 0.0)) + Count(Mask(p, 1.0))
    decreases |p|
  {
    if |p| > 0 {
      var k := |p| - 1;
      CountDegenerateByValue(p[..k]);
      MaskPrefix(p, 0.0, k);
      MaskPrefix(p, 1.0, k);
      DegenerateIff(p[k]);
    }
  }

  /** A zero count means no entry is 0 or 1. */
  lemma {:induction false} NoDegenerateEntry(p: seq<real>)
    requires CountDegenerate(p) == 0
    ensures forall i :: 0 <= i < |p| ==> p[i] != 0.0 && p[i] != 1.0
    decreases |p|
  {
    if |p| > 0 {
      var k := |p| - 1;
      NoDegenerateEntry(p[..k]);
      DegenerateIff(p[k]);
      assert forall i :: 0 <= i < k ==> p[..k][i] == p[i];
    }
  }

  /** Clipping twice is clipping once, and the second pass reports nothing. */
  lemma FixPropensityIdempotent(p: seq<real>, eps: real)
    requires eps != 0.0 && eps != 1.0
    ensures var q := FixPropensity(p, eps).propensity;
            FixPropensity(q, eps) == Fixed(q, 0)
  {
    var q := FixPropensity(p, eps).propensity;
    CountDegenerateByValue(q);
    ZeroCountWhenAbsent(q, 0.0);
    ZeroCountWhenAbsent(q, 1.0);
  }
}
