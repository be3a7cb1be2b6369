/** Sums, means and population variances of real vectors (numpy's `np.sum`,
    `np.mean` and `np.var` with the default ddof = 0), over exact reals. */
module Stats {

  /** Sum of the entries, accumulated from the left. */
  function Sum(s: seq<real>): real
    decreases |s|
  {
    if |s| == 0 then 0.0 else Sum(s[..|s| - 1]) + s[|s| - 1]
  }

  /** Arithmetic mean; numpy returns nan on an empty vector, so callers must
      supply at least one entry. */
  function Mean(s: seq<real>): real
    requires |s| > 0
  {
    Sum(s) / (|s| as real)
  }

  /** The square of a real, never negative. */
  function Square(x: real): (r: real)
    ensures r >= 0.0
  {
    x * x
  }

  /** Squared deviations of every entry from the centre `m`. */
  function SquaredDeviations(s: seq<real>, m: real): (d: seq<real>)
    ensures |d| == |s|
    ensures forall i :: 0 <= i < |s| ==> d[i] == Square(s[i] - m)
  {
    seq(|s|, i requires 0 <= i < |s| => Square(s[i] - m))
  }

  /** Population variance (`np.var`, ddof = 0). */
  function Variance(s: seq<real>): (v: real)
    requires |s| > 0
    ensures v >= 0.0
  {
    var d := SquaredDeviations(s, Mean(s));
    SumNonnegative(d);
    Sum(d) / (|s| as real)
  }

  /** Entrywise difference `a - b`. */
  function Subtract(a: seq<real>, b: seq<real>): (d: seq<real>)
    requires |a| == |b|
    ensures |d| == |a|
    ensures forall i :: 0 <= i < |a| ==> d[i] == a[i] - b[i]
  {
    seq(|a|, i requires 0 <= i < |a| => a[i] - b[i])
  }

  /** Every entry of `s` equals `c`. */
  predicate AllEqualTo(s: seq<real>, c: real) {
    forall i :: 0 <= i < |s| ==> s[i] == c
  }

  lemma {:induction false} SumAppend(a: seq<real>, b: seq<real>)
    ensures Sum(a + b) == Sum(a) + Sum(b)
    decreases |b|
  {
    if |b| == 0 {
      assert a + b == a;
    } else {
      var b' := b[..|b| - 1];
      assert (a + b)[..|a + b| - 1] == a + b';
      SumAppend(a, b');
    }
  }

  /** Sum is linear: if r = alpha * a + beta * b pointwise, so are the sums. */
  lemma {:induction false} SumLinear(a: seq<real>, b: seq<real>, r: seq<real>, alpha: real, beta: real)
    requires |a| == |b| == |r|
    requires forall i :: 0 <= i < |r| ==> r[i] == alpha * a[i] + beta * b[i]
    ensures Sum(r) == alpha * Sum(a) + beta * Sum(b)
    decreases |r|
  {
    if |r| > 0 {
      var k := |r| - 1;
      SumLinear(a[..k], b[..k], r[..k], alpha, beta);
      assert Sum(r) == Sum(r[..k]) + r[k];
      assert alpha * (Sum(a[..k]) + a[k]) == alpha * Sum(a[..k]) + alpha * a[k];
      assert beta * (Sum(b[..k]) + b[k]) == beta * Sum(b[..k]) + beta * b[k];
    }
  }

  /** Scaling every entry by `c` scales the sum by `c`. */
  lemma SumScale(a: seq<real>, r: seq<real>, c: real)
    requires |a| == |r|
    requires forall i :: 0 <= i < |r| ==> r[i] == c * a[i]
    ensures Sum(r) == c * Sum(a)
  {
    SumLinear(a, a, r, c, 0.0);
  }

  /** Pointwise difference of sums. */
  lemma SumDifference(a: seq<real>, b: seq<real>, r: seq<real>)
    requires |a| == |b| == |r|
    requires forall i :: 0 <= i < |r| ==> r[i] == a[i] - b[i]
    ensures Sum(r) == Sum(a) - Sum(b)
  {
    assert forall i :: 0 <= i < |r| ==> r[i] == 1.0 * a[i] + -1.0 * b[i];
    SumLinear(a, b, r, 1.0, -1.0);
  }

  /** Pointwise sum of sums. */
  lemma {:induction false} SumAdd(a: seq<real>, b: seq<real>, r: seq<real>)
    requires |a| == |b| == |r|
    requires forall i :: 0 <= i < |r| ==> r[i] == a[i] + b[i]
    ensures Sum(r) == Sum(a) + Sum(b)
    decreases |r|
  {
    if |r| > 0 {
      var k := |r| - 1;
      SumAdd(a[..k], b[..k], r[..k]);
    }
  }

  lemma {:induction false} SumNonnegative(s: seq<real>)
    requires forall i :: 0 <= i < |s| ==> s[i] >= 0.0
    ensures Sum(s) >= 0.0
    decreases |s|
  {
    if |s| > 0 {
      SumNonnegative(s[..|s| - 1]);
    }
  }

  /** A vector of `|s|` copies of `c` sums to `|s| * c`. */
  lemma {:induction false} SumOfConstant(s: seq<real>, c: real)
    requires AllEqualTo(s, c)
    ensures Sum(s) == (|s| as real) * c
    decreases |s|
  {
    if |s| > 0 {
      var k := |s| - 1;
      assert AllEqualTo(s[..k], c);
      SumOfConstant(s[..k], c);
    }
  }

  /** Only a non-empty vector can have a non-zero sum. */
  lemma NonzeroSumNonempty(s: seq<real>)
    requires Sum(s) != 0.0
    ensures |s| > 0
  {
  }

  lemma MeanOfConstant(s: seq<real>, c: real)
    requires |s| > 0
    requires AllEqualTo(s, c)
    ensures Mean(s) == c
  {
    SumOfConstant(s, c);
  }

  /** A vector of identical entries has no spread. */
  lemma VarianceOfConstant(s: seq<real>, c: real)
    requires |s| > 0
    requires AllEqualTo(s, c)
    ensures Variance(s) == 0.0
  {
    MeanOfConstant(s, c);
    var d := SquaredDeviations(s, c);
    assert AllEqualTo(d, 0.0);
    SumOfConstant(d, 0.0);
  }

  /** A product of two non-zero reals is non-zero. */
  lemma NonzeroProduct(a: real, b: real)
    requires a != 0.0 && b != 0.0
    ensures a * b != 0.0
  {
    assert (a * b) / b == a;
  }

  /** A single 1 at position `p` sums to 1. */
  lemma {:induction false} SumOfUnit(u: seq<real>, p: nat)
    requires p < |u|
    requires forall i :: 0 <= i < |u| ==> (i == p ==> u[i] == 1.0) && (i != p ==> u[i] == 0.0)
    ensures Sum(u) == 1.0
    decreases |u|
  {
    var k := |u| - 1;
    if k == p {
      assert AllEqualTo(u[..k], 0.0);
      SumOfConstant(u[..k], 0.0);
    } else {
      SumOfUnit(u[..k], p);
    }
  }

  /** Adding one at a single position adds one to the sum. */
  lemma AddOneAt(before: seq<real>, after: seq<real>, p: nat)
    requires |before| == |after| && p < |after|
    requires forall q :: 0 <= q < |after| ==> after[q] == before[q] + (if q == p then 1.0 else 0.0)
    ensures Sum(after) == Sum(before) + 1.0
  {
    var u := seq(|after|, q requires 0 <= q < |after| => if q == p then 1.0 else 0.0);
    SumOfUnit(u, p);
    SumAdd(before, u, after);
  }

  /** A product of non-negative reals is non-negative. */
  lemma NonnegativeProduct(a: real, b: real)
    ensures a >= 0.0 && b >= 0.0 ==> a * b >= 0.0
  {
  }

  /** A non-negative value over a positive count is non-negative. */
  lemma NonnegativeRatio(a: real, b: real)
    ensures a >= 0.0 && b > 0.0 ==> a / b >= 0.0
  {
  }

  /** Only zero squares to zero. */
  lemma SquareZero(x: real)
    ensures x * x == 0.0 <==> x == 0.0
  {
    if x != 0.0 {
      assert (x * x) / x == x;
    }
  }
}
