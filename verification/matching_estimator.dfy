/** The matching estimator `est_via_matching`: imputation of the missing
    potential outcome from matched donors, the ATE as the size-weighted mean
    of the two arms' effects, the optional regression bias correction, the
    donor-use counts `Km` and the nonparametric variance. The matches are
    produced by the neighbour search in module `Matching`; the regression
    predictions are inputs. */
module MatchingEstimator {
  import opened Wrappers
  import opened Stats
  import opened PoData
  import opened Results
  import opened Matching
  import opened Masks

  // ---------------------------------------------------------------------
  // Imputation

  /** Every row of `matches` lists `m` distinct positions below `n`: the
      shape of `mat_match_mat(X, Y, m)` when `Y` has `n` rows. */
  predicate MatchShape(matches: seq<seq<nat>>, m: nat, n: nat) {
    forall i :: 0 <= i < |matches| ==>
      |matches[i]| == m && InRange(matches[i], n) && Distinct(matches[i])
  }

  /** A nearest-neighbour match table has the shape the estimator expects. */
  lemma MatchedShape(matches: seq<seq<nat>>, queries: seq<Row>, donors: seq<Row>, m: nat)
    requires Matched(matches, queries, donors, m)
    ensures |matches| == |queries| && MatchShape(matches, m, |donors|)
  {
    forall i | 0 <= i < |matches|
      ensures |matches[i]| == m && InRange(matches[i], |donors|) && Distinct(matches[i])
    {
      assert IsNearest(matches[i], DistArrMat(queries[i], donors), m);
    }
  }

  /** Fancy indexing `y[idx]`. */
  function Gather(y: seq<real>, idx: seq<nat>): (g: seq<real>)
    requires InRange(idx, |y|)
    ensures |g| == |idx|
    ensures forall k :: 0 <= k < |idx| ==> g[k] == y[idx[k]]
  {
    seq(|idx|, k requires 0 <= k < |idx| => y[idx[k]])
  }

  /** `np.mean(y[matches], axis=1)`: each query row's outcome imputed as the
      mean outcome of its `m` donors. */
  function Impute(y: seq<real>, matches: seq<seq<nat>>, m: nat): (yhat: seq<real>)
    requires m > 0 && MatchShape(matches, m, |y|)
    ensures |yhat| == |matches|
  {
    seq(|matches|, i requires 0 <= i < |matches| => Mean(Gather(y, matches[i])))
  }

  /** A sum of entries that all lie in `[lo, hi]` lies between `|s| lo` and
      `|s| hi`. */
  lemma {:induction false} SumBetween(s: seq<real>, lo: real, hi: real)
    requires forall k :: 0 <= k < |s| ==> lo <= s[k] <= hi
    ensures (|s| as real) * lo <= Sum(s) <= (|s| as real) * hi
    decreases |s|
  {
    if |s| > 0 {
      var k := |s| - 1;
      SumBetween(s[..k], lo, hi);
      assert (k as real) * lo + lo == (|s| as real) * lo;
      assert (k as real) * hi + hi == (|s| as real) * hi;
    }
  }

  /** Dividing bounds on a total by a positive count bounds the mean. */
  lemma MeanBetweenScalar(total: real, c: real, lo: real, hi: real)
    requires c > 0.0 && c * lo <= total <= c * hi
    ensures lo <= total / c <= hi
  {
    assert (c * lo) / c == lo;
    assert (c * hi) / c == hi;
  }

  /** Every imputed value lies within the range of the donors' outcomes:
      imputation never extrapolates. */
  lemma ImputeWithinRange(y: seq<real>, matches: seq<seq<nat>>, m: nat, lo: real, hi: real)
    requires m > 0 && MatchShape(matches, m, |y|)
    requires forall j :: 0 <= j < |y| ==> lo <= y[j] <= hi
    ensures forall i :: 0 <= i < |matches| ==> lo <= Impute(y, matches, m)[i] <= hi
  {
    forall i | 0 <= i < |matches|
      ensures lo <= Impute(y, matches, m)[i] <= hi
    {
      var g := Gather(y, matches[i]);
      SumBetween(g, lo, hi);
      MeanBetweenScalar(Sum(g), |g| as real, lo, hi);
    }
  }

  /** When every donor has outcome `c`, every imputed outcome is `c`. */
  lemma ImputeOfConstant(y: seq<real>, matches: seq<seq<nat>>, m: nat, c: real)
    requires m > 0 && MatchShape(matches, m, |y|)
    requires AllEqualTo(y, c)
    ensures AllEqualTo(Impute(y, matches, m), c)
  {
    ImputeWithinRange(y, matches, m, c, c);
  }

  // ---------------------------------------------------------------------
  // Point estimate

  /** The two arms' outcomes and their match tables: `forT` matches each
      treated row to `m` control rows, `forC` each control row to `m`
      treated rows. */
  predicate ArmsMatched(yt: seq<real>, yc: seq<real>, forT: seq<seq<nat>>, forC: seq<seq<nat>>, m: nat) {
    && |yt| > 0 && |yc| > 0 && m > 0
    && |forT| == |yt| && MatchShape(forT, m, |yc|)
    && |forC| == |yc| && MatchShape(forC, m, |yt|)
  }

  /** `Yhat1 = append(Yt, Yhat_c)`: the treated potential outcome of every
      unit, observed for the treated and imputed for the controls. */
  function TreatedOutcomes(yt: seq<real>, yc: seq<real>, forT: seq<seq<nat>>, forC: seq<seq<nat>>, m: nat): (y1: seq<real>)
    requires ArmsMatched(yt, yc, forT, forC, m)
    ensures |y1| == |yt| + |yc| && y1[..|yt|] == yt
  {
    yt + Impute(yt, forC, m)
  }

  /** `Yhat0 = append(Yhat_t, Yc)`: the control potential outcome of every
      unit, imputed for the treated and observed for the controls. */
  function ControlOutcomes(yt: seq<real>, yc: seq<real>, forT: seq<seq<nat>>, forC: seq<seq<nat>>, m: nat): (y0: seq<real>)
    requires ArmsMatched(yt, yc, forT, forC, m)
    ensures |y0| == |yt| + |yc| && y0[|yt|..] == yc
  {
    Impute(yc, forT, m) + yc
  }

  /** `ate = (nc/n) atc + (nt/n) att`, with `att = mean(Yt - Yhat_t)` and
      `atc = mean(Yhat_c - Yc)`, before any bias correction. */
  function MatchingAte(yt: seq<real>, yc: seq<real>, forT: seq<seq<nat>>, forC: seq<seq<nat>>, m: nat): real
    requires ArmsMatched(yt, yc, forT, forC, m)
  {
    var ittT := Subtract(yt, Impute(yc, forT, m));
    var ittC := Subtract(Impute(yt, forC, m), yc);
    ShareWeighted(Mean(ittT), Mean(ittC), |yt| as real, |yc| as real)
  }

  /** `(nc/n) atc + (nt/n) att` with `n = nt + nc`. */
  function ShareWeighted(att: real, atc: real, nt: real, nc: real): real
    requires nt > 0.0 && nc > 0.0
  {
    (nc / (nt + nc)) * atc + (nt / (nt + nc)) * att
  }

  /** Weighting each arm's mean by its share of the sample gives the mean
      of the pooled values. */
  lemma WeightedMeans(att: real, atc: real, sa: real, sb: real, na: real, nb: real)
    requires na > 0.0 && nb > 0.0
    requires att == sa / na && atc == sb / nb
    ensures ShareWeighted(att, atc, na, nb) == (sa + sb) / (na + nb)
  {
    var n := na + nb;
    assert (nb / n) * (sb / nb) == sb / n;
    assert (na / n) * (sa / na) == sa / n;
  }

  /** Entrywise difference distributes over concatenation. */
  lemma SubtractAppend(a: seq<real>, b: seq<real>, c: seq<real>, d: seq<real>)
    requires |a| == |c| && |b| == |d|
    ensures Subtract(a + b, c + d) == Subtract(a, c) + Subtract(b, d)
  {
  }

  /** The matching ATE is the average, over all `n` units, of the imputed
      individual effects `Yhat1 - Yhat0`. */
  lemma MatchingAteIsMeanOfEffects(yt: seq<real>, yc: seq<real>, forT: seq<seq<nat>>, forC: seq<seq<nat>>, m: nat)
    requires ArmsMatched(yt, yc, forT, forC, m)
    ensures MatchingAte(yt, yc, forT, forC, m)
            == Mean(Subtract(TreatedOutcomes(yt, yc, forT, forC, m), ControlOutcomes(yt, yc, forT, forC, m)))
  {
    var yhatT, yhatC := Impute(yc, forT, m), Impute(yt, forC, m);
    var ittT, ittC := Subtract(yt, yhatT), Subtract(yhatC, yc);
    SubtractAppend(yt, yhatC, yhatT, yc);
    PooledMean(ittT, ittC, |yt| as real, |yc| as real);
  }

  /** The share-weighted mean of two arms is the mean of the arms
      together. */
  lemma PooledMean(a: seq<real>, b: seq<real>, na: real, nb: real)
    requires |a| > 0 && |b| > 0 && |a| as real == na && |b| as real == nb
    ensures ShareWeighted(Mean(a), Mean(b), na, nb) == Mean(a + b)
  {
    SumAppend(a, b);
    WeightedMeans(Mean(a), Mean(b), Sum(a), Sum(b), na, nb);
    MeanFromTotals(a + b, Sum(a) + Sum(b), na + nb);
  }

  /** The mean is the total over the count, however the two are
      obtained. */
  lemma MeanFromTotals(s: seq<real>, total: real, count: real)
    requires |s| > 0 && Sum(s) == total && |s| as real == count
    ensures Mean(s) == total / count
  {
  }

  /** A constant share split between the arms adds back up to the whole. */
  lemma SharesOfConstant(d: real, nt: real, nc: real)
    requires nt > 0.0 && nc > 0.0
    ensures ShareWeighted(d, d, nt, nc) == d
  {
    var n := nt + nc;
    assert (nc / n) * d + (nt / n) * d == ((nc + nt) / n) * d;
    assert (nc + nt) / n == 1.0;
  }

  /** When every treated outcome is `a` and every control outcome is `b`,
      the matching ATE is `a - b`, whatever the matches. */
  lemma MatchingAteOfConstantOutcomes(yt: seq<real>, yc: seq<real>, forT: seq<seq<nat>>, forC: seq<seq<nat>>, m: nat, a: real, b: real)
    requires ArmsMatched(yt, yc, forT, forC, m)
    requires AllEqualTo(yt, a) && AllEqualTo(yc, b)
    ensures MatchingAte(yt, yc, forT, forC, m) == a - b
  {
    var yhatT, yhatC := Impute(yc, forT, m), Impute(yt, forC, m);
    ImputeOfConstant(yc, forT, m, b);
    ImputeOfConstant(yt, forC, m, a);
    var ittT, ittC := Subtract(yt, yhatT), Subtract(yhatC, yc);
    assert AllEqualTo(ittT, a - b);
    assert AllEqualTo(ittC, a - b);
    ConstantArms(ittT, ittC, a - b, |yt| as real, |yc| as real);
  }

  /** Two arms whose values all equal `d` have share-weighted mean `d`. */
  lemma ConstantArms(s: seq<real>, t: seq<real>, d: real, ns: real, nt: real)
    requires |s| > 0 && |t| > 0 && |s| as real == ns && |t| as real == nt
    requires AllEqualTo(s, d) && AllEqualTo(t, d)
    ensures ShareWeighted(Mean(s), Mean(t), ns, nt) == d
  {
    MeanOfConstant(s, d);
    MeanOfConstant(t, d);
    SharesOfConstant(d, ns, nt);
  }

  // ---------------------------------------------------------------------
  // Bias correction

  /** Regression predictions for the bias correction: `mu0` fitted on the
      controls and `mu1` on the treated, each evaluated on both arms. */
  datatype Predictions = Predictions(mu0t: seq<real>, mu0c: seq<real>, mu1t: seq<real>, mu1c: seq<real>)

  /** Each prediction vector has one entry per row of the arm it is
      evaluated on. */
  predicate PredictionsFit(p: Predictions, nt: nat, nc: nat) {
    |p.mu0t| == nt && |p.mu1t| == nt && |p.mu0c| == nc && |p.mu1c| == nc
  }

  /** `BM = sum(mu0_t - mean(mu0_c[match_for_t])) / n
           - sum(mu1_c - mean(mu1_t[match_for_c])) / n`. */
  function BiasCorrection(p: Predictions, forT: seq<seq<nat>>, forC: seq<seq<nat>>, m: nat): real
    requires PredictionsFit(p, |forT|, |forC|) && |forT| + |forC| > 0
    requires m > 0 && MatchShape(forT, m, |forC|) && MatchShape(forC, m, |forT|)
  {
    var n := (|forT| + |forC|) as real;
    Sum(Subtract(p.mu0t, Impute(p.mu0c, forT, m))) / n
      - Sum(Subtract(p.mu1c, Impute(p.mu1t, forC, m))) / n
  }

  /** Regression models that predict one constant per arm model cause no
      bias correction. */
  lemma BiasCorrectionOfConstantModels(p: Predictions, forT: seq<seq<nat>>, forC: seq<seq<nat>>, m: nat, a: real, b: real)
    requires PredictionsFit(p, |forT|, |forC|) && |forT| + |forC| > 0
    requires m > 0 && MatchShape(forT, m, |forC|) && MatchShape(forC, m, |forT|)
    requires AllEqualTo(p.mu0t, a) && AllEqualTo(p.mu0c, a)
    requires AllEqualTo(p.mu1t, b) && AllEqualTo(p.mu1c, b)
    ensures BiasCorrection(p, forT, forC, m) == 0.0
  {
    ImputeOfConstant(p.mu0c, forT, m, a);
    ImputeOfConstant(p.mu1t, forC, m, b);
    var d0 := Subtract(p.mu0t, Impute(p.mu0c, forT, m));
    var d1 := Subtract(p.mu1c, Impute(p.mu1t, forC, m));
    assert AllEqualTo(d0, 0.0);
    assert AllEqualTo(d1, 0.0);
    SumOfConstant(d0, 0.0);
    SumOfConstant(d1, 0.0);
  }

  // ---------------------------------------------------------------------
  // Donor use

  /** Number of match rows that name donor `j`. */
  function Uses(matches: seq<seq<nat>>, j: nat): nat
    decreases |matches|
  {
    if |matches| == 0 then 0
    else Uses(matches[..|matches| - 1], j) + (if j in matches[|matches| - 1] then 1 else 0)
  }

  /** `Km`: how often each unit serves as a donor, treated units first
      (matched by controls), then control units (matched by the treated). */
  function DonorUse(forT: seq<seq<nat>>, forC: seq<seq<nat>>): (km: seq<real>)
    ensures |km| == |forT| + |forC|
    ensures forall i :: 0 <= i < |km| ==> km[i] >= 0.0
  {
    seq(|forT| + |forC|, i requires 0 <= i < |forT| + |forC| => UseCount(forT, forC, i) as real)
  }

  /** Entry `i` of `DonorUse`. */
  function UseCount(forT: seq<seq<nat>>, forC: seq<seq<nat>>, i: nat): nat {
    if i < |forT| then Uses(forC, i) else Uses(forT, i - |forT|)
  }

  /** numpy's `km[offset + row] += 1`: every position the row names is
      incremented once. */
  function Bump(km: seq<real>, row: seq<nat>, offset: nat): (r: seq<real>)
    ensures |r| == |km|
  {
    seq(|km|, i requires 0 <= i < |km| =>
      if i >= offset && i - offset in row then km[i] + 1.0 else km[i])
  }

  /** The 0/1 indicator, over `len` positions, of the positions
      `offset + row[k]`. */
  function Indicator(row: seq<nat>, offset: nat, len: nat): (ind: seq<real>)
    ensures |ind| == len
  {
    seq(len, i requires 0 <= i < len => if i >= offset && i - offset in row then 1.0 else 0.0)
  }

  /** A row of distinct in-range positions marks exactly `|row|` of them. */
  lemma {:induction false} SumOfIndicatorRow(row: seq<nat>, offset: nat, len: nat)
    requires Distinct(row)
    requires forall k :: 0 <= k < |row| ==> offset + row[k] < len
    ensures Sum(Indicator(row, offset, len)) == |row| as real
    decreases |row|
  {
    if |row| == 0 {
      assert AllEqualTo(Indicator(row, offset, len), 0.0);
      SumOfConstant(Indicator(row, offset, len), 0.0);
    } else {
      var k := |row| - 1;
      var front := row[..k];
      var p := offset + row[k];
      assert Distinct(front);
      SumOfIndicatorRow(front, offset, len);
      var u := seq(len, i requires 0 <= i < len => if i == p then 1.0 else 0.0);
      SumOfUnit(u, p);
      forall i | 0 <= i < len
        ensures Indicator(row, offset, len)[i] == Indicator(front, offset, len)[i] + u[i]
      {
        assert row == front + [row[k]];
        if i == p {
          assert i - offset == row[k];
          assert row[k] !in front by {
            forall a | 0 <= a < k
              ensures front[a] != row[k]
            {
            }
          }
        }
      }
      SumAdd(Indicator(front, offset, len), u, Indicator(row, offset, len));
    }
  }

  /** Incrementing at a row of distinct in-range positions adds `|row|` to
      the total. */
  lemma SumBump(km: seq<real>, row: seq<nat>, offset: nat)
    requires Distinct(row)
    requires forall k :: 0 <= k < |row| ==> offset + row[k] < |km|
    ensures Sum(Bump(km, row, offset)) == Sum(km) + |row| as real
  {
    SumOfIndicatorRow(row, offset, |km|);
    SumAdd(km, Indicator(row, offset, |km|), Bump(km, row, offset));
  }

  /** One tally loop, `for row in rows: km[row + offset] += 1`: the
      positions `offset .. offset + width` gain one count per row naming
      them, the others are untouched, and the total grows by `m` per row. */
  method AddRows(km: seq<real>, rows: seq<seq<nat>>, offset: nat, width: nat, m: nat) returns (r: seq<real>)
    requires MatchShape(rows, m, width) && offset + width <= |km|
    ensures |r| == |km|
    ensures forall i :: 0 <= i < |km| && offset <= i < offset + width ==> r[i] == km[i] + Uses(rows, i - offset) as real
    ensures forall i :: 0 <= i < |km| && !(offset <= i < offset + width) ==> r[i] == km[i]
    ensures Sum(r) == Sum(km) + (m * |rows|) as real
  {
    r := km;
    var k := 0;
    forall j | 0 <= j < width
      ensures Uses(rows[..0], j) == 0
    {
      assert rows[..0] == [];
    }
    while k < |rows|
      invariant 0 <= k <= |rows| && |r| == |km|
      invariant forall i :: 0 <= i < |km| && offset <= i < offset + width ==> r[i] == km[i] + Uses(rows[..k], i - offset) as real
      invariant forall i :: 0 <= i < |km| && !(offset <= i < offset + width) ==> r[i] == km[i]
      invariant Sum(r) == Sum(km) + (m * k) as real
    {
      SumBump(r, rows[k], offset);
      r := Bump(r, rows[k], offset);
      assert rows[..k + 1][..k] == rows[..k];
      assert m * (k + 1) == m * k + m;
      k := k + 1;
    }
    assert rows[..k] == rows;
  }

  /** The tally loops of `est_via_matching`: first the control rows'
      donors (treated positions), then the treated rows' donors (control
      positions, shifted by `nt`). Every one of the `m` matches of each of
      the `n` units is counted once. */
  method TallyDonorUse(forT: seq<seq<nat>>, forC: seq<seq<nat>>, m: nat) returns (km: seq<real>)
    requires MatchShape(forT, m, |forC|) && MatchShape(forC, m, |forT|)
    ensures km == DonorUse(forT, forC)
    ensures Sum(km) == (m * (|forT| + |forC|)) as real
  {
    var nt, nc := |forT|, |forC|;
    var zeros := seq(nt + nc, i requires 0 <= i < nt + nc => 0.0);
    assert AllEqualTo(zeros, 0.0);
    SumOfConstant(zeros, 0.0);
    var half := AddRows(zeros, forC, 0, nt, m);
    km := AddRows(half, forT, nt, nc, m);
    var use := DonorUse(forT, forC);
    forall i | 0 <= i < nt + nc
      ensures km[i] == use[i]
    {
      assert use[i] == UseCount(forT, forC, i) as real;
    }
    Distribute(m, nc, nt);
  }

  lemma Distribute(m: nat, a: nat, b: nat)
    ensures m * a + m * b == m * (b + a)
  {
  }

  // ---------------------------------------------------------------------
  // Variance

  /** `sigmaXW = (J+1)/J (Y - Y_close)^2`: each unit's conditional variance,
      estimated from its `J` nearest same-arm neighbours. It vanishes
      exactly where the close-match average reproduces the outcome. */
  function ConditionalVariance(y: seq<real>, yclose: seq<real>, j: nat): (s: seq<real>)
    requires |y| == |yclose| && j > 0
    ensures |s| == |y|
    ensures forall i :: 0 <= i < |y| ==> s[i] >= 0.0 && (s[i] == 0.0 <==> y[i] == yclose[i])
  {
    var f := ((j + 1) as real) / (j as real);
    seq(|y|, i requires 0 <= i < |y| => ScaledSquare(f, y[i] - yclose[i]))
  }

  /** `f * x^2` for a positive `f`: never negative, and zero only at
      `x == 0`. */
  function ScaledSquare(f: real, x: real): (r: real)
    requires f > 0.0
    ensures r >= 0.0 && (r == 0.0 <==> x == 0.0)
  {
    SquareZero(x);
    PositiveScale(f, Square(x));
    f * Square(x)
  }

  /** A positive factor keeps the sign of a non-negative value, and zero
      stays the only zero. */
  lemma PositiveScale(f: real, s: real)
    ensures f > 0.0 && s >= 0.0 ==> f * s >= 0.0 && (f * s == 0.0 <==> s == 0.0)
  {
    if f > 0.0 && s > 0.0 {
      assert (f * s) / f == s;
    }
  }

  /** `(Km/M)^2 + (2M-1)/M * Km/M`: the weight of a unit's conditional
      variance, growing with how often it was used as a donor. */
  function DonorWeight(k: real, m: nat): (w: real)
    requires m > 0
    ensures k >= 0.0 ==> w >= 0.0
    ensures k == 0.0 ==> w == 0.0
  {
    var mm := m as real;
    NonnegativeTerm(k, mm);
    Square(k / mm) + (2.0 * mm - 1.0) / mm * k / mm
  }

  /** The linear term of `DonorWeight` is non-negative. */
  lemma NonnegativeTerm(k: real, mm: real)
    ensures k >= 0.0 && mm >= 1.0 ==> (2.0 * mm - 1.0) / mm * k / mm >= 0.0
  {
    if k >= 0.0 && mm >= 1.0 {
      var c := (2.0 * mm - 1.0) / mm;
      assert c >= 0.0;
      assert c * k >= 0.0;
    }
  }

  /** All four match tables: `forT`/`forC` across arms with `m` donors,
      `withinT`/`withinC` inside each arm with `j + 1` donors. */
  datatype Matches = Matches(forT: seq<seq<nat>>, forC: seq<seq<nat>>,
                             withinT: seq<seq<nat>>, withinC: seq<seq<nat>>)

  /** The match tables fit arms of `nt` and `nc` units. */
  predicate MatchesFit(mt: Matches, nt: nat, nc: nat, m: nat, j: nat) {
    && |mt.forT| == nt && MatchShape(mt.forT, m, nc)
    && |mt.forC| == nc && MatchShape(mt.forC, m, nt)
    && |mt.withinT| == nt && MatchShape(mt.withinT, j + 1, nt)
    && |mt.withinC| == nc && MatchShape(mt.withinC, j + 1, nc)
  }

  /** Everything `MatchingEstimate` needs of its arguments. */
  predicate Estimable(yt: seq<real>, yc: seq<real>, mt: Matches, m: nat, j: nat) {
    ArmsMatched(yt, yc, mt.forT, mt.forC, m) && j > 0 && MatchesFit(mt, |yt|, |yc|, m, j)
  }

  /** `V = mean(V1 + V2)`: `V1` the squared deviation of each imputed
      effect from the ATE, `V2` the donor-weighted conditional variance. */
  function VarianceTerms(effects: seq<real>, ate: real, km: seq<real>, sigma: seq<real>, m: nat): (v: seq<real>)
    requires |km| == |effects| && |sigma| == |effects| && m > 0
    requires forall i :: 0 <= i < |km| ==> km[i] >= 0.0
    requires forall i :: 0 <= i < |sigma| ==> sigma[i] >= 0.0
    ensures |v| == |effects|
    ensures forall i :: 0 <= i < |v| ==> v[i] >= Square(effects[i] - ate)
  {
    seq(|effects|, i requires 0 <= i < |effects| =>
      var w := DonorWeight(km[i], m);
      NonnegativeProduct(w, sigma[i]);
      Square(effects[i] - ate) + w * sigma[i])
  }

  /** `est_via_matching` on given match tables: the average imputed
      effect, less the bias correction when predictions are supplied, and
      `se^2 = V / n`. */
  function MatchingEstimate(yt: seq<real>, yc: seq<real>, mt: Matches, m: nat, j: nat, adj: Option<Predictions>): (e: Estimate)
    requires Estimable(yt, yc, mt, m, j)
    requires adj.Some? ==> PredictionsFit(adj.value, |yt|, |yc|)
    ensures e.ate == Mean(Subtract(TreatedOutcomes(yt, yc, mt.forT, mt.forC, m), ControlOutcomes(yt, yc, mt.forT, mt.forC, m)))
                     - (if adj.Some? then BiasCorrection(adj.value, mt.forT, mt.forC, m) else 0.0)
    ensures e.variance >= 0.0
  {
    MatchingAteIsMeanOfEffects(yt, yc, mt.forT, mt.forC, m);
    var ate0 := MatchingAte(yt, yc, mt.forT, mt.forC, m);
    var ate := if adj.Some? then ate0 - BiasCorrection(adj.value, mt.forT, mt.forC, m) else ate0;
    Estimate(ate, MatchingVariance(yt, yc, mt, m, j, ate))
  }

  /** `V / n` with `V = mean(V1 + V2)`: the squared standard error. */
  function MatchingVariance(yt: seq<real>, yc: seq<real>, mt: Matches, m: nat, j: nat, ate: real): (var2: real)
    requires Estimable(yt, yc, mt, m, j)
    ensures var2 >= 0.0
  {
    var km := DonorUse(mt.forT, mt.forC);
    var yclose := Impute(yt, mt.withinT, j + 1) + Impute(yc, mt.withinC, j + 1);
    var sigma := ConditionalVariance(yt + yc, yclose, j);
    var effects := Subtract(TreatedOutcomes(yt, yc, mt.forT, mt.forC, m), ControlOutcomes(yt, yc, mt.forT, mt.forC, m));
    var v := VarianceTerms(effects, ate, km, sigma, m);
    NonnegativeMeanOverCount(v, (|yt| + |yc|) as real);
    Mean(v) / ((|yt| + |yc|) as real)
  }

  /** The mean of non-negative values, over a positive count, is
      non-negative. */
  lemma NonnegativeMeanOverCount(v: seq<real>, n: real)
    requires |v| > 0 && n > 0.0
    requires forall i :: 0 <= i < |v| ==> v[i] >= 0.0
    ensures Mean(v) / n >= 0.0
  {
    SumNonnegative(v);
    NonnegativeRatio(Sum(v), |v| as real);
    NonnegativeRatio(Mean(v), n);
  }


  // ---------------------------------------------------------------------
  // The estimator

  /** The exceptions `est_via_matching` raises. */
  datatype MatchError =
    | KthOutOfBounds   // `argpartition` asked for more neighbours than there are donors
    | NotAnIndex       // both arms empty: the searches return a float-typed empty array, and indexing `Yt` with it fails
    | DivisionByZero   // `J == 0` in `(J+1)/J`, or `M == 0` in `(2*M-1)/M`

  /** Both arms' covariate rows have `d` columns. */
  predicate Covariates(xt: seq<Row>, xc: seq<Row>, d: nat) {
    SameWidth(xt, d) && SameWidth(xc, d)
  }

  /** Every query row has the donors' width. */
  lemma CovariatesMatchable(queries: seq<Row>, donors: seq<Row>, d: nat)
    requires SameWidth(queries, d) && SameWidth(donors, d)
    ensures forall i :: 0 <= i < |queries| ==> SameWidth(donors, |queries[i]|)
  {
  }

  /** The four searches of `est_via_matching`: across arms with `m`
      donors, within each arm with `j + 1`. */
  predicate AllMatched(mt: Matches, xt: seq<Row>, xc: seq<Row>, m: nat, j: nat) {
    && Matched(mt.forT, xt, xc, m) && Matched(mt.forC, xc, xt, m)
    && Matched(mt.withinT, xt, xt, j + 1) && Matched(mt.withinC, xc, xc, j + 1)
  }

  /** Nearest-neighbour tables have the shapes the estimate expects. */
  lemma AllMatchedFit(mt: Matches, xt: seq<Row>, xc: seq<Row>, yt: seq<real>, yc: seq<real>, m: nat, j: nat)
    requires AllMatched(mt, xt, xc, m, j)
    requires |xt| == |yt| > 0 && |xc| == |yc| > 0 && m > 0 && j > 0
    ensures Estimable(yt, yc, mt, m, j)
  {
    MatchedShape(mt.forT, xt, xc, m);
    MatchedShape(mt.forC, xc, xt, m);
    MatchedShape(mt.withinT, xt, xt, j + 1);
    MatchedShape(mt.withinC, xc, xc, j + 1);
  }

  /** Runs the four searches. */
  method SearchAll(xt: seq<Row>, xc: seq<Row>, d: nat, m: nat, j: nat) returns (mt: Matches)
    requires Covariates(xt, xc, d)
    requires m < |xt| && m < |xc| && j + 1 < |xt| && j + 1 < |xc|
    ensures AllMatched(mt, xt, xc, m, j)
  {
    CovariatesMatchable(xt, xc, d);
    CovariatesMatchable(xc, xt, d);
    CovariatesMatchable(xt, xt, d);
    CovariatesMatchable(xc, xc, d);
    var forT := MatMatchMat(xt, xc, m);
    var forC := MatMatchMat(xc, xt, m);
    var withinT := MatMatchMat(xt, xt, j + 1);
    var withinC := MatMatchMat(xc, xc, j + 1);
    mt := Matches(forT, forC, withinT, withinC);
  }

  /** The success path of `est_via_matching`: the four searches, then the
      estimate on their tables. */
  method SearchAndEstimate(xt: seq<Row>, xc: seq<Row>, yt: seq<real>, yc: seq<real>, d: nat,
                           m: nat, j: nat, adj: Option<Predictions>)
    returns (e: Estimate, mt: Matches)
    requires |xt| == |yt| && |xc| == |yc| && Covariates(xt, xc, d)
    requires 0 < m < |yt| && m < |yc| && 0 < j && j + 1 < |yt| && j + 1 < |yc|
    requires adj.Some? ==> PredictionsFit(adj.value, |yt|, |yc|)
    ensures AllMatched(mt, xt, xc, m, j) && Estimable(yt, yc, mt, m, j)
    ensures e == MatchingEstimate(yt, yc, mt, m, j, adj)
    ensures e.variance >= 0.0
  {
    mt := SearchAll(xt, xc, d, m, j);
    AllMatchedFit(mt, xt, xc, yt, yc, m, j);
    e := MatchingEstimate(yt, yc, mt, m, j, adj);
  }

  /** `est_via_matching(num_matches=m, num_matches_for_var=numForVar,
      bias_adj=adj.Some?)` on scaled covariates: the four nearest-neighbour
      searches, then the estimate, or the exception the source raises
      first. */
  method EstViaMatching(xt: seq<Row>, xc: seq<Row>, yt: seq<real>, yc: seq<real>, d: nat,
                        m: nat, numForVar: Option<nat>, adj: Option<Predictions>)
    returns (r: Result<Estimate, MatchError>, mt: Matches)
    requires |xt| == |yt| && |xc| == |yc|
    requires Covariates(xt, xc, d)
    requires adj.Some? ==> PredictionsFit(adj.value, |yt|, |yc|)
    ensures var j := numForVar.GetOr(m);
            var bothEmpty := |yt| == 0 && |yc| == 0;
            var kthBad := m >= |yc| || m >= |yt| || j + 1 >= |yt| || j + 1 >= |yc|;
            && (r.Failure? <==> kthBad || j == 0 || m == 0)
            && (r.Failure? ==> (r.error == NotAnIndex <==> bothEmpty))
            && (r.Failure? ==> (r.error == KthOutOfBounds <==> kthBad && !bothEmpty))
    ensures r.Success? ==>
              var j := numForVar.GetOr(m);
              && AllMatched(mt, xt, xc, m, j)
              && Estimable(yt, yc, mt, m, j)
              && r.value == MatchingEstimate(yt, yc, mt, m, j, adj)
    ensures r.Success? ==> r.value.variance >= 0.0
  {
    var j := numForVar.GetOr(m);
    mt := Matches([], [], [], []);
    if |yt| == 0 && |yc| == 0 {
      // no query row reaches `argpartition`
      return Failure(NotAnIndex), mt;
    }
    if m >= |yc| || m >= |yt| || j + 1 >= |yt| || j + 1 >= |yc| {
      return Failure(KthOutOfBounds), mt;
    }
    if j == 0 || m == 0 {
      // the searches succeed here; the division by their count is what fails
      mt := SearchAll(xt, xc, d, m, j);
      return Failure(DivisionByZero), mt;
    }
    var e;
    e, mt := SearchAndEstimate(xt, xc, yt, yc, d, m, j, adj);
    r := Success(e);
  }
}
