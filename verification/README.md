# CausalModel estimators in Dafny

This project models the estimator core of the CausalModel package, which
estimates average treatment effects from potential-outcomes data. The model
covers:

- the partitioned dataset `POdata`: validation, and the treated/control split
  by the masks `Z == 1` and `Z == 0`;
- the result builder `_get_results`: z-statistic, p-value and the 95%
  confidence interval;
- the influence-function estimate `mean(G)` with `se^2 = var(G) / (n - 1)`;
- the propensity clipping `_fix_propensity`;
- the inverse-propensity-weighting estimators `est_via_ipw` and
  `est_via_aipw`, with the propensity and outcome predictions given;
- the matching estimator `est_via_matching`, with the neighbour search
  `dist_arr_mat`, `arr_match_mat` and `mat_match_mat`, imputation, the ATT/ATC
  combination, the bias correction on given regression predictions, the
  donor-use counts `Km` and the nonparametric variance;
- the experimental estimators: `cal_dm`, `est_via_dm`, `est_via_strata`, and
  `test_via_fisher` over a supplied sequence of drawn assignments.

Python floats are modelled as exact reals. numpy boolean indexing is
`Masks.Select`. An estimator returns `Estimate(ate, variance)`, where
`variance` is the square of the standard error the source reports. The
square root and the normal CDF are not modelled: `Results.Report` takes the
standard error and the CDF as parameters.

Modules and files:

| file | module | models |
|---|---|---|
| `wrappers.dfy` | `Wrappers` | `Option`, `Result` |
| `stats.dfy` | `Stats` | `np.sum`, `np.mean`, `np.var` (ddof 0) |
| `masks.dfy` | `Masks` | masks `z == v`, `np.sum(mask)`, boolean indexing |
| `podata.dfy` | `PoData` | `POdata` |
| `results.dfy` | `Results` | `_get_results`, the influence-function estimate |
| `propensity.dfy` | `Propensity` | `_fix_propensity` |
| `weighting.dfy` | `Weighting` | `est_via_ipw`, `est_via_aipw` |
| `matching.dfy` | `Matching` | `dist_arr_mat`, `arr_match_mat`, `mat_match_mat` |
| `matching_estimator.dfy` | `MatchingEstimator` | `est_via_matching` |
| `experimental.dfy` | `Experimental` | `cal_dm`, `est_via_dm`, `est_via_strata`, `test_via_fisher` |

## Behaviour of the code worth knowing

- **Constructing `POdata`.** On invalid input the code only logs an error and
  leaves the partition attributes unset; it raises no validation error. This
  is `PoData.Constructed.Unvalidated`.
- **`nt` and `nc`.** `est_via_matching` reads `data.nt` and `data.nc`, which
  `POdata` never assigns. The model defines them as the partition sizes
  `|Yt|` and `|Yc|`.
- **Too few donors.** When a search asks for as many neighbours as there are
  donors, or exactly one partition is empty, `argpartition` raises. This is
  `MatchError.KthOutOfBounds`. When both partitions are empty no search
  calls `argpartition`. Each search then returns a float-typed empty array,
  and using it as an index into `Yt` raises (`MatchError.NotAnIndex`).
- **Difference in means on four units.** For `Y = [1, 2, 3, 4]`, `Z = [0, 0, 1, 1]` the
  difference in means is 2 (`Experimental.CalDmExample`).
- **IPW with raw weights.** With a constant propensity `c` and
  `normalize=False`, IPW equals `(sum(Yt) / c - sum(Yc) / (1 - c)) / n`
  (`Weighting.IpwConstantPropensityRaw`). With `c = 0.5` that is
  `2 (nt mean(Yt) - nc mean(Yc)) / n`, which equals `mean(Yt) - mean(Yc)`
  when the arms are equal in size.
- **Fisher p-value bounds.** The p-value lies in `[0, 1/2]`. An empty arm in the observed assignment makes the observed statistic `nan`, and the p-value is then 0. A drawn
  assignment with an empty arm has a `nan` statistic, which is counted on
  neither side but still in the number of draws.

## Model

| member | source | states |
|---|---|---|
| Masks.Select | causalmodel/potentialoutcome.py:130-143 | boolean indexing keeps exactly as many entries as the mask has set bits |
| Masks.SelectPicksRows | causalmodel/potentialoutcome.py:115-143 | the selected rows are the rows of the full array at the mask's set positions, in their original order |
| Masks.IndicesExact | causalmodel/potentialoutcome.py:115-116 | the set positions of a mask are strictly increasing, in range, exactly the positions whose bit is set, and as many as the mask's count |
| Masks.CountTwoValues | causalmodel/potentialoutcome.py:115-116 | the rows equal to 1 and the rows equal to 0 together number at most n, and exactly n when every entry is one of the two values |
| PoData.Construct | causalmodel/potentialoutcome.py:109-123 | construction partitions the data iff all three arguments are ndarrays of one length; otherwise only the raw arguments are kept; a partitioned result keeps Y, Z, X and n = len(Y) and is well formed |
| PoData.PartitionSizes | causalmodel/potentialoutcome.py:114-120 | `nt` and `nc` are the counts of `Z == 1` and `Z == 0`; Xt and Xc have the same lengths; `nt + nc <= n`, with equality when Z is binary |
| PoData.PartitionRowsAligned | causalmodel/potentialoutcome.py:115-143 | the k-th treated (control) row comes from one data row with `Z == 1` (`Z == 0`), and its outcome and covariates come from that same row |
| PoData.UnassignedRowsDropped | causalmodel/potentialoutcome.py:115-116 | a row whose Z is neither 0 nor 1 is in neither partition |
| Results.GetResults | causalmodel/potentialoutcome.py:97-101 | the record keeps ate and se; z exists iff se is non-zero, and then `z * se == ate`; the p-value exists iff z does; the interval is symmetric about ate with half-width `1.96 se`; it contains ate iff `se >= 0` |
| Results.Report | causalmodel/potentialoutcome.py:97-101 | with se the non-negative root of the estimate's variance, the interval contains the point estimate and has width `2 * 1.96 se`; a missing z means zero variance |
| Results.InfluenceEstimate | causalmodel/potentialoutcome.py:95-96 | the estimate from pseudo-outcomes G has non-negative variance, and its ate times n is the total of G |
| Results.InfluenceEstimateShift | causalmodel/potentialoutcome.py:95-96 | shifting every pseudo-outcome by c shifts the ate by c and leaves the variance unchanged |
| Results.InfluenceEstimateOfConstant | causalmodel/potentialoutcome.py:95-96 | identical pseudo-outcomes c give ate c and variance 0 |
| Propensity.FixPropensity | causalmodel/observational.py:237-245 | the length is kept; the count is the number of 0s plus the number of 1s; every other entry is unchanged; for `eps != 1`, 0 maps to eps and 1 to `1 - eps`; for `eps` neither 0 nor 1, no output is 0 or 1; for `0 < eps < 1` and inputs in [0, 1], every output lies in (0, 1) |
| Propensity.DegenerateIff | causalmodel/observational.py:240 | `p (1 - p) == 0` exactly when p is 0 or 1 |
| Propensity.CountDegenerateByValue | causalmodel/observational.py:240 | the reported count equals the number of zeros plus the number of ones |
| Propensity.NoDegenerateEntry | causalmodel/observational.py:240-241 | a zero count means no entry is 0 or 1, so nothing is changed |
| Propensity.FixPropensityIdempotent | causalmodel/observational.py:240-243 | clipping a clipped vector changes nothing and reports a count of zero |
| Weighting.TreatedWeights | causalmodel/observational.py:85 | `w1` is zero on control rows and `1 / p` on treated rows |
| Weighting.ControlWeights | causalmodel/observational.py:86 | `w0` is zero on treated rows and `1 / (1 - p)` on control rows |
| Weighting.Clip | causalmodel/observational.py:83 | the propensity the estimators use has the input's length and no entry equal to 0 or 1 |
| Weighting.ClipConstant | causalmodel/observational.py:83 | clipping leaves a constant propensity strictly inside (0, 1) alone |
| Weighting.EstViaIpw | causalmodel/observational.py:83-94 | the IPW estimate has non-negative variance |
| Weighting.EstViaAipw | causalmodel/observational.py:120-128 | the AIPW estimate has non-negative variance |
| Weighting.ScaledToMean | causalmodel/observational.py:88 | a vector with non-zero total, divided by its mean, sums to its length |
| Weighting.NormalizedWeightsSumToN | causalmodel/observational.py:85-88 | each arm's normalised weights `w / (sum(w) / n)` sum to n |
| Weighting.ArmWeightedSum | causalmodel/observational.py:88-90 | weights equal to a on one arm and zero elsewhere give a weighted-outcome total of a times that arm's outcome total |
| Weighting.SelectedTotal | causalmodel/observational.py:88 | the selected outcomes of an arm total the same as the outcomes with the other arm zeroed |
| Weighting.MeanOfSelected | causalmodel/observational.py:88 | an arm's mean outcome is its zero-padded total over its count |
| Weighting.ArmTotals | causalmodel/observational.py:88 | weights equal to a on an arm of c rows total `a c`, and the weighted outcomes total a times the arm's outcome total |
| Weighting.NormalizedFromTotals | causalmodel/observational.py:88 | from those two totals alone, the normalised weighted outcomes average to the arm total over c |
| Weighting.NormalizedArmMean | causalmodel/observational.py:88 | a normalised arm of equal weights averages to the arm's mean outcome |
| Weighting.NormalizedMeanSplits | causalmodel/observational.py:88-92 | for any usable propensity, the normalised IPW mean is the treated arm's normalised average less the control arm's |
| Weighting.NormalizedTreatedOfConstant | causalmodel/observational.py:85-88 | under a constant propensity, the normalised treated arm averages to the treated mean outcome |
| Weighting.NormalizedControlOfConstant | causalmodel/observational.py:86-88 | under a constant propensity, the normalised control arm averages to the control mean outcome |
| Weighting.NormalizedMeanOfConstant | causalmodel/observational.py:85-92 | under a constant propensity, the weights are normalisable and the normalised pseudo-outcome's mean is the treated mean less the control mean |
| Weighting.IpwConstantPropensityIsDifferenceInMeans | causalmodel/observational.py:83-92 | with a constant propensity in (0, 1), both arms non-empty and `normalize=True`, the IPW ate is `mean(Yt) - mean(Yc)` |
| Weighting.RawSumSplits | causalmodel/observational.py:90-92 | the raw pseudo-outcome totals the treated weighted outcomes less the control ones |
| Weighting.RawTreatedOfConstant | causalmodel/observational.py:85-90 | under a constant propensity c, the raw treated arm totals `sum(Yt) / c` |
| Weighting.RawControlOfConstant | causalmodel/observational.py:86-90 | under a constant propensity c, the raw control arm totals `sum(Yc) / (1 - c)` |
| Weighting.RawSumOfConstant | causalmodel/observational.py:85-90 | under a constant propensity c, the raw pseudo-outcome totals `sum(Yt) / c - sum(Yc) / (1 - c)` |
| Weighting.IpwConstantPropensityRaw | causalmodel/observational.py:83-92 | with a constant propensity c and `normalize=False`, the IPW ate is `(sum(Yt) / c - sum(Yc) / (1 - c)) / n` |
| Weighting.AipwZeroRow | causalmodel/observational.py:122-124 | one AIPW row with zero predictions equals the raw IPW row |
| Weighting.AipwZeroAt | causalmodel/observational.py:122-124 | row i of the zero-prediction AIPW pseudo-outcome is row i of the raw IPW one |
| Weighting.AipwZeroPredictions | causalmodel/observational.py:122-124 | AIPW with both predictions identically zero has the raw IPW pseudo-outcome, for any usable propensity |
| Weighting.AipwWithZeroPredictionsIsIpw | causalmodel/observational.py:120-128 | AIPW with zero predictions gives the same estimate, ate and variance, as IPW with `normalize=False` |
| Weighting.AipwExactRow | causalmodel/observational.py:122-124 | an AIPW row whose own-arm prediction is exact is the imputed effect |
| Weighting.AipwExactModel | causalmodel/observational.py:122-124 | when each arm's prediction reproduces that arm's outcomes, the pseudo-outcome is `Y - mu0` on treated rows and `mu1 - Y` on control rows |
| Weighting.AipwExactOutcomeModel | causalmodel/observational.py:120-128 | with exact own-arm predictions, the AIPW estimate does not depend on the propensity |
| Matching.SqDist | causalmodel/observational.py:254-255 | a squared distance is non-negative |
| Matching.SqDistZeroIff | causalmodel/observational.py:254-255 | two rows are at squared distance zero exactly when they are equal |
| Matching.DistArrMat | causalmodel/observational.py:253-255 | there is one distance per donor row, and none is negative |
| Matching.MinPosition | causalmodel/observational.py:260 | the returned position holds a smallest remaining distance |
| Matching.RemoveAtFacts | causalmodel/observational.py:260 | removing one entry of a duplicate-free list removes exactly that value and keeps it duplicate-free |
| Matching.ArrMatchMat | causalmodel/observational.py:258-260 | for `m` less than the number of donors, the result is m distinct in-range donor positions, none farther than any position left out |
| Matching.SelfMatchOrDuplicates | causalmodel/observational.py:189-190 | in a within-arm search, a row that is not among its own matches is matched only to exact duplicates of itself |
| Matching.MatMatchMat | causalmodel/observational.py:249-250 | one donor list per query row, each a nearest-m selection among the donors; with no query rows any m is accepted and the result is empty |
| MatchingEstimator.MatchedShape | causalmodel/observational.py:159-160 | a nearest-neighbour table has one row per query, each row holding m distinct in-range donors |
| MatchingEstimator.ImputeWithinRange | causalmodel/observational.py:163 | every imputed outcome lies within the range of the donors' outcomes |
| MatchingEstimator.ImputeOfConstant | causalmodel/observational.py:163 | donors with identical outcomes impute that outcome |
| MatchingEstimator.TreatedOutcomes | causalmodel/observational.py:165 | `Yhat1` has n entries and starts with the observed treated outcomes |
| MatchingEstimator.ControlOutcomes | causalmodel/observational.py:165 | `Yhat0` has n entries and ends with the observed control outcomes |
| MatchingEstimator.PooledMean | causalmodel/observational.py:167-168 | the share-weighted mean of two arms is the mean of the two arms together |
| MatchingEstimator.MatchingAteIsMeanOfEffects | causalmodel/observational.py:163-168 | `(nc/n) atc + (nt/n) att` is the mean of `Yhat1 - Yhat0` over all n units |
| MatchingEstimator.ConstantArms | causalmodel/observational.py:167-168 | two arms of identical values d have a share-weighted mean of d |
| MatchingEstimator.MatchingAteOfConstantOutcomes | causalmodel/observational.py:163-168 | treated outcomes all a and control outcomes all b give an ate of `a - b`, whatever the matches |
| MatchingEstimator.BiasCorrectionOfConstantModels | causalmodel/observational.py:176-179 | regression models that predict one constant per arm give `BM == 0` |
| MatchingEstimator.DonorUse | causalmodel/observational.py:182-186 | `Km` has n non-negative entries |
| MatchingEstimator.SumOfIndicatorRow | causalmodel/observational.py:184 | a row of distinct in-range donors marks exactly as many positions as it lists |
| MatchingEstimator.SumBump | causalmodel/observational.py:184 | `Km[row] += 1` on distinct positions adds the row's length to the total |
| MatchingEstimator.AddRows | causalmodel/observational.py:183-186 | one tally loop adds to each position in its block the number of rows naming it, leaves the other positions alone, and adds m per row to the total |
| MatchingEstimator.TallyDonorUse | causalmodel/observational.py:182-186 | the two loops produce `Km`: treated positions count uses by control rows, positions from nt on count uses by treated rows, and `sum(Km) == M n` |
| MatchingEstimator.ConditionalVariance | causalmodel/observational.py:194 | `sigmaXW` is non-negative, and zero exactly where the close-match average equals the outcome |
| MatchingEstimator.ScaledSquare | causalmodel/observational.py:194 | a positive multiple of a square is non-negative and zero only at zero |
| MatchingEstimator.DonorWeight | causalmodel/observational.py:197 | the weight of a unit's conditional variance is non-negative, and zero for a unit never used as a donor |
| MatchingEstimator.VarianceTerms | causalmodel/observational.py:196-198 | each `V1 + V2` entry is at least the squared deviation of the unit's imputed effect from the ate |
| MatchingEstimator.MatchingVariance | causalmodel/observational.py:188-200 | `se^2 = V / n` is non-negative |
| MatchingEstimator.MatchingEstimate | causalmodel/observational.py:161-200 | the ate is the mean imputed effect `Yhat1 - Yhat0`, less BM when bias adjustment is on; the variance is non-negative |
| MatchingEstimator.AllMatchedFit | causalmodel/observational.py:159-190 | the four nearest-neighbour tables have the shapes the estimate needs |
| MatchingEstimator.SearchAll | causalmodel/observational.py:159-190 | the two cross-arm searches find M nearest donors and the two within-arm searches find J + 1 |
| MatchingEstimator.SearchAndEstimate | causalmodel/observational.py:159-201 | when every search has enough donors and J, M > 0, the four searches give nearest-neighbour tables that fit the estimator, and the estimate on them has non-negative variance |
| MatchingEstimator.EstViaMatching | causalmodel/observational.py:131-201 | the call fails iff a search asks for too many neighbours, or J or M is 0; with both arms empty the index error is reported; otherwise a kth-out-of-bounds error is reported whenever a search asks for too many, ahead of division by zero; on success, the matches are nearest-neighbour tables, the result is the matching estimate on them, and the variance is non-negative |
| Experimental.CalDm | causalmodel/experimental.py:87-93 | the difference-in-means variance `var1 / n1 + var0 / n0` is non-negative |
| Experimental.CalDmExample | causalmodel/experimental.py:87-93 | `Y = [1, 2, 3, 4]`, `Z = [0, 0, 1, 1]` gives an ate of 2 and `se^2 = 0.25` |
| Experimental.CalDmFlip | causalmodel/experimental.py:87-93 | exchanging the arms negates the ate and keeps the variance |
| Experimental.ConstantArm | causalmodel/experimental.py:87-93 | an arm of identical outcomes c has mean c and population variance 0 |
| Experimental.CalDmOfConstantOutcomes | causalmodel/experimental.py:87-93 | identical outcomes give an ate of 0 and a variance of 0 |
| Experimental.EstViaDm | causalmodel/experimental.py:27-32 | the stored statistic equals the reported ate, and the variance is non-negative |
| Experimental.LabelsExact | causalmodel/experimental.py:56 | the distinct labels list every label of the strata exactly once, and nothing else |
| Experimental.StratumEstimate | causalmodel/experimental.py:58 | each stratum's difference-in-means variance is non-negative |
| Experimental.Contribution | causalmodel/experimental.py:59-60 | a stratum's weighted contribution keeps a non-negative variance |
| Experimental.Combine | causalmodel/experimental.py:54-62 | the combined `sum(w^2 se_l^2)` is non-negative |
| Experimental.EstViaStrata | causalmodel/experimental.py:35-63 | a length mismatch fails with the length error, whatever the type; a same-length non-ndarray fails with the type error; otherwise the result has non-negative variance |
| Experimental.CountAppend | causalmodel/experimental.py:57 | appending a label adds one occurrence of it and none of any other label |
| Experimental.LabelCountsCover | causalmodel/experimental.py:56-57 | the counts of the distinct labels add up to n |
| Experimental.StrataWeightsSumToOne | causalmodel/experimental.py:56-57 | the strata weights `mean(strata == l)` sum to 1 |
| Experimental.WholeStratum | causalmodel/experimental.py:57-58 | when every unit has label l, its stratum is the whole sample, with the unstratified estimate and weight 1 |
| Experimental.OnlyLabel | causalmodel/experimental.py:56 | a sample carrying a single label has exactly that one distinct label |
| Experimental.SingleStratum | causalmodel/experimental.py:35-63 | a single stratum reproduces plain `cal_dm` |
| Experimental.Fraction | causalmodel/experimental.py:83 | the mean of a boolean array is non-negative |
| Experimental.FisherPValue | causalmodel/experimental.py:83 | `min(mean(T > stats), mean(T < stats))` lies in [0, 1/2] |
| Experimental.FisherPValueOfTies | causalmodel/experimental.py:83 | when every drawn statistic equals the observed one or is undefined, the p-value is 0 |
| Experimental.UndefinedDrawCountsNowhere | causalmodel/experimental.py:83 | an undefined (`nan`) drawn statistic adds to neither the above count nor the below count |
| Experimental.DrawStatisticFlip | causalmodel/experimental.py:29 | exchanging a draw's arms keeps its statistic defined exactly when it was, and negates it when defined |
| Experimental.DrawnStatistics | causalmodel/experimental.py:79-82 | one statistic per draw, defined exactly for the draws with both arms non-empty |
| Experimental.UndefinedObservedStatistic | causalmodel/experimental.py:83 | an undefined observed statistic compares false with every draw, so the p-value is 0 |
| Experimental.TestViaFisher | causalmodel/experimental.py:77-84 | the loop computes the p-value of the observed statistic against every draw's statistic, defined or not; with both observed arms non-empty the observed statistic is `est_via_dm`'s; with an empty observed arm the p-value is 0; it always lies in [0, 1/2] |

## Left out

- `est_propensity`, and the OLS fits inside `est_via_aipw` and the matching bias adjustment. They call learned models (sklearn, statsmodels), so the propensity and the prediction vectors are inputs. `LearningModels/_predictors.py` is not part of this model.
- `est_via_dml` depends on sklearn's `KFold` and learned models. It is also unfinished: it returns nothing.
- `est_via_ancova` depends on statsmodels OLS with HC0 standard errors.
- `np.sqrt` and `norm.cdf` are not modelled. Estimators return the squared standard error, and the CDF is a parameter of `Results.GetResults`.
- Results.GetResults: the p-value `(1 - cdf(z)) * 2` is only said to exist when z does. The CDF is a parameter, and for negative z the value exceeds 1. With a zero standard error numpy still gives a p-value: 0 or 2 when `ate` is non-zero (z is infinite), and nan when it is zero. The model represents these values as `None`.
- The per-column standard-deviation scaling of the covariates (`observational.py:157-158`) is not modelled. The scaled covariate rows are inputs to `MatchingEstimator.EstViaMatching`.
- The experimental design object (`CRD`, `get_params_via_obs`, `draw`) is not modelled. The drawn assignments are a given sequence.
- The `warnings` and `logging` side effects are not modelled. The degenerate count is returned in `Propensity.Fixed.numBad`.
- In-place mutation is not modelled, so the caller's propensity array is never aliased. Clipping returns a new vector.
- `mat_match_mat2`, the unused `cdist` variant, is not modelled.
- Module imports and the `super(self.__class__)` plumbing are not modelled.
- Floating-point rounding is not modelled. Every equality is over exact reals.
- numpy's nan and inf results become preconditions:
  - an empty arm in `cal_dm` and `est_via_dm` (`BothArms`). The Fisher test does not require it: there an undefined statistic is an `Option`. The matching estimator reports an error for empty partitions, and `ArmsMatched` only constrains its internal helpers;
  - fewer than two pseudo-outcomes in `InfluenceEstimate`, whose `n - 1` divisor would then be 0;
  - an unbalanced stratum (`StrataBalanced`);
  - a zero weight total under `normalize=True` (`Normalizable`);
  - zero Fisher draws.
- `argpartition`'s particular choice among tied distances is not modelled. `Matching.IsNearest` admits every tie-break, and `Matching.ArrMatchMat` picks one.
- Experimental.EstViaStrata: `set(strata)` iteration order is unspecified in Python. The model combines the strata in first-occurrence order, which gives the same sums.
- Weighting.EstViaIpw: its contract states only the non-negative variance. The value of the ate is stated by `Weighting.IpwConstantPropensityIsDifferenceInMeans` and `Weighting.IpwConstantPropensityRaw`.
- Weighting.EstViaAipw: its contract states only the non-negative variance. The value of the ate is stated by `Weighting.AipwWithZeroPredictionsIsIpw` and `Weighting.AipwExactOutcomeModel`.
- MatchingEstimator: the sample size `n` is `nt + nc`, where the code uses `data.n` (`observational.py:151`), which is `len(Y)` (`potentialoutcome.py:126-127`). The two agree for a binary treatment, which the class documentation assumes (`observational.py:21`).
- Results.GetResults: `_get_results(self, G)` (`potentialoutcome.py:94`) takes one argument, but `observational.py:94` and `experimental.py:32` (among others) call it with an estimate and a standard error. The model follows the callers.
