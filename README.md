# OpenRisk numeric core in Dafny

This project models the numeric core of the OpenRisk C++ library and proves
properties of the model.

- **L-BFGS minimiser** (`LBFGSOptimizer`):
  - a central-difference gradient estimate with h = 1e-7;
  - a bounded FIFO history of curvature pairs (s, y, rho), which admits a pair when s.y > 1e-10;
  - the two-loop recursion for the search direction;
  - a backtracking Armijo line search of at most 20 halvings;
  - the outer loop, which stops on the gradient-norm test or when the iteration budget is spent.
- **Moment statistics** (`Statistics`): mean, variance, standard deviation, skewness and kurtosis, each with its size guard.
- **Dependence measures** (`Correlation`):
  - Pearson's coefficient with its zero-denominator guard;
  - the rank transform (sort (value, index) pairs, then scatter the ranks);
  - Spearman's coefficient, which is Pearson's coefficient of the ranks;
  - Kendall's tau, from concordant and discordant pair counts.
- **Tail risk** (`RiskMetrics`):
  - historical Value at Risk and expected shortfall, read from a sorted copy at index `size_t((1 - c) n)`;
  - parametric VaR, with the z-score 2.326 or 1.645.
- **GARCH(1,1) variance filter** (`Garch`).
- **Covariance estimation** (`CovarianceEstimator`):
  - the sample covariance;
  - Ledoit-Wolf shrinkage towards a constant-correlation target, with intensity clamp(p/n, 0.01, 0.99).

## How the model is built

**Numbers and primitives.**
- The floating-point type `T` is modelled by `real`, and vectors are `seq<real>`.
- The objective is a total function `Vector -> real` passed as a parameter.
- The library square root is also a parameter, `sqrt: real -> real`. Every member whose contract depends on the values of `sqrt` requires `IsSqrt(sqrt)`: for a ≥ 0, sqrt(a) ≥ 0 and sqrt(a)² = a. The definitions that only pass `sqrt` on (`CovarianceEstimator.TargetEntry`, `Target`, `TargetSmall` and `BuildTarget`) do not need it.

**Specification functions and code.** Each module states its meaning with pure specification functions:
- `Optimization.Outcome`, `Optimization.Direction` and `Optimization.LineSearchStep`;
- `Correlation.Ranks` and `Correlation.KendallOf`;
- `RiskMetrics.LossAt` and `RiskMetrics.TailLoss`;
- `Garch.IsFiltered`;
- `CovarianceEstimator.LedoitWolf`.

The code that works step by step is written as methods with loops, and each method's `ensures` ties its result to its specification function:
- the optimiser's methods, with the history kept as a `seq`;
- `Sorting.Sort`, an in-place insertion sort on an array, which stands for `std::sort`;
- `Correlation.RankTransform` and `Correlation.KendallTau`;
- `RiskMetrics.HistoricalVar` and `RiskMetrics.ExpectedShortfall`;
- `Garch.Filter`, which fills an array;
- `CovarianceEstimator.SumCorrelations`, `CovarianceEstimator.BuildTarget` and `CovarianceEstimator.LedoitWolfShrinkage`.

Lemmas then prove what the source promises about the specification functions.

**The norm test without a square root.** The test `‖g‖ < g_tol` is stated as `0 < g_tol && ‖g‖² < g_tol²`. `Optimization.NormTestWithoutSqrt` proves the two forms equivalent.

**Values with no real value.** The C++ code can produce NaN or an infinity.
- Three such cases are modelled as `None` of an `Option`: skewness and kurtosis of a constant sample (0/0), and expected shortfall with a cutoff of 0 (0/0).
- Two are excluded by a `requires` instead: the division by n - 1 = 0 in `SampleCovariance`, and the sqrt(0) divisor of a constant column in `LedoitWolfShrinkage` (see "## Left out").

**Undefined behaviour.** Most undefined behaviour is excluded by a `requires`, for example an out-of-range index or `pop_front` on an empty deque. The exception is `Correlation.Pearson` on empty input, which returns 0 (see "## Left out").

## Model

| member | source | states |
|---|---|---|
| Lbfgs.DefaultConfig | include/openrisk/core/lbfgs.hpp:10-17 | the default configuration has m = 10, max_iter = 500, g_tol = 1e-6, step_alpha = 1, wolfe_c1 = 1e-4 and wolfe_c2 = 0.9; with these, 0 < c1 < c2 < 1 and m ≥ 1 |
| Optimization.GradientOfSquaredDistance | src/core/optimization.cpp:7-18 | the central-difference estimate has the length of x, perturbs only coordinate i for entry i, and is exact (2(x - c)) on a squared distance |
| Optimization.GradientOfAffine | src/core/optimization.cpp:7-18 | the central-difference estimate is exact (equals c) on an affine objective c.x + b |
| Optimization.LBFGSOptimizer.EstimateGradient | src/core/optimization.cpp:7-18 | the loop returns, entry by entry, (f(x + h e_i) - f(x - h e_i)) / 2h |
| Optimization.AdmitKeepsValid | src/core/optimization.cpp:84-90 | admitting a pair keeps the history within capacity, and keeps every entry admitted with s.y > 1e-10 and rho = 1/(s.y) |
| Optimization.HistoryIsWindow | src/core/optimization.cpp:84-90 | FIFO: after any stream of candidate pairs, the history is exactly the last `m` admitted entries, oldest first |
| Optimization.WindowPush | src/core/optimization.cpp:88-89 | pushing onto a full window drops the front entry |
| Optimization.TwoLoopRecursion | src/core/optimization.cpp:21-42 | the first loop (newest to oldest, recording alpha_i), the gamma scaling and the second loop (oldest to newest, reusing alpha_i) compute H g for the BFGS inverse-Hessian estimate of the history |
| Optimization.EmptyHistoryGivesSteepestDescent | src/core/optimization.cpp:30-41 | with an empty history the direction is exactly -g |
| Optimization.InverseHessianPositive | src/core/optimization.cpp:21-42 | with gamma > 0 and every rho > 0, v.Hv ≥ 0, and v.Hv > 0 for v ≠ 0 |
| Optimization.AdmissibleIsReady | src/core/optimization.cpp:84-90 | an admitted history has rho > 0, y ≠ 0 for the gamma division, and gamma > 0 |
| Optimization.DirectionIsDescent | src/core/optimization.cpp:21-42 | from an admitted history the direction satisfies g.d < 0 whenever g ≠ 0 |
| Optimization.LBFGSOptimizer.FirstPass | src/core/optimization.cpp:22-28 | the first loop returns the first-loop vector and the recorded alphas |
| Optimization.LBFGSOptimizer.SecondPass | src/core/optimization.cpp:36-39 | the second loop returns the second-loop vector |
| Optimization.LBFGSOptimizer.ComputeDirection | src/core/optimization.cpp:21-42 | the method returns the L-BFGS direction -H g, with gamma taken from the newest entry |
| Optimization.TrialStepPositive | src/core/optimization.cpp:50-55 | every halved step lies in (0, initial] |
| Optimization.LineSearchOutcome | src/core/optimization.cpp:45-57 | the step is initial·2^-k with 0 ≤ k ≤ 20; it passes the Armijo test f(x + t d) ≤ f(x) + c1 t (g.d) when k < 20, and at k = 20 it was never tested; every larger step failed the test |
| Optimization.HalvingsFirst | src/core/optimization.cpp:50-55 | the number of halvings is the first index whose step passes the test, or 20 |
| Optimization.LBFGSOptimizer.LineSearch | src/core/optimization.cpp:45-57 | the loop returns the specified step, with c1 = wolfe_c1 |
| Optimization.NormTestWithoutSqrt | src/core/optimization.cpp:73 | for any square root, ‖g‖ < tol exactly when ‖g‖² < tol² with tol > 0 |
| Optimization.IterateGradient | src/core/optimization.cpp:70-93 | every iterate carries the gradient estimate at its point |
| Optimization.RanPastMeans | src/core/optimization.cpp:72-76 | the run got past iterate k exactly when the norm test failed at every earlier iterate |
| Optimization.OutcomeAt | src/core/optimization.cpp:60-100 | the result of a run that stops at iterate k |
| Optimization.OutcomeStopsAfter | src/core/optimization.cpp:60-100 | a run stops after some k ≤ max_iter iterations. x_best is the last iterate, min_value = f(x_best), and converged holds exactly when the loop broke on the norm test, which x_best's gradient then passes. iterations is k - 1, or unset when no pass completed |
| Optimization.WolfeC2Unused | include/openrisk/core/lbfgs.hpp:16 | wolfe_c2 has no effect on a run |
| Optimization.RunIgnoresC2 | src/core/optimization.cpp:46 | from any iterate on, the run reads wolfe_c1 and not wolfe_c2 |
| Optimization.FlatObjectiveStopsAtOnce | src/core/optimization.cpp:70-98 | a constant objective gives a zero gradient, so the run returns x0 converged, with no iteration recorded |
| Optimization.LBFGSOptimizer.constructor | include/openrisk/core/lbfgs.hpp:19 | the configuration is fixed at construction (a `const` field) |
| Optimization.LBFGSOptimizer.Iteration | src/core/optimization.cpp:78-93 | one loop pass: direction, line search, move, gradient estimate, and the admission of (s, y, 1/(s.y)) with the front dropped at capacity. It yields the next iterate |
| Optimization.LBFGSOptimizer.Minimize | src/core/optimization.cpp:60-100 | the method returns exactly the specified outcome of the run; the bounds are ignored |
| Statistics.MeanBounds | include/openrisk/core/stats.hpp:13-15 | the mean lies between any lower and upper bound of the sample |
| Statistics.CenteredSumsToZero | include/openrisk/core/stats.hpp:19-20 | the deviations from the mean sum to zero |
| Statistics.CenteredShift | include/openrisk/core/stats.hpp:13-20 | adding c to the sample adds c to the mean and leaves the deviations unchanged |
| Statistics.Variance | include/openrisk/core/stats.hpp:17-22 | 0 below two observations; never negative |
| Statistics.VarianceZeroIffConstant | include/openrisk/core/stats.hpp:17-22 | the variance is zero exactly when the sample is constant |
| Statistics.BiasedVariance | include/openrisk/core/stats.hpp:21 | n times the biased variance equals (n - 1) times the unbiased one |
| Statistics.VarianceShift | include/openrisk/core/stats.hpp:17-22 | the variance is invariant under adding a constant |
| Statistics.StandardDeviation | include/openrisk/core/stats.hpp:24-26 | the result is non-negative and its square is the unbiased variance |
| Statistics.StandardDeviationZeroIffConstant | include/openrisk/core/stats.hpp:24-26 | the standard deviation is zero exactly when the sample is constant |
| Statistics.Skewness | include/openrisk/core/stats.hpp:28-35 | 0 below three observations; otherwise it has no value exactly when the sample is constant |
| Statistics.Kurtosis | include/openrisk/core/stats.hpp:37-45 | 0 below four observations; otherwise it has no value exactly when the sample is constant; the raw value is non-negative |
| Statistics.ExcessKurtosis | include/openrisk/core/stats.hpp:37-45 | excess kurtosis is raw kurtosis minus 3, and is at least -3; both are 0 below four observations |
| Statistics.HigherMomentsShift | include/openrisk/core/stats.hpp:28-45 | skewness and kurtosis are invariant under adding a constant |
| Sorting.Sort | include/openrisk/tail/var.hpp:14 | the in-place sort leaves the array sorted and a permutation of its old contents |
| Sorting.SortedCopyIsUnique | include/openrisk/tail/var.hpp:14 | under a total order, any sorted permutation is the sorted copy, so the sort's result does not depend on the algorithm |
| Sorting.CountBeforeSortedCopy | include/openrisk/dependence/correlation.hpp:62 | sorting does not change how many elements stand in a relation to a value |
| Sorting.SortedCopyDistinct | include/openrisk/dependence/correlation.hpp:62 | sorting keeps the elements distinct |
| Correlation.PearsonDenominator | include/openrisk/dependence/correlation.hpp:21 | the denominator is non-negative, its square is the product of the sums of squared deviations, and it is zero exactly when one sample is constant |
| Correlation.Pearson | include/openrisk/dependence/correlation.hpp:14-24 | the coefficient lies in [-1, 1], and is 0 when a sample is constant (the guard) |
| Correlation.PearsonSymmetric | include/openrisk/dependence/correlation.hpp:14-24 | pearson(x, y) = pearson(y, x) |
| Correlation.PearsonSelf | include/openrisk/dependence/correlation.hpp:14-24 | a non-constant sample has coefficient 1 with itself |
| Correlation.PearsonShift | include/openrisk/dependence/correlation.hpp:15-18 | adding a constant to a sample does not change the coefficient |
| Correlation.SortedPosition | include/openrisk/dependence/correlation.hpp:59-67 | observation i sits at sorted position rank_i - 1 |
| Correlation.RankedAt | include/openrisk/dependence/correlation.hpp:65-67 | the observation at sorted position k gets rank k + 1 |
| Correlation.RankOrder | include/openrisk/dependence/correlation.hpp:59-66 | rank_i < rank_j exactly when vec[i] < vec[j], or the values are equal and i < j |
| Correlation.RanksArePermutation | include/openrisk/dependence/correlation.hpp:57-68 | the ranks are whole numbers in [1, n], pairwise different, and each of 1..n is taken: a permutation of 1..n |
| Correlation.RankTransform | include/openrisk/dependence/correlation.hpp:57-69 | filling, sorting and scattering return exactly the specified ranks |
| Correlation.ScatterRanks | include/openrisk/dependence/correlation.hpp:64-67 | writing rank k + 1 at the index of the k-th sorted pair yields the specified ranks |
| Correlation.IndexedArray | include/openrisk/dependence/correlation.hpp:59-60 | the array holds the (value, index) pairs |
| Correlation.Spearman | include/openrisk/dependence/correlation.hpp:29-31 | the coefficient of the ranks lies in [-1, 1] |
| Correlation.SpearmanSymmetric | include/openrisk/dependence/correlation.hpp:29-31 | spearman(x, y) = spearman(y, x) |
| Correlation.SpearmanSelf | include/openrisk/dependence/correlation.hpp:29-31 | from two observations on, a sample has rank correlation 1 with itself |
| Correlation.PairCountsCover | include/openrisk/dependence/correlation.hpp:43-51 | every one of the n(n - 1)/2 pairs is concordant, discordant or tied, so concordant + discordant ≤ n(n - 1)/2 |
| Correlation.KendallOf | include/openrisk/dependence/correlation.hpp:36-54 | tau is 0 below two observations, and lies in [-1, 1] |
| Correlation.KendallBound | include/openrisk/dependence/correlation.hpp:53 | (C - D) / (n(n - 1)/2) lies in [-1, 1] |
| Correlation.KendallSymmetric | include/openrisk/dependence/correlation.hpp:45-53 | tau(x, y) = tau(y, x) |
| Correlation.KendallTau | include/openrisk/dependence/correlation.hpp:36-54 | the double loop returns exactly the specified tau |
| RiskMetrics.Index | include/openrisk/tail/var.hpp:15 | the truncated index k satisfies k ≤ (1 - c) n < k + 1, or k = 0 when -1 < (1 - c) n < 0 |
| RiskMetrics.IndexInRange | include/openrisk/tail/var.hpp:15-16 | for 0 < c ≤ 1 and a non-empty series the index is in range |
| RiskMetrics.IndexAntitone | include/openrisk/tail/var.hpp:15 | a higher confidence never gives a larger index |
| RiskMetrics.Ascending | include/openrisk/tail/var.hpp:14 | the sorted copy is sorted and a permutation of the series |
| RiskMetrics.LossAtIsOrderStatistic | include/openrisk/tail/var.hpp:13-17 | the loss is the negation of an element of the series, and that element is the k-th order statistic: at most k returns lie below it and more than k lie at or below it |
| RiskMetrics.LossAtAntitone | include/openrisk/tail/var.hpp:16 | a smaller index never gives a smaller loss |
| RiskMetrics.HistoricalVar | include/openrisk/tail/var.hpp:13-17 | the method returns the loss at the truncated index of a sorted copy; the input is a value and is unchanged |
| RiskMetrics.SortedArray | include/openrisk/tail/var.hpp:14 | a fresh array holding the sorted copy |
| RiskMetrics.TailLossAtLeastLoss | include/openrisk/tail/var.hpp:35-41 | the shortfall has a value exactly when the cutoff is positive, and is then at least the VaR at the same index |
| RiskMetrics.TailLossBounded | include/openrisk/tail/var.hpp:35-41 | when no return is below lo, the shortfall is at most -lo |
| RiskMetrics.ExpectedShortfall | include/openrisk/tail/var.hpp:33-42 | the method returns the negated mean of the cutoff smallest returns, with no value for cutoff 0 |
| RiskMetrics.SumPrefix | include/openrisk/tail/var.hpp:37-40 | the loop returns the sum of the first k sorted returns |
| RiskMetrics.ZScore | include/openrisk/tail/var.hpp:26 | z = 2.326 exactly when c > 0.97, else 1.645 |
| RiskMetrics.ParametricVar | include/openrisk/tail/var.hpp:22-28 | z·sigma - mean is at least -mean, and equal to it for a constant series |
| RiskMetrics.ParametricVarMonotone | include/openrisk/tail/var.hpp:22-28 | a higher confidence never gives a smaller parametric VaR |
| RiskMetrics.ParametricVarShift | include/openrisk/tail/var.hpp:22-28 | adding c to every return lowers the parametric VaR by c |
| Garch.Filter | include/openrisk/time_series/garch.hpp:23-36 | the output has the input's length, starts at the mean of the squared returns, and follows sigma²_t = omega + alpha r²_{t-1} + beta sigma²_{t-1} |
| Garch.FilteredIsUnique | include/openrisk/time_series/garch.hpp:27-34 | the start and the recursion determine the whole series |
| Garch.FilterUnique | include/openrisk/time_series/garch.hpp:30-34 | two filtered series agree on every prefix |
| Garch.FilterPositive | include/openrisk/time_series/garch.hpp:27-34 | with omega > 0 and alpha, beta ≥ 0, sigma²_0 ≥ 0 and every later sigma²_t > 0 |
| Garch.FilterMonotone | include/openrisk/time_series/garch.hpp:30-34 | larger parameters never give a smaller variance at any t |
| Garch.UpdateMonotone | include/openrisk/time_series/garch.hpp:31-33 | one step of the recursion is monotone in the parameters and the previous variance |
| CovarianceEstimator.SampleCovariance | include/openrisk/factor/covariance.hpp:12-16 | C^T C / (n - 1) is a p × p matrix |
| CovarianceEstimator.CovarianceDiagonal | include/openrisk/factor/covariance.hpp:12-16 | the diagonal holds the unbiased variances of the columns |
| CovarianceEstimator.CovarianceIsCovariance | include/openrisk/factor/covariance.hpp:12-16 | the sample covariance is symmetric, has a non-negative diagonal and satisfies S_ab² ≤ S_aa S_bb |
| CovarianceEstimator.PositiveVariances | include/openrisk/factor/covariance.hpp:31 | when no column is constant, every diagonal entry is positive, so the correlation divisions are defined |
| CovarianceEstimator.EntryCorrelationBound | include/openrisk/factor/covariance.hpp:31 | each S_ij / sqrt(S_ii S_jj) lies in [-1, 1] |
| CovarianceEstimator.SumCorrelations | include/openrisk/factor/covariance.hpp:28-33 | the double loop returns the sum of the correlations of the pairs i < j |
| CovarianceEstimator.AverageCorrelation | include/openrisk/factor/covariance.hpp:34 | the average correlation is 0 when p ≤ 1 |
| CovarianceEstimator.AverageCorrelationBound | include/openrisk/factor/covariance.hpp:28-34 | the average correlation lies in [-1, 1] |
| CovarianceEstimator.TargetProperties | include/openrisk/factor/covariance.hpp:36-45 | the target's diagonal is the sample diagonal, the target is symmetric, and for an average correlation in [-1, 1] it is bounded by its diagonal |
| CovarianceEstimator.BuildTarget | include/openrisk/factor/covariance.hpp:36-45 | filling with the average correlation, scaling off the diagonal and overwriting the diagonal yields the specified target |
| CovarianceEstimator.Clamp | include/openrisk/factor/covariance.hpp:59 | std::clamp returns v inside [lo, hi], lo below and hi above |
| CovarianceEstimator.ShrinkageIntensity | include/openrisk/factor/covariance.hpp:53-60 | the intensity is p/n when that lies in [0.01, 0.99], 0.01 below and 0.99 above; it depends on the dimensions only |
| CovarianceEstimator.ShrinkageIntensityMonotone | include/openrisk/factor/covariance.hpp:56-59 | more assets for the same observations never give a smaller intensity |
| CovarianceEstimator.ShrinkProperties | include/openrisk/factor/covariance.hpp:49 | (1 - δ)S + δF for δ in [0, 1] keeps a shared diagonal, keeps symmetry, and keeps entries bounded by the diagonal |
| CovarianceEstimator.CombinationBound | include/openrisk/factor/covariance.hpp:49 | a convex combination of two entries bounded by d is bounded by d |
| CovarianceEstimator.LedoitWolfProperties | include/openrisk/factor/covariance.hpp:21-50 | the estimate keeps the column variances on its diagonal and is symmetric; with non-constant columns every entry is bounded by the diagonal, as for a covariance matrix |
| CovarianceEstimator.TargetSmall | include/openrisk/factor/covariance.hpp:34-45 | with at most one asset the target is the sample covariance |
| CovarianceEstimator.LedoitWolfShrinkage | include/openrisk/factor/covariance.hpp:21-50 | the method returns exactly the specified shrunk estimate |

## Left out

- The optimiser's `lower_bounds` and `upper_bounds` are accepted by `Minimize` and ignored, as in the source.
- The abstract `Optimizer` base class is not modelled, because the model has no traits. `LBFGSOptimizer` is a class whose `Minimize` keeps the four-argument signature.
- `m = 0`: `pop_front` on an empty deque is undefined behaviour, so the optimiser requires `static_cast<size_t>(m) > 0`. A negative `m` is converted modulo 2^64, as in the source.
- `OptimizationResult.iterations`: the source leaves it uninitialised (indeterminate) when no loop pass completed. The model uses `None` there.
- Floating point: rounding, overflow, NaN and infinities are not modelled. Values are exact reals.
- Optimization.GradientOfSquaredDistance: exactness of the central differences holds over the reals only; rounding at h = 1e-7 is not modelled.
- Convergence of the optimiser to a minimum is not modelled. Only the structure of the iteration is proved.
- The objective and the square root are parameters. Their evaluation, and any I/O, are outside the model.
- `std::sort` is modelled by a verified insertion sort. Every order it is used with is total, so the sorted result is unique, whatever the algorithm.
- RiskMetrics.HistoricalVar: the index conversion `static_cast<size_t>` is undefined when the value does not fit. The method therefore requires the conversion to be defined and the index to be in range, which `IndexInRange` shows holds for 0 < c ≤ 1 and a non-empty series.
- RiskMetrics.ExpectedShortfall: a cutoff of 0 divides 0 by 0 (NaN in the source). The model returns `None` instead of requiring cutoff ≥ 1.
- Statistics.Skewness and Statistics.Kurtosis: for a constant sample the source divides by a zero power of the standard deviation. The model returns `None` there.
- The mean of an empty vector is not defined by the library, so `Mean` requires a non-empty vector.
- Correlation.Pearson: the source's element-wise products require `|x| = |y|`, so the model requires it.
- Correlation.Pearson: on two empty vectors the source takes the library mean of an empty vector, which is undefined. The model returns 0 there, which is the value the `denominator > 0` guard gives once the empty sums are 0. `Spearman` inherits this.
- Correlation.KendallTau: the model requires `|x| ≤ |y|`, because the loop reads `y` at the indices of `x`.
- The `long long` pair counters of `kendall_tau` are unbounded in the model.
- Ties in `rank_transform` get distinct ranks ordered by position, because the (value, index) pairs are sorted. This is the source's behaviour; average ranks are not used.
- CovarianceEstimator.SampleCovariance: `n = 1` divides by zero, and `n = 0` converts `n - 1` to 2^64 - 1. The model requires n ≥ 2.
- CovarianceEstimator.LedoitWolfShrinkage: with p ≥ 2, a constant column gives a zero variance and sqrt(0) as a divisor. The model requires a positive diagonal there; `PositiveVariances` shows that non-constant columns give one.
- The product `p * (p - 1)` is unbounded in the model; the source computes it in `size_t`.
- The unused `mean_var` of `ledoit_wolf_shrinkage` is not modelled, because it has no effect on the result.
- `GarchModel::log_likelihood` and `calibrate_garch` are not part of this model: they need logarithms and are glue around `minimize`.
- The copulas, random numbers, the LPPL model, risk attribution and the example program are not part of this model.
