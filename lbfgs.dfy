/** The records of the L-BFGS optimiser: its configuration, the curvature pair
    kept in the history, and the result of a run. */
module Lbfgs {
  import opened LinAlg
  import opened Wrappers

  /** Configuration with the source's default values; `Config()` is the default
      configuration. `wolfeC2` is accepted and never read. */
  datatype Config = Config(
    m: int := 10,              // history depth
    maxIter: int := 500,       // iteration budget
    gTol: real := 0.000001,    // gradient-norm tolerance
    stepAlpha: real := 1.0,    // initial line-search step
    wolfeC1: real := 0.0001,   // Armijo coefficient
    wolfeC2: real := 0.9       // curvature coefficient (unused)
  )

  /** One curvature pair: s = x_{k+1} - x_k, y = g_{k+1} - g_k, rho = 1 / (y.s). */
  datatype StepHistory = StepHistory(s: Vector, y: Vector, rho: real)

  /** The result of a run. `iterations` is None when the source never assigns
      the field (it is then left indeterminate). */
  datatype OptimizationResult = OptimizationResult(
    xBest: Vector,
    minValue: real,
    iterations: Option<int>,
    converged: bool
  )

  /** The first-iteration step in the default configuration is the unit step,
      the Armijo coefficient lies strictly between 0 and the curvature one, and
      the history depth is usable. */
  lemma DefaultConfig()
    ensures Config() == Config(10, 500, 0.000001, 1.0, 0.0001, 0.9)
    ensures Config().m >= 1 && Config().maxIter > 0 && Config().gTol > 0.0
    ensures 0.0 < Config().wolfeC1 < Config().wolfeC2 < 1.0
  {
  }
}
