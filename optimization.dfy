/** The L-BFGS minimiser: central-difference gradients, a bounded FIFO history
    of curvature pairs, the two-loop recursion, a backtracking Armijo line
    search and the outer loop.

    The functions of this module are the specification of one loop iteration
    and of a whole run; the class `LBFGSOptimizer` at the end holds the
    imperative code, whose methods are proved equal to these functions. */
module Optimization {
  import opened Wrappers
  import opened LinAlg
  import opened Lbfgs

  /** The objective: a function of the parameter vector. */
  type Objective = Vector -> real

  /** Step of the central differences (1e-7). */
  const H: real := 0.0000001
  /** Curvature threshold for admitting a pair to the history (1e-10). */
  const CurvatureEps: real := 0.0000000001
  /** Number of halvings the line search tries. */
  const MaxHalvings: nat := 20

  // =====================================================================
  // Gradient estimator

  /** Central difference in coordinate i: only x[i] is moved, by +H and by -H. */
  function CentralDifference(f: Objective, x: Vector, i: nat): real
    requires i < |x|
  {
    (f(x[i := x[i] + H]) - f(x[i := x[i] - H])) / (2.0 * H)
  }

  function Gradient(f: Objective, x: Vector): Vector
  {
    seq(|x|, i requires 0 <= i < |x| => CentralDifference(f, x, i))
  }

  /** The squared distance to a point c (zero off its dimension). */
  function SquaredDistanceTo(c: Vector): Objective
  {
    v => if |v| == |c| then NormSq(Sub(v, c)) else 0.0
  }

  /** On the squared distance to a point c the central differences are exact:
      the estimate is 2(x - c). */
  lemma GradientOfSquaredDistance(c: Vector, x: Vector)
    requires |x| == |c|
    ensures Gradient(SquaredDistanceTo(c), x) == Scale(2.0, Sub(x, c))
  {
    forall i | 0 <= i < |x|
      ensures Gradient(SquaredDistanceTo(c), x)[i] == Scale(2.0, Sub(x, c))[i]
    {
      CentralDifferenceOfSquaredDistance(c, x, i);
    }
  }

  lemma CentralDifferenceOfSquaredDistance(c: Vector, x: Vector, i: nat)
    requires |x| == |c| && i < |x|
    ensures CentralDifference(SquaredDistanceTo(c), x, i) == 2.0 * (x[i] - c[i])
  {
    var d := x[i] - c[i];
    assert Sub(x[i := x[i] + H], c) == Sub(x, c)[i := d + H];
    assert Sub(x[i := x[i] - H], c) == Sub(x, c)[i := d - H];
    NormSqUpdate(Sub(x, c), i, d + H);
    NormSqUpdate(Sub(x, c), i, d - H);
    CentralSquare(d);
  }

  lemma CentralSquare(d: real)
    ensures (Sq(d + H) - Sq(d - H)) / (2.0 * H) == 2.0 * d
  {
    assert Sq(d + H) - Sq(d - H) == 4.0 * H * d;
  }

  /** On an affine objective the central differences are exact: the estimate is c. */
  lemma GradientOfAffine(c: Vector, b: real, x: Vector)
    requires |x| == |c|
    ensures Gradient(v => if |v| == |c| then Dot(c, v) + b else 0.0, x) == c
  {
    forall i | 0 <= i < |x|
      ensures Gradient(v => if |v| == |c| then Dot(c, v) + b else 0.0, x)[i] == c[i]
    {
      DotUpdate(c, x, i, x[i] + H);
      DotUpdate(c, x, i, x[i] - H);
      assert c[i] * (x[i] + H - x[i]) - c[i] * (x[i] - H - x[i]) == 2.0 * H * c[i];
    }
  }

  // =====================================================================
  // Bounded FIFO history

  /** The capacity the deque is compared with: `static_cast<size_t>(m)`. */
  function Capacity(m: int): nat
  {
    m % 0x1_0000_0000_0000_0000
  }

  /** An entry as the outer loop stores it: the curvature test passed and rho is 1/(s.y). */
  predicate Admissible(e: StepHistory, n: nat)
  {
    |e.s| == n && |e.y| == n && Dot(e.s, e.y) > CurvatureEps && e.rho == 1.0 / Dot(e.s, e.y)
  }

  predicate ValidHistory(h: seq<StepHistory>, n: nat, m: int)
  {
    |h| <= Capacity(m) && forall k :: 0 <= k < |h| ==> Admissible(h[k], n)
  }

  /** The history update of one iteration: the pair (s, y) is admitted when
      s.y exceeds the threshold; a full buffer first drops its oldest entry. */
  function Admit(h: seq<StepHistory>, s: Vector, y: Vector, m: int): seq<StepHistory>
    requires |s| == |y| && Capacity(m) > 0
  {
    var sy := Dot(s, y);
    if sy > CurvatureEps then
      (if |h| >= Capacity(m) then h[1..] else h) + [StepHistory(s, y, 1.0 / sy)]
    else
      h
  }

  lemma AdmitKeepsValid(h: seq<StepHistory>, s: Vector, y: Vector, m: int, n: nat)
    requires Capacity(m) > 0 && |s| == n && |y| == n
    requires ValidHistory(h, n, m)
    ensures ValidHistory(Admit(h, s, y, m), n, m)
  {
  }

  /** The entries a stream of candidate pairs gives, in order: one per pair
      that passes the curvature test. */
  function Admitted(pairs: seq<(Vector, Vector)>): seq<StepHistory>
    requires forall k :: 0 <= k < |pairs| ==> |pairs[k].0| == |pairs[k].1|
  {
    if |pairs| == 0 then []
    else
      var p := pairs[|pairs| - 1];
      var sy := Dot(p.0, p.1);
      Admitted(pairs[..|pairs| - 1]) + (if sy > CurvatureEps then [StepHistory(p.0, p.1, 1.0 / sy)] else [])
  }

  /** The history after offering every pair of the stream to an empty buffer. */
  function AdmitAll(pairs: seq<(Vector, Vector)>, m: int): seq<StepHistory>
    requires forall k :: 0 <= k < |pairs| ==> |pairs[k].0| == |pairs[k].1|
    requires Capacity(m) > 0
  {
    if |pairs| == 0 then []
    else
      var p := pairs[|pairs| - 1];
      Admit(AdmitAll(pairs[..|pairs| - 1], m), p.0, p.1, m)
  }

  /** The last `c` elements of a sequence (all of it when it is shorter). */
  function LastAtMost<T>(s: seq<T>, c: nat): seq<T>
  {
    if |s| <= c then s else s[|s| - c..]
  }

  /** Pushing onto a full window drops its oldest element. */
  lemma WindowPush<T>(es: seq<T>, e: T, c: nat)
    requires c > 0
    ensures var w := LastAtMost(es, c);
      (if |w| >= c then w[1..] else w) + [e] == LastAtMost(es + [e], c)
  {
    if |es| >= c {
      assert LastAtMost(es, c)[1..] + [e] == (es + [e])[|es| + 1 - c..];
    }
  }

  /** FIFO: the buffer always holds exactly the most recent Capacity(m)
      admitted entries, oldest first. */
  lemma {:induction false} HistoryIsWindow(pairs: seq<(Vector, Vector)>, m: int)
    requires forall k :: 0 <= k < |pairs| ==> |pairs[k].0| == |pairs[k].1|
    requires Capacity(m) > 0
    ensures AdmitAll(pairs, m) == LastAtMost(Admitted(pairs), Capacity(m))
  {
    if |pairs| > 0 {
      var init := pairs[..|pairs| - 1];
      var p := pairs[|pairs| - 1];
      HistoryIsWindow(init, m);
      var c := Capacity(m);
      var es := Admitted(init);
      var w := LastAtMost(es, c);
      assert AdmitAll(pairs, m) == Admit(w, p.0, p.1, m);
      var sy := Dot(p.0, p.1);
      if sy > CurvatureEps {
        var e := StepHistory(p.0, p.1, 1.0 / sy);
        assert Admitted(pairs) == es + [e];
        WindowPush(es, e, c);
      } else {
        assert Admitted(pairs) == es;
      }
    }
  }

  // =====================================================================
  // Two-loop recursion

  predicate Dims(h: seq<StepHistory>, n: nat)
  {
    forall k :: 0 <= k < |h| ==> |h[k].s| == n && |h[k].y| == n
  }

  /** What the direction computation needs: pairs of the gradient's size and a
      newest entry whose y is not zero (gamma divides by y.y). */
  predicate DirectionReady(h: seq<StepHistory>, n: nat)
  {
    Dims(h, n) && (|h| > 0 ==> Dot(h[|h| - 1].y, h[|h| - 1].y) != 0.0)
  }

  /** Initial Hessian scale (s.y)/(y.y) of the newest entry; 1 when there is none. */
  function Gamma(h: seq<StepHistory>): real
    requires |h| > 0 ==> |h[|h| - 1].s| == |h[|h| - 1].y| && Dot(h[|h| - 1].y, h[|h| - 1].y) != 0.0
  {
    if |h| == 0 then 1.0
    else
      var last := h[|h| - 1];
      Dot(last.s, last.y) / Dot(last.y, last.y)
  }

  /** rho (a.b): the coefficients alpha and beta of the two loops. */
  function Weighted(rho: real, a: Vector, b: Vector): real
    requires |a| == |b|
  {
    rho * Dot(a, b)
  }

  /** A first-loop step for entry e: v - alpha y with alpha = rho (s.v). */
  function FirstLoopStep(e: StepHistory, v: Vector): Vector
    requires |e.s| == |v| && |e.y| == |v|
  {
    Sub(v, Scale(Weighted(e.rho, e.s, v), e.y))
  }

  /** A second-loop step for entry e: q + (alpha - beta) s with beta = rho (y.q). */
  function SecondLoopStep(e: StepHistory, alpha: real, q: Vector): Vector
    requires |e.s| == |q| && |e.y| == |q|
  {
    Add(q, Scale(alpha - Weighted(e.rho, e.y, q), e.s))
  }

  /** H v for the inverse-Hessian estimate the history defines, as the BFGS
      update gives it: H_0 = gamma I and, with V = I - rho y s^T,
      H_{k+1} = V^T H_k V + rho s s^T. */
  function InverseHessianTimes(h: seq<StepHistory>, gamma: real, v: Vector): (r: Vector)
    requires Dims(h, |v|)
    ensures |r| == |v|
    decreases |h|
  {
    if |h| == 0 then Scale(gamma, v)
    else
      var e := h[|h| - 1];
      var w := InverseHessianTimes(h[..|h| - 1], gamma, FirstLoopStep(e, v));
      SecondLoopStep(e, Weighted(e.rho, e.s, v), w)
  }

  /** The L-BFGS direction -H g. */
  function Direction(g: Vector, h: seq<StepHistory>): Vector
    requires DirectionReady(h, |g|)
  {
    Neg(InverseHessianTimes(h, Gamma(h), g))
  }

  /** q after the first loop has visited entries |h|-1 down to i. */
  function FirstLoop(g: Vector, h: seq<StepHistory>, i: nat): (q: Vector)
    requires Dims(h, |g|) && i <= |h|
    ensures |q| == |g|
    decreases |h| - i
  {
    if i == |h| then g else FirstLoopStep(h[i], FirstLoop(g, h, i + 1))
  }

  /** The coefficient alpha_i the first loop records for entry i. */
  function Alpha(g: Vector, h: seq<StepHistory>, i: nat): real
    requires Dims(h, |g|) && i < |h|
  {
    Weighted(h[i].rho, h[i].s, FirstLoop(g, h, i + 1))
  }

  /** The coefficients alpha_0 .. alpha_{|h|-1} of the first loop. */
  function Alphas(g: Vector, h: seq<StepHistory>): (alphas: seq<real>)
    requires Dims(h, |g|)
    ensures |alphas| == |h|
  {
    seq(|h|, k requires 0 <= k < |h| => Alpha(g, h, k))
  }

  /** q after the second loop, started from q0 with coefficients alphas, has
      visited entries 0 to i-1. */
  function SecondLoop(h: seq<StepHistory>, alphas: seq<real>, q0: Vector, i: nat): (q: Vector)
    requires Dims(h, |q0|) && |alphas| == |h| && i <= |h|
    ensures |q| == |q0|
  {
    if i == 0 then q0 else SecondLoopStep(h[i - 1], alphas[i - 1], SecondLoop(h, alphas, q0, i - 1))
  }

  /** The two loops compute H g: after j steps of the second loop, q is the
      estimate of the oldest j entries applied to the first loop's q at j. */
  lemma {:induction false} TwoLoopPrefix(g: Vector, h: seq<StepHistory>, gamma: real, j: nat)
    requires Dims(h, |g|) && j <= |h|
    ensures SecondLoop(h, Alphas(g, h), Scale(gamma, FirstLoop(g, h, 0)), j)
         == InverseHessianTimes(h[..j], gamma, FirstLoop(g, h, j))
  {
    if j > 0 {
      TwoLoopPrefix(g, h, gamma, j - 1);
      assert h[..j][..j - 1] == h[..j - 1];
      assert h[..j][j - 1] == h[j - 1];
    }
  }

  lemma TwoLoopRecursion(g: Vector, h: seq<StepHistory>, gamma: real)
    requires Dims(h, |g|)
    ensures SecondLoop(h, Alphas(g, h), Scale(gamma, FirstLoop(g, h, 0)), |h|) == InverseHessianTimes(h, gamma, g)
  {
    TwoLoopPrefix(g, h, gamma, |h|);
    assert h[..|h|] == h;
  }

  /** With an empty history the direction is steepest descent. */
  lemma EmptyHistoryGivesSteepestDescent(g: Vector)
    ensures Direction(g, []) == Neg(g)
  {
    ScaleByOne(g);
  }

  lemma CurvatureTerm(rho: real, sigma: real, t: real)
    ensures (rho * sigma) * t + ((rho * sigma) - rho * t) * sigma == Mul(rho, Sq(sigma))
  {
  }

  /** One BFGS update adds rho (s.v)^2 to the quadratic form:
      v.(V^T w + alpha s) = (Vv).w + rho (s.v)^2 for alpha = rho (s.v). */
  lemma UpdateQuadraticForm(e: StepHistory, v: Vector, w: Vector)
    requires |e.s| == |v| && |e.y| == |v| && |w| == |v|
    ensures Dot(v, SecondLoopStep(e, Weighted(e.rho, e.s, v), w))
         == Dot(FirstLoopStep(e, v), w) + Mul(e.rho, Sq(Dot(e.s, v)))
  {
    var sigma := Dot(e.s, v);
    var a := Weighted(e.rho, e.s, v);
    var t := Dot(e.y, w);
    var c := a - Weighted(e.rho, e.y, w);
    DotAddScaled(v, w, c, e.s);
    DotSubScaled(v, a, e.y, w);
    DotCommutes(v, e.s);
    CurvatureTerm(e.rho, sigma, t);
  }

  /** A first-loop step can only reach zero from a non-zero v when s.v != 0. */
  lemma FirstLoopStepZero(e: StepHistory, v: Vector)
    requires |e.s| == |v| && |e.y| == |v|
    requires 0.0 < NormSq(v) && NormSq(FirstLoopStep(e, v)) == 0.0
    ensures Dot(e.s, v) != 0.0
  {
    var u := FirstLoopStep(e, v);
    NormSqZeroMeansZeros(u);
    if Dot(e.s, v) == 0.0 {
      var a := Weighted(e.rho, e.s, v);
      assert forall i :: 0 <= i < |v| ==> v[i] == 0.0 by {
        forall i | 0 <= i < |v| ensures v[i] == 0.0 {
          assert u[i] == v[i] - a * e.y[i];
        }
      }
      DotWithZeros(v, v);
      assert false;
    }
  }

  /** The history estimate is positive definite when gamma and every rho are
      positive: v.Hv is never negative, and positive for v != 0. */
  lemma {:induction false} InverseHessianPositive(h: seq<StepHistory>, gamma: real, v: Vector)
    requires Dims(h, |v|) && 0.0 < gamma
    requires forall k :: 0 <= k < |h| ==> 0.0 < h[k].rho
    ensures 0.0 <= Dot(v, InverseHessianTimes(h, gamma, v))
    ensures 0.0 < NormSq(v) ==> 0.0 < Dot(v, InverseHessianTimes(h, gamma, v))
    decreases |h|
  {
    if |h| == 0 {
      DotScaled(v, gamma, v);
      NormSqNonnegative(v);
      MulNonnegative(gamma, NormSq(v));
      if 0.0 < NormSq(v) {
        MulPositive(gamma, NormSq(v));
      }
    } else {
      var e := h[|h| - 1];
      var rest := h[..|h| - 1];
      var u := FirstLoopStep(e, v);
      var w := InverseHessianTimes(rest, gamma, u);
      InverseHessianPositive(rest, gamma, u);
      UpdateQuadraticForm(e, v, w);
      var sigma := Dot(e.s, v);
      SquareNonnegative(sigma);
      MulNonnegative(e.rho, Sq(sigma));
      NormSqNonnegative(u);
      if 0.0 < NormSq(v) && NormSq(u) == 0.0 {
        FirstLoopStepZero(e, v);
        SquarePositive(sigma);
        MulPositive(e.rho, Sq(sigma));
      }
    }
  }

  lemma DivPositive(a: real, b: real)
    requires 0.0 < a && 0.0 < b
    ensures 0.0 < a / b
  {
  }

  /** An admitted entry has y != 0, so the history is ready for the direction. */
  lemma AdmissibleIsReady(h: seq<StepHistory>, n: nat, m: int)
    requires ValidHistory(h, n, m)
    ensures DirectionReady(h, n)
    ensures |h| > 0 ==> 0.0 < Gamma(h)
    ensures forall k :: 0 <= k < |h| ==> 0.0 < h[k].rho
  {
    forall k | 0 <= k < |h|
      ensures 0.0 < h[k].rho && 0.0 < Dot(h[k].y, h[k].y)
    {
      var e := h[k];
      DivPositive(1.0, Dot(e.s, e.y));
      NormSqNonnegative(e.y);
      if Dot(e.y, e.y) == 0.0 {
        NormSqZeroMeansZeros(e.y);
        DotWithZeros(e.s, e.y);
        assert false;
      }
    }
    if |h| > 0 {
      var last := h[|h| - 1];
      DivPositive(Dot(last.s, last.y), Dot(last.y, last.y));
    }
  }

  lemma DotNeg(a: Vector, b: Vector)
    requires |a| == |b|
    ensures Dot(a, Neg(b)) == -Dot(a, b)
  {
    assert Neg(b) == Scale(-1.0, b);
    DotScaled(a, -1.0, b);
  }

  /** The direction from an admitted history is a descent direction: g.d < 0
      for every non-zero gradient. */
  lemma DirectionIsDescent(g: Vector, h: seq<StepHistory>, m: int)
    requires ValidHistory(h, |g|, m)
    ensures DirectionReady(h, |g|)
    ensures 0.0 < NormSq(g) ==> Dot(g, Direction(g, h)) < 0.0
  {
    AdmissibleIsReady(h, |g|, m);
    InverseHessianPositive(h, Gamma(h), g);
    DotNeg(g, InverseHessianTimes(h, Gamma(h), g));
  }

  // =====================================================================
  // Backtracking line search

  /** The k-th step tried: the initial step halved k times. */
  function TrialStep(initial: real, k: nat): real
  {
    if k == 0 then initial else TrialStep(initial, k - 1) * 0.5
  }

  lemma {:induction false} TrialStepPositive(initial: real, k: nat)
    requires 0.0 < initial
    ensures 0.0 < TrialStep(initial, k) <= initial
  {
    if k > 0 {
      TrialStepPositive(initial, k - 1);
    }
  }

  /** The sufficient-decrease condition f(x + t d) <= f(x) + c1 t (g.d). */
  predicate Armijo(f: Objective, x: Vector, g: Vector, d: Vector, c1: real, step: real)
    requires |x| == |g| == |d|
  {
    f(Add(x, Scale(step, d))) <= SufficientDecrease(f(x), c1, step, Dot(g, d))
  }

  /** The Armijo bound phi(0) + c1 t phi'(0). */
  function SufficientDecrease(phi0: real, c1: real, step: real, slope: real): real
  {
    phi0 + c1 * step * slope
  }

  /** The number of halvings done: the first k >= from whose step passes the
      test, or MaxHalvings when none of them does. */
  function Halvings(f: Objective, x: Vector, g: Vector, d: Vector, c1: real, initial: real, from: nat): nat
    requires |x| == |g| == |d| && from <= MaxHalvings
    decreases MaxHalvings - from
  {
    if from == MaxHalvings then MaxHalvings
    else if Armijo(f, x, g, d, c1, TrialStep(initial, from)) then from
    else Halvings(f, x, g, d, c1, initial, from + 1)
  }

  function LineSearchStep(f: Objective, x: Vector, g: Vector, d: Vector, c1: real, initial: real): real
    requires |x| == |g| == |d|
  {
    TrialStep(initial, Halvings(f, x, g, d, c1, initial, 0))
  }

  lemma {:induction false} HalvingsFirst(f: Objective, x: Vector, g: Vector, d: Vector, c1: real, initial: real, from: nat)
    requires |x| == |g| == |d| && from <= MaxHalvings
    ensures var k := Halvings(f, x, g, d, c1, initial, from);
      && from <= k <= MaxHalvings
      && (k < MaxHalvings ==> Armijo(f, x, g, d, c1, TrialStep(initial, k)))
      && (forall j :: from <= j < k ==> !Armijo(f, x, g, d, c1, TrialStep(initial, j)))
    decreases MaxHalvings - from
  {
    if from < MaxHalvings && !Armijo(f, x, g, d, c1, TrialStep(initial, from)) {
      HalvingsFirst(f, x, g, d, c1, initial, from + 1);
    } else {
      assert Halvings(f, x, g, d, c1, initial, from) == from;
    }
  }

  /** The step is initial * 2^-k with 0 <= k <= 20; it passes the Armijo test
      when k < 20 (at k = 20 it was never tested), and each larger step
      initial * 2^-j, j < k, failed the test. */
  lemma LineSearchOutcome(f: Objective, x: Vector, g: Vector, d: Vector, c1: real, initial: real)
    requires |x| == |g| == |d|
    ensures exists k: nat ::
      && k <= MaxHalvings
      && LineSearchStep(f, x, g, d, c1, initial) == TrialStep(initial, k)
      && (k < MaxHalvings ==> Armijo(f, x, g, d, c1, LineSearchStep(f, x, g, d, c1, initial)))
      && (forall j :: 0 <= j < k ==> !Armijo(f, x, g, d, c1, TrialStep(initial, j)))
    ensures 0.0 < initial ==> 0.0 < LineSearchStep(f, x, g, d, c1, initial)
  {
    var k := Halvings(f, x, g, d, c1, initial, 0);
    HalvingsFirst(f, x, g, d, c1, initial, 0);
    if 0.0 < initial {
      TrialStepPositive(initial, k);
    }
  }

  // =====================================================================
  // Outer loop

  /** The loop's variables between iterations. */
  datatype State = State(x: Vector, g: Vector, history: seq<StepHistory>)

  predicate ValidState(st: State, n: nat, m: int)
  {
    |st.x| == n && |st.g| == n && ValidHistory(st.history, n, m)
  }

  /** The norm test ||g|| < tol, stated without the square root. */
  predicate BelowTolerance(g: Vector, tol: real)
  {
    0.0 < tol && NormSq(g) < tol * tol
  }

  /** For any square root, ||g|| < tol holds exactly when BelowTolerance does. */
  lemma NormTestWithoutSqrt(sqrt: real -> real, g: Vector, tol: real)
    requires IsSqrt(sqrt)
    ensures sqrt(NormSq(g)) < tol <==> BelowTolerance(g, tol)
  {
    NormSqNonnegative(g);
    var r := sqrt(NormSq(g));
    assert 0.0 <= r && Sq(r) == NormSq(g);
    if r < tol {
      SquareStrictlyMonotone(r, tol);
    }
    if BelowTolerance(g, tol) && tol <= r {
      if tol < r {
        SquareStrictlyMonotone(tol, r);
      }
      assert false;
    }
  }

  /** One iteration after a failed norm test, with history depth m, Armijo
      coefficient c1 and initial step alpha0: direction, line search, move,
      new gradient estimate, history update. */
  function Advance(f: Objective, m: int, c1: real, alpha0: real, st: State): (next: State)
    requires Capacity(m) > 0 && ValidState(st, |st.x|, m)
    ensures ValidState(next, |st.x|, m)
  {
    AdmissibleIsReady(st.history, |st.x|, m);
    var d := Direction(st.g, st.history);
    var alpha := LineSearchStep(f, st.x, st.g, d, c1, alpha0);
    var xNext := Add(st.x, Scale(alpha, d));
    var gNext := Gradient(f, xNext);
    AdmitKeepsValid(st.history, Sub(xNext, st.x), Sub(gNext, st.g), m, |st.x|);
    State(xNext, gNext, Admit(st.history, Sub(xNext, st.x), Sub(gNext, st.g), m))
  }

  /** The state after k completed iterations, from the start x0, with history
      depth m, Armijo coefficient c1 and initial step alpha0. */
  function Iterate(f: Objective, m: int, c1: real, alpha0: real, x0: Vector, k: nat): (st: State)
    requires Capacity(m) > 0
    ensures ValidState(st, |x0|, m)
    decreases k, 0
  {
    if k == 0 then State(x0, Gradient(f, x0), []) else IterateNext(f, m, c1, alpha0, x0, k - 1)
  }

  /** The state after k + 1 completed iterations. */
  function IterateNext(f: Objective, m: int, c1: real, alpha0: real, x0: Vector, k: nat): (next: State)
    requires Capacity(m) > 0
    ensures ValidState(next, |x0|, m)
    decreases k, 1
  {
    Advance(f, m, c1, alpha0, Iterate(f, m, c1, alpha0, x0, k))
  }

  /** The state after k completed iterations under configuration cfg. An
      iteration reads the history depth, the Armijo coefficient and the
      initial step of the configuration, and nothing else of it. */
  function After(f: Objective, cfg: Config, x0: Vector, k: nat): (st: State)
    requires Capacity(cfg.m) > 0
    ensures ValidState(st, |x0|, cfg.m)
  {
    Iterate(f, cfg.m, cfg.wolfeC1, cfg.stepAlpha, x0, k)
  }

  /** Proof step (an unfolding of `Iterate`): the first state is the start with
      its gradient estimate and an empty history; each later one is one
      iteration from the one before. */
  lemma AfterStep(f: Objective, cfg: Config, x0: Vector, k: nat)
    requires Capacity(cfg.m) > 0
    ensures After(f, cfg, x0, 0) == State(x0, Gradient(f, x0), [])
    ensures After(f, cfg, x0, k + 1) == Advance(f, cfg.m, cfg.wolfeC1, cfg.stepAlpha, After(f, cfg, x0, k))
  {
    assert Iterate(f, cfg.m, cfg.wolfeC1, cfg.stepAlpha, x0, k + 1)
        == IterateNext(f, cfg.m, cfg.wolfeC1, cfg.stepAlpha, x0, k);
  }

  /** Every iterate carries the gradient estimate at its point. */
  lemma IterateGradient(f: Objective, cfg: Config, x0: Vector, k: nat)
    requires Capacity(cfg.m) > 0
    ensures After(f, cfg, x0, k).g == Gradient(f, After(f, cfg, x0, k).x)
  {
    if k > 0 {
      AfterStep(f, cfg, x0, k - 1);
    }
  }

  /** The run from iteration k on, the state being the k-th iterate: it stops,
      converged, as soon as the norm test passes, and unconverged when the
      budget is spent. `iterations` holds the index of the last completed
      iteration and is unset when none completed. */
  function Run(f: Objective, cfg: Config, x0: Vector, k: nat): OptimizationResult
    requires Capacity(cfg.m) > 0
    decreases cfg.maxIter - k
  {
    var st := After(f, cfg, x0, k);
    if k < cfg.maxIter && NormTestFails(f, cfg, x0, k) then
      Run(f, cfg, x0, k + 1)
    else
      OptimizationResult(st.x, f(st.x), if k == 0 then None else Some(k - 1), k < cfg.maxIter)
  }

  /** The norm test fails at the k-th iterate. */
  predicate NormTestFails(f: Objective, cfg: Config, x0: Vector, k: nat)
    requires Capacity(cfg.m) > 0
  {
    !BelowTolerance(After(f, cfg, x0, k).g, cfg.gTol)
  }

  /** Proof step (an unfolding of `Run`): a failed norm test within the budget
      moves the run on to the next iterate. */
  lemma RunContinues(f: Objective, cfg: Config, x0: Vector, k: nat)
    requires Capacity(cfg.m) > 0
    requires k < cfg.maxIter && NormTestFails(f, cfg, x0, k)
    ensures Run(f, cfg, x0, k) == Run(f, cfg, x0, k + 1)
  {
  }

  /** Proof step (an unfolding of `Run`): a passed norm test, or a spent budget,
      ends the run at the k-th iterate. */
  lemma RunEnds(f: Objective, cfg: Config, x0: Vector, k: nat)
    requires Capacity(cfg.m) > 0
    requires cfg.maxIter <= k || !NormTestFails(f, cfg, x0, k)
    ensures var st := After(f, cfg, x0, k);
      Run(f, cfg, x0, k) == OptimizationResult(st.x, f(st.x), if k == 0 then None else Some(k - 1), k < cfg.maxIter)
  {
  }

  /** The result of a run from x0. */
  function Outcome(f: Objective, cfg: Config, x0: Vector): OptimizationResult
    requires Capacity(cfg.m) > 0
  {
    Run(f, cfg, x0, 0)
  }

  /** The norm test failed at each of the iterates 0 to k-1. */
  ghost predicate RanPast(f: Objective, cfg: Config, x0: Vector, k: nat)
    requires Capacity(cfg.m) > 0
  {
    k == 0 || (RanPast(f, cfg, x0, k - 1) && NormTestFails(f, cfg, x0, k - 1))
  }

  lemma {:induction false} RanPastMeans(f: Objective, cfg: Config, x0: Vector, k: nat)
    requires Capacity(cfg.m) > 0
    ensures RanPast(f, cfg, x0, k) <==> forall j :: 0 <= j < k ==> NormTestFails(f, cfg, x0, j)
  {
    if k > 0 {
      RanPastMeans(f, cfg, x0, k - 1);
    }
  }

  /** A run reaches the k-th iterate whenever the norm test failed at the
      earlier ones within the budget. */
  lemma {:induction false} RunReaches(f: Objective, cfg: Config, x0: Vector, k: nat)
    requires Capacity(cfg.m) > 0
    requires (k == 0 || k <= cfg.maxIter) && RanPast(f, cfg, x0, k)
    ensures Outcome(f, cfg, x0) == Run(f, cfg, x0, k)
  {
    if k > 0 {
      RunReaches(f, cfg, x0, k - 1);
      RunContinues(f, cfg, x0, k - 1);
    }
  }

  /** The result of a run that stops at the k-th iterate. */
  lemma OutcomeAt(f: Objective, cfg: Config, x0: Vector, k: nat)
    requires Capacity(cfg.m) > 0
    requires (k == 0 || k <= cfg.maxIter) && RanPast(f, cfg, x0, k)
    requires cfg.maxIter <= k || !NormTestFails(f, cfg, x0, k)
    ensures var st := After(f, cfg, x0, k);
      Outcome(f, cfg, x0) == OptimizationResult(st.x, f(st.x), if k == 0 then None else Some(k - 1), k < cfg.maxIter)
  {
    RunReaches(f, cfg, x0, k);
    RunEnds(f, cfg, x0, k);
  }

  // The loop of the optimiser is proved against the two predicates below,
  // through the lemmas Proceed and Finish.

  /** st is the state after k completed iterations. */
  ghost predicate IsIterate(f: Objective, cfg: Config, x0: Vector, k: nat, st: State)
    requires Capacity(cfg.m) > 0
  {
    st == After(f, cfg, x0, k)
  }

  /** The run from the k-th iterate on yields the result of the whole run. */
  ghost predicate OnCourse(f: Objective, cfg: Config, x0: Vector, k: nat)
    requires Capacity(cfg.m) > 0
  {
    Run(f, cfg, x0, k) == Outcome(f, cfg, x0)
  }

  lemma Proceed(f: Objective, cfg: Config, x0: Vector, k: nat, st: State)
    requires Capacity(cfg.m) > 0
    requires IsIterate(f, cfg, x0, k, st) && OnCourse(f, cfg, x0, k)
    requires k < cfg.maxIter && !BelowTolerance(st.g, cfg.gTol)
    ensures OnCourse(f, cfg, x0, k + 1)
  {
    RunContinues(f, cfg, x0, k);
  }

  lemma Finish(f: Objective, cfg: Config, x0: Vector, k: nat, st: State)
    requires Capacity(cfg.m) > 0
    requires IsIterate(f, cfg, x0, k, st) && OnCourse(f, cfg, x0, k)
    requires cfg.maxIter <= k || BelowTolerance(st.g, cfg.gTol)
    ensures Outcome(f, cfg, x0) == OptimizationResult(st.x, f(st.x), if k == 0 then None else Some(k - 1), k < cfg.maxIter)
  {
    RunEnds(f, cfg, x0, k);
  }

  /** A run that stopped after k completed iterations: the norm test failed at
      every earlier iterate; the result is the k-th iterate and its value; the
      run converged exactly when it stopped before the budget, and then the
      last gradient passed the norm test; `iterations` is k-1, or unset. */
  ghost predicate StoppedAfter(f: Objective, cfg: Config, x0: Vector, k: nat, res: OptimizationResult)
    requires Capacity(cfg.m) > 0
  {
    && (k == 0 || k <= cfg.maxIter)
    && RanPast(f, cfg, x0, k)
    && res.xBest == After(f, cfg, x0, k).x
    && res.minValue == f(res.xBest)
    && (res.converged <==> k < cfg.maxIter)
    && (res.converged ==> BelowTolerance(Gradient(f, res.xBest), cfg.gTol))
    && res.iterations == (if k == 0 then None else Some(k - 1))
  }

  lemma {:induction false} RunStops(f: Objective, cfg: Config, x0: Vector, j: nat) returns (k: nat)
    requires Capacity(cfg.m) > 0
    requires (j == 0 || j <= cfg.maxIter) && RanPast(f, cfg, x0, j)
    ensures j <= k && StoppedAfter(f, cfg, x0, k, Run(f, cfg, x0, j))
    decreases cfg.maxIter - j
  {
    if j < cfg.maxIter && NormTestFails(f, cfg, x0, j) {
      k := RunStops(f, cfg, x0, j + 1);
    } else {
      k := j;
      IterateGradient(f, cfg, x0, k);
    }
  }

  /** What a run returns, in terms of the iterates: for some k, the norm test
      failed at iterates 0 to k-1, and the result is as StoppedAfter says. */
  lemma OutcomeStopsAfter(f: Objective, cfg: Config, x0: Vector)
    requires Capacity(cfg.m) > 0
    ensures exists k: nat :: StoppedAfter(f, cfg, x0, k, Outcome(f, cfg, x0))
  {
    var k := RunStops(f, cfg, x0, 0);
    assert StoppedAfter(f, cfg, x0, k, Outcome(f, cfg, x0));
  }

  lemma {:induction false} RunIgnoresC2(f: Objective, cfg: Config, x0: Vector, c2: real, k: nat)
    requires Capacity(cfg.m) > 0
    ensures Run(f, cfg.(wolfeC2 := c2), x0, k) == Run(f, cfg, x0, k)
    decreases cfg.maxIter - k
  {
    if k < cfg.maxIter && NormTestFails(f, cfg, x0, k) {
      RunIgnoresC2(f, cfg, x0, c2, k + 1);
    }
  }

  /** The curvature coefficient wolfe_c2 has no effect on a run. */
  lemma WolfeC2Unused(f: Objective, cfg: Config, x0: Vector, c2: real)
    requires Capacity(cfg.m) > 0
    ensures Outcome(f, cfg.(wolfeC2 := c2), x0) == Outcome(f, cfg, x0)
  {
    RunIgnoresC2(f, cfg, x0, c2, 0);
  }

  /** A constant objective (a flat penalty) stops at once: its estimated
      gradient is zero, so the first norm test passes. */
  lemma FlatObjectiveStopsAtOnce(penalty: real, cfg: Config, x0: Vector)
    requires Capacity(cfg.m) > 0 && 0 < cfg.maxIter && 0.0 < cfg.gTol
    ensures Outcome(_ => penalty, cfg, x0) == OptimizationResult(x0, penalty, None, true)
  {
    var g := Gradient(_ => penalty, x0);
    assert forall i :: 0 <= i < |g| ==> g[i] == 0.0;
    DotWithZeros(g, g);
    SquarePositive(cfg.gTol);
  }

  // =====================================================================
  // The optimiser

  class LBFGSOptimizer {
    /** Fixed at construction; there is no way to change it afterwards. */
    const config: Config

    constructor (config: Config)
      ensures this.config == config
    {
      this.config := config;
    }

    method EstimateGradient(f: Objective, x: Vector) returns (g: Vector)
      ensures g == Gradient(f, x)
    {
      g := Zeros(|x|);
      var i := 0;
      while i < |x|
        invariant 0 <= i <= |x| && |g| == |x|
        invariant forall k :: 0 <= k < i ==> g[k] == CentralDifference(f, x, k)
      {
        var xPlus := x;
        var xMinus := x;
        xPlus := xPlus[i := xPlus[i] + H];
        xMinus := xMinus[i := xMinus[i] - H];
        g := g[i := (f(xPlus) - f(xMinus)) / (2.0 * H)];
        i := i + 1;
      }
    }

    /** The first loop of the two-loop recursion, newest pair first: it
        records alpha_i = rho_i s_i.q and subtracts alpha_i y_i from q. */
    method FirstPass(g: Vector, history: seq<StepHistory>) returns (q: Vector, alphas: seq<real>)
      requires Dims(history, |g|)
      ensures q == FirstLoop(g, history, 0) && alphas == Alphas(g, history)
    {
      q := g;
      alphas := seq(|history|, _ => 0.0);
      var i := |history| - 1;
      while i >= 0
        invariant -1 <= i < |history| && |alphas| == |history|
        invariant q == FirstLoop(g, history, i + 1)
        invariant forall k :: i < k < |history| ==> alphas[k] == Alpha(g, history, k)
      {
        alphas := alphas[i := Weighted(history[i].rho, history[i].s, q)];
        q := Sub(q, Scale(alphas[i], history[i].y));
        i := i - 1;
      }
      assert forall k :: 0 <= k < |history| ==> alphas[k] == Alphas(g, history)[k];
    }

    /** The second loop, oldest pair first: it adds (alpha_i - rho_i y_i.q) s_i
        to q. */
    method SecondPass(history: seq<StepHistory>, alphas: seq<real>, q0: Vector) returns (q: Vector)
      requires Dims(history, |q0|) && |alphas| == |history|
      ensures q == SecondLoop(history, alphas, q0, |history|)
    {
      q := q0;
      var i := 0;
      while i < |history|
        invariant 0 <= i <= |history|
        invariant q == SecondLoop(history, alphas, q0, i)
      {
        var beta := Weighted(history[i].rho, history[i].y, q);
        q := Add(q, Scale(alphas[i] - beta, history[i].s));
        i := i + 1;
      }
    }

    /** The two-loop recursion: -H g, with H0 = gamma I. */
    method ComputeDirection(g: Vector, history: seq<StepHistory>) returns (d: Vector)
      requires DirectionReady(history, |g|)
      ensures d == Direction(g, history)
    {
      var q, alphas := FirstPass(g, history);

      if |history| > 0 {
        var last := history[|history| - 1];
        var gamma := Dot(last.s, last.y) / Dot(last.y, last.y);
        q := Scale(gamma, q);
      } else {
        ScaleByOne(q);
      }

      q := SecondPass(history, alphas, q);
      TwoLoopRecursion(g, history, Gamma(history));
      d := Neg(q);
    }

    method LineSearch(f: Objective, x: Vector, g: Vector, d: Vector, initialStep: real) returns (step: real)
      requires |x| == |g| == |d|
      ensures step == LineSearchStep(f, x, g, d, config.wolfeC1, initialStep)
    {
      var c1 := config.wolfeC1;
      var phi0 := f(x);
      var phiPrime0 := Dot(g, d);
      step := initialStep;
      for i := 0 to MaxHalvings
        invariant step == TrialStep(initialStep, i)
        invariant Halvings(f, x, g, d, c1, initialStep, 0) == Halvings(f, x, g, d, c1, initialStep, i)
      {
        if f(Add(x, Scale(step, d))) <= SufficientDecrease(phi0, c1, step, phiPrime0) {
          return;
        }
        step := step * 0.5;
      }
    }

    /** One pass of the loop body after a failed norm test: direction, line
        search, move, new gradient, and the admission of the curvature pair
        when y.s exceeds the threshold, dropping the oldest at capacity. */
    method Iteration(f: Objective, ghost x0: Vector, ghost k: nat, x: Vector, g: Vector, history: seq<StepHistory>)
      returns (xNext: Vector, gNext: Vector, historyNext: seq<StepHistory>)
      requires Capacity(config.m) > 0 && IsIterate(f, config, x0, k, State(x, g, history))
      requires OnCourse(f, config, x0, k) && k < config.maxIter && !BelowTolerance(g, config.gTol)
      ensures IsIterate(f, config, x0, k + 1, State(xNext, gNext, historyNext))
      ensures OnCourse(f, config, x0, k + 1)
    {
      Proceed(f, config, x0, k, State(x, g, history));
      AfterStep(f, config, x0, k);
      AdmissibleIsReady(history, |x|, config.m);
      var d := ComputeDirection(g, history);
      var alpha := LineSearch(f, x, g, d, config.stepAlpha);

      xNext := Add(x, Scale(alpha, d));
      gNext := EstimateGradient(f, xNext);

      var s := Sub(xNext, x);
      var y := Sub(gNext, g);
      var sy := Dot(s, y);
      historyNext := history;
      if sy > CurvatureEps {
        if |historyNext| >= Capacity(config.m) {
          historyNext := historyNext[1..];
        }
        historyNext := historyNext + [StepHistory(s, y, 1.0 / sy)];
      }
      assert historyNext == Admit(history, s, y, config.m);
    }

    /** The bounds are accepted and ignored. */
    method Minimize(f: Objective, x0: Vector, lowerBounds: Vector, upperBounds: Vector)
      returns (res: OptimizationResult)
      requires Capacity(config.m) > 0
      ensures res == Outcome(f, config, x0)
    {
      var converged := false;
      var iterations: Option<int> := None;

      var history: seq<StepHistory> := [];
      var x := x0;
      var g := EstimateGradient(f, x);

      var iter: nat := 0;
      while iter < config.maxIter
        invariant !converged
        invariant IsIterate(f, config, x0, iter, State(x, g, history))
        invariant OnCourse(f, config, x0, iter)
        invariant iterations == if iter == 0 then None else Some(iter - 1)
        decreases config.maxIter - iter
      {
        if BelowTolerance(g, config.gTol) {
          converged := true;
          break;
        }
        x, g, history := Iteration(f, x0, iter, x, g, history);
        iterations := Some(iter);
        iter := iter + 1;
      }

      Finish(f, config, x0, iter, State(x, g, history));
      res := OptimizationResult(x, f(x), iterations, converged);
    }
  }
}
