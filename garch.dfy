/** The GARCH(1,1) variance filter: from a demeaned return series and the
    parameters (omega, alpha, beta), the conditional variances
    sigma^2_0 = mean of r^2 and sigma^2_t = omega + alpha r_{t-1}^2 + beta sigma^2_{t-1}. */
module Garch {
  import opened LinAlg

  datatype GarchParams = GarchParams(omega: real, alpha: real, beta: real)

  /** One step of the recursion. */
  function Update(p: GarchParams, r: real, previous: real): real
  {
    p.omega + Mul(p.alpha, Sq(r)) + Mul(p.beta, previous)
  }

  /** The mean of the squared returns, where the recursion starts. */
  function InitialVariance(series: Vector): real
    requires |series| > 0
  {
    NormSq(series) / (|series| as real)
  }

  /** s is the filtered variance series of the returns under p. */
  predicate IsFiltered(series: Vector, p: GarchParams, s: Vector)
  {
    && |s| == |series| > 0
    && s[0] == InitialVariance(series)
    && forall t :: 1 <= t < |s| ==> s[t] == Update(p, series[t - 1], s[t - 1])
  }

  /** Fills the variances index by index from the previous entry. */
  method Filter(series: Vector, params: GarchParams) returns (sigmasSq: Vector)
    requires |series| >= 1
    ensures IsFiltered(series, params, sigmasSq)
  {
    var n := |series|;
    var s := new real[n];
    var initialVariance := NormSq(series) / (n as real);
    s[0] := initialVariance;
    for t := 1 to n
      invariant s[0] == initialVariance
      invariant forall u :: 1 <= u < t ==> s[u] == Update(params, series[u - 1], s[u - 1])
    {
      s[t] := params.omega + Mul(params.alpha, Sq(series[t - 1])) + Mul(params.beta, s[t - 1]);
    }
    sigmasSq := s[..];
  }

  /** The recursion determines the variances: two filtered series agree. */
  lemma {:induction false} FilterUnique(series: Vector, p: GarchParams, s1: Vector, s2: Vector, t: nat)
    requires IsFiltered(series, p, s1) && IsFiltered(series, p, s2) && t < |series|
    ensures s1[..t + 1] == s2[..t + 1]
  {
    if t > 0 {
      FilterUnique(series, p, s1, s2, t - 1);
      assert s1[t - 1] == s1[..t][t - 1] && s2[t - 1] == s2[..t][t - 1];
      assert s1[..t + 1] == s1[..t] + [s1[t]] && s2[..t + 1] == s2[..t] + [s2[t]];
    }
  }

  lemma FilteredIsUnique(series: Vector, p: GarchParams, s1: Vector, s2: Vector)
    requires IsFiltered(series, p, s1) && IsFiltered(series, p, s2)
    ensures s1 == s2
  {
    FilterUnique(series, p, s1, s2, |series| - 1);
    assert s1 == s1[..|series|] && s2 == s2[..|series|];
  }

  predicate Admissible(p: GarchParams)
  {
    0.0 < p.omega && 0.0 <= p.alpha && 0.0 <= p.beta
  }

  /** With omega > 0 and alpha, beta >= 0 the starting variance is
      non-negative and every later variance is positive. */
  lemma {:induction false} FilterPositive(series: Vector, p: GarchParams, s: Vector, t: nat)
    requires IsFiltered(series, p, s) && Admissible(p) && t < |s|
    ensures 0.0 <= s[0]
    ensures 1 <= t ==> 0.0 < s[t]
  {
    NormSqNonnegative(series);
    if t == 0 {
      DivNonnegative(NormSq(series), |series| as real);
    } else {
      FilterPositive(series, p, s, t - 1);
      SquareNonnegative(series[t - 1]);
      MulNonnegative(p.alpha, Sq(series[t - 1]));
      MulNonnegative(p.beta, s[t - 1]);
    }
  }

  /** Larger parameters never give smaller variances. */
  lemma {:induction false} FilterMonotone(series: Vector, p: GarchParams, q: GarchParams, s: Vector, u: Vector, t: nat)
    requires IsFiltered(series, p, s) && IsFiltered(series, q, u) && t < |s|
    requires Admissible(p) && p.omega <= q.omega && p.alpha <= q.alpha && p.beta <= q.beta
    ensures s[t] <= u[t]
  {
    if t > 0 {
      FilterMonotone(series, p, q, s, u, t - 1);
      FilterPositive(series, p, s, t - 1);
      SquareNonnegative(series[t - 1]);
      UpdateMonotone(p, q, series[t - 1], s[t - 1], u[t - 1]);
    }
  }

  lemma UpdateMonotone(p: GarchParams, q: GarchParams, r: real, a: real, b: real)
    requires Admissible(p) && p.omega <= q.omega && p.alpha <= q.alpha && p.beta <= q.beta
    requires 0.0 <= a <= b
    ensures Update(p, r, a) <= Update(q, r, b)
  {
    SquareNonnegative(r);
    MulNonnegative(q.alpha - p.alpha, Sq(r));
    MulNonnegative(q.beta - p.beta, a);
    MulNonnegative(q.beta, b - a);
    assert Mul(q.alpha, Sq(r)) - Mul(p.alpha, Sq(r)) == Mul(q.alpha - p.alpha, Sq(r));
    assert Mul(q.beta, b) - Mul(p.beta, a) == Mul(q.beta - p.beta, a) + Mul(q.beta, b - a);
  }
}
