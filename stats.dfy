/** The moment statistics of a sample: mean, variance, standard deviation,
    skewness and kurtosis, each with its size guard. A quotient by a zero
    standard deviation has no real value and is `None`. */
module Statistics {
  import opened Wrappers
  import opened LinAlg

  predicate IsConstant(v: Vector)
  {
    forall i, j :: 0 <= i < |v| && 0 <= j < |v| ==> v[i] == v[j]
  }

  /** The sample with its mean subtracted. */
  function Centered(v: Vector): (c: Vector)
    requires |v| > 0
    ensures |c| == |v|
  {
    Deviations(v, Mean(v))
  }

  /** v with c added to every element. */
  function Shift(v: Vector, c: real): (w: Vector)
    ensures |w| == |v|
  {
    seq(|v|, i requires 0 <= i < |v| => v[i] + c)
  }

  function Pow(a: real, k: nat): real
  {
    if k == 0 then 1.0 else a * Pow(a, k - 1)
  }

  /** Every element raised to the k-th power. */
  function Powers(v: Vector, k: nat): (w: Vector)
    ensures |w| == |v|
  {
    seq(|v|, i requires 0 <= i < |v| => Pow(v[i], k))
  }

  // ---------------------------------------------------------------------
  // Mean

  lemma {:induction false} SumOfDeviations(v: Vector, c: real)
    ensures Sum(Deviations(v, c)) == Sum(v) - (|v| as real) * c
  {
    if |v| > 0 {
      var init := v[..|v| - 1];
      assert Deviations(v, c)[..|v| - 1] == Deviations(init, c);
      SumOfDeviations(init, c);
    }
  }

  lemma {:induction false} SumOfShift(v: Vector, c: real)
    ensures Sum(Shift(v, c)) == Sum(v) + (|v| as real) * c
  {
    if |v| > 0 {
      var init := v[..|v| - 1];
      assert Shift(v, c)[..|v| - 1] == Shift(init, c);
      SumOfShift(init, c);
    }
  }

  lemma {:induction false} SumBounds(v: Vector, lo: real, hi: real)
    requires forall i :: 0 <= i < |v| ==> lo <= v[i] <= hi
    ensures (|v| as real) * lo <= Sum(v) <= (|v| as real) * hi
  {
    if |v| > 0 {
      SumBounds(v[..|v| - 1], lo, hi);
    }
  }

  /** The deviations from the mean sum to zero. */
  lemma CenteredSumsToZero(v: Vector)
    requires |v| > 0
    ensures Sum(Centered(v)) == 0.0
  {
    SumOfDeviations(v, Mean(v));
  }

  /** The mean lies between any lower and upper bound of the sample. */
  lemma MeanBounds(v: Vector, lo: real, hi: real)
    requires |v| > 0
    requires forall i :: 0 <= i < |v| ==> lo <= v[i] <= hi
    ensures lo <= Mean(v) <= hi
  {
    SumBounds(v, lo, hi);
  }

  /** Adding a constant to the sample adds it to the mean and leaves the
      deviations unchanged. */
  lemma CenteredShift(v: Vector, c: real)
    requires |v| > 0
    ensures Mean(Shift(v, c)) == Mean(v) + c
    ensures Centered(Shift(v, c)) == Centered(v)
  {
    SumOfShift(v, c);
    var n := |v| as real;
    assert (Sum(v) + n * c) / n == Sum(v) / n + c;
  }

  lemma MeanOfConstant(v: Vector)
    requires |v| > 0 && IsConstant(v)
    ensures Mean(v) == v[0]
  {
    SumBounds(v, v[0], v[0]);
  }

  /** The deviations are all zero exactly when the sample is constant. */
  lemma CenteredZeroIffConstant(v: Vector)
    requires |v| > 0
    ensures NormSq(Centered(v)) == 0.0 <==> IsConstant(v)
  {
    var c := Centered(v);
    if NormSq(c) == 0.0 {
      NormSqZeroMeansZeros(c);
      assert forall i :: 0 <= i < |v| ==> v[i] == Mean(v) by {
        forall i | 0 <= i < |v| ensures v[i] == Mean(v) {
          assert c[i] == v[i] - Mean(v);
        }
      }
    }
    if IsConstant(v) {
      MeanOfConstant(v);
      assert forall i :: 0 <= i < |c| ==> c[i] == 0.0;
      DotWithZeros(c, c);
    }
  }

  // ---------------------------------------------------------------------
  // Variance and standard deviation

  /** Sum of squared deviations over n - 1 (unbiased) or n; 0 below two
      observations. */
  function Variance(data: Vector, unbiased: bool := true): (r: real)
    ensures |data| < 2 ==> r == 0.0
    ensures 0.0 <= r
  {
    if |data| < 2 then 0.0
    else
      NormSqNonnegative(Centered(data));
      DivNonnegative(NormSq(Centered(data)), (|data| - (if unbiased then 1 else 0)) as real);
      NormSq(Centered(data)) / ((|data| - (if unbiased then 1 else 0)) as real)
  }

  /** The variance is zero exactly when the sample is constant (a sample of
      fewer than two observations is constant). */
  lemma VarianceZeroIffConstant(data: Vector, unbiased: bool)
    ensures Variance(data, unbiased) == 0.0 <==> IsConstant(data)
  {
    if |data| >= 2 {
      CenteredZeroIffConstant(data);
    }
  }

  /** The biased variance is (n - 1) / n times the unbiased one. */
  lemma BiasedVariance(data: Vector)
    ensures (|data| as real) * Variance(data, false) == ((|data| - 1) as real) * Variance(data, true)
  {
    if |data| >= 2 {
      var s := NormSq(Centered(data));
      var n := |data| as real;
      assert n * (s / n) == s;
      assert (n - 1.0) * (s / (n - 1.0)) == s;
    }
  }

  /** Adding a constant to the sample leaves its variance unchanged. */
  lemma VarianceShift(data: Vector, c: real, unbiased: bool)
    ensures Variance(Shift(data, c), unbiased) == Variance(data, unbiased)
  {
    if |data| >= 2 {
      CenteredShift(data, c);
    }
  }

  /** The square root of the unbiased variance. */
  function StandardDeviation(sqrt: real -> real, data: Vector): (r: real)
    requires IsSqrt(sqrt)
    ensures 0.0 <= r && r * r == Variance(data)
  {
    sqrt(Variance(data))
  }

  lemma StandardDeviationZeroIffConstant(sqrt: real -> real, data: Vector)
    requires IsSqrt(sqrt)
    ensures StandardDeviation(sqrt, data) == 0.0 <==> IsConstant(data)
  {
    VarianceZeroIffConstant(data, true);
    var sd := StandardDeviation(sqrt, data);
    if sd != 0.0 {
      SquarePositive(sd);
    }
  }

  // ---------------------------------------------------------------------
  // Higher moments

  lemma {:induction false} PowPositive(a: real, k: nat)
    requires 0.0 < a
    ensures 0.0 < Pow(a, k)
  {
    if k > 0 {
      PowPositive(a, k - 1);
      MulPositive(a, Pow(a, k - 1));
    }
  }

  lemma FourthPowers(v: Vector)
    ensures forall i :: 0 <= i < |v| ==> 0.0 <= Powers(v, 4)[i]
  {
    forall i | 0 <= i < |v| ensures 0.0 <= Powers(v, 4)[i] {
      var a := v[i];
      assert Pow(a, 1) == a;
      assert Pow(a, 2) == Sq(a);
      assert Pow(a, 3) == a * Pow(a, 2);
      assert Pow(a, 4) == a * (a * Pow(a, 2));
      assert a * (a * Pow(a, 2)) == Sq(a) * Pow(a, 2);
      SquareNonnegative(Sq(a));
    }
  }

  /** Third central moment over the cubed standard deviation; 0 below three
      observations; no value for a constant sample (0 / 0). */
  function Skewness(sqrt: real -> real, data: Vector): (r: Option<real>)
    requires IsSqrt(sqrt)
    ensures |data| < 3 ==> r == Some(0.0)
    ensures |data| >= 3 ==> (r == None <==> IsConstant(data))
  {
    if |data| < 3 then Some(0.0)
    else
      var sd := StandardDeviation(sqrt, data);
      var m3 := Sum(Powers(Centered(data), 3)) / (|data| as real);
      StandardDeviationZeroIffConstant(sqrt, data);
      if sd == 0.0 then None
      else
        PowPositive(sd, 3);
        Some(m3 / Pow(sd, 3))
  }

  /** Fourth central moment over the fourth power of the standard deviation,
      less 3 when `excess`; 0 below four observations; no value for a constant
      sample. */
  function Kurtosis(sqrt: real -> real, data: Vector, excess: bool := true): (r: Option<real>)
    requires IsSqrt(sqrt)
    ensures |data| < 4 ==> r == Some(0.0)
    ensures |data| >= 4 ==> (r == None <==> IsConstant(data))
    ensures r.Some? && !excess ==> 0.0 <= r.value
  {
    if |data| < 4 then Some(0.0)
    else
      var sd := StandardDeviation(sqrt, data);
      var m4 := Sum(Powers(Centered(data), 4)) / (|data| as real);
      StandardDeviationZeroIffConstant(sqrt, data);
      if sd == 0.0 then None
      else
        FourthPowers(Centered(data));
        SumNonnegative(Powers(Centered(data), 4));
        PowPositive(sd, 4);
        DivNonnegative(m4, Pow(sd, 4));
        var k := m4 / Pow(sd, 4);
        Some(if excess then k - 3.0 else k)
  }

  /** Excess kurtosis is raw kurtosis less 3, from four observations on; below
      that both are 0. */
  lemma ExcessKurtosis(sqrt: real -> real, data: Vector)
    requires IsSqrt(sqrt)
    ensures |data| < 4 ==> Kurtosis(sqrt, data, true) == Kurtosis(sqrt, data, false) == Some(0.0)
    ensures |data| >= 4 && !IsConstant(data) ==>
      Kurtosis(sqrt, data, true) == Some(Kurtosis(sqrt, data, false).value - 3.0)
    ensures 4 <= |data| ==> Kurtosis(sqrt, data, true).Some? ==> -3.0 <= Kurtosis(sqrt, data, true).value
  {
  }

  /** Skewness and kurtosis do not change when a constant is added to the sample. */
  lemma HigherMomentsShift(sqrt: real -> real, data: Vector, c: real, excess: bool)
    requires IsSqrt(sqrt)
    ensures Skewness(sqrt, Shift(data, c)) == Skewness(sqrt, data)
    ensures Kurtosis(sqrt, Shift(data, c), excess) == Kurtosis(sqrt, data, excess)
  {
    if |data| > 0 {
      CenteredShift(data, c);
      VarianceShift(data, c, true);
    }
  }
}
