/** Covariance estimation from an n x p matrix of returns (rows are
    observations, columns are assets): the sample covariance and its
    Ledoit-Wolf shrinkage towards a constant-correlation target. */
module CovarianceEstimator {
  import opened LinAlg
  import opened Statistics

  /** Rows of equal length cols. */
  type Matrix = seq<seq<real>>

  predicate IsMatrix(m: Matrix, cols: nat)
  {
    forall i :: 0 <= i < |m| ==> |m[i]| == cols
  }

  predicate IsSquare(m: Matrix)
  {
    IsMatrix(m, |m|)
  }

  predicate Symmetric(m: Matrix)
    requires IsSquare(m)
  {
    forall i, j :: 0 <= i < |m| && 0 <= j < |m| ==> m[i][j] == m[j][i]
  }

  predicate PositiveDiagonal(m: Matrix)
    requires IsSquare(m)
  {
    forall i :: 0 <= i < |m| ==> 0.0 < m[i][i]
  }

  /** Every off-diagonal entry is bounded by the diagonal entries:
      m[i][j]^2 <= m[i][i] m[j][j], as for any covariance matrix. */
  predicate EntriesBounded(m: Matrix)
    requires IsSquare(m)
  {
    forall i, j :: 0 <= i < |m| && 0 <= j < |m| ==> Sq(m[i][j]) <= Mul(m[i][i], m[j][j])
  }

  function Column(data: Matrix, p: nat, a: nat): (col: Vector)
    requires IsMatrix(data, p) && a < p
    ensures |col| == |data|
  {
    seq(|data|, i requires 0 <= i < |data| => data[i][a])
  }

  // ---------------------------------------------------------------------
  // Sample covariance

  /** C^T C / (n - 1) with C the column-centred returns. */
  function SampleCovariance(data: Matrix, p: nat): (s: Matrix)
    requires IsMatrix(data, p) && |data| >= 2
    ensures |s| == p && IsSquare(s)
  {
    seq(p, a requires 0 <= a < p =>
      seq(p, b requires 0 <= b < p =>
        Dot(Centered(Column(data, p, a)), Centered(Column(data, p, b))) / ((|data| - 1) as real)))
  }

  /** The diagonal holds the unbiased variances of the columns. */
  lemma CovarianceDiagonal(data: Matrix, p: nat, a: nat)
    requires IsMatrix(data, p) && |data| >= 2 && a < p
    ensures SampleCovariance(data, p)[a][a] == Variance(Column(data, p, a))
  {
  }

  /** The sample covariance is symmetric with non-negative diagonal and
      satisfies the Cauchy-Schwarz bound. */
  lemma CovarianceIsCovariance(data: Matrix, p: nat)
    requires IsMatrix(data, p) && |data| >= 2
    ensures var s := SampleCovariance(data, p);
      Symmetric(s) && EntriesBounded(s) && forall a :: 0 <= a < p ==> 0.0 <= s[a][a]
  {
    var s := SampleCovariance(data, p);
    var k := (|data| - 1) as real;
    forall a, b | 0 <= a < p && 0 <= b < p
      ensures s[a][b] == s[b][a] && Sq(s[a][b]) <= Mul(s[a][a], s[b][b]) && 0.0 <= s[a][a]
    {
      var ca := Centered(Column(data, p, a));
      var cb := Centered(Column(data, p, b));
      DotCommutes(ca, cb);
      CauchySchwarz(ca, cb);
      NormSqNonnegative(ca);
      DivNonnegative(NormSq(ca), k);
      ScaledCauchySchwarz(Dot(ca, cb), NormSq(ca), NormSq(cb), k);
    }
  }

  lemma ScaledCauchySchwarz(ab: real, aa: real, bb: real, k: real)
    requires 0.0 < k && Sq(ab) <= aa * bb
    ensures Sq(ab / k) <= Mul(aa / k, bb / k)
  {
    var x, y, z := ab / k, aa / k, bb / k;
    assert ab == x * k && aa == y * k && bb == z * k;
    assert Sq(ab) == (x * x) * (k * k);
    assert aa * bb == (y * z) * (k * k);
    MulPositive(k, k);
    if y * z < x * x {
      MulPositive(x * x - y * z, k * k);
      assert false;
    }
  }

  /** A column that is not constant has a positive variance. */
  lemma PositiveVariances(data: Matrix, p: nat)
    requires IsMatrix(data, p) && |data| >= 2
    requires forall a :: 0 <= a < p ==> !IsConstant(Column(data, p, a))
    ensures PositiveDiagonal(SampleCovariance(data, p))
  {
    forall a | 0 <= a < p ensures 0.0 < SampleCovariance(data, p)[a][a] {
      CovarianceDiagonal(data, p, a);
      VarianceZeroIffConstant(Column(data, p, a), true);
    }
  }

  // ---------------------------------------------------------------------
  // Average correlation

  /** The correlation of assets i and j read off a covariance matrix. */
  function EntryCorrelation(sqrt: real -> real, s: Matrix, i: nat, j: nat): (r: real)
    requires IsSqrt(sqrt) && IsSquare(s) && PositiveDiagonal(s) && i < |s| && j < |s|
  {
    MulPositive(s[i][i], s[j][j]);
    SqrtPositive(sqrt, Mul(s[i][i], s[j][j]));
    s[i][j] / sqrt(Mul(s[i][i], s[j][j]))
  }

  lemma SqrtPositive(sqrt: real -> real, a: real)
    requires IsSqrt(sqrt) && 0.0 < a
    ensures 0.0 < sqrt(a) && Sq(sqrt(a)) == a
  {
  }

  /** A correlation computed from a covariance-like matrix lies in [-1, 1]. */
  lemma EntryCorrelationBound(sqrt: real -> real, s: Matrix, i: nat, j: nat)
    requires IsSqrt(sqrt) && IsSquare(s) && PositiveDiagonal(s) && EntriesBounded(s) && i < |s| && j < |s|
    ensures -1.0 <= EntryCorrelation(sqrt, s, i, j) <= 1.0
  {
    MulPositive(s[i][i], s[j][j]);
    SqrtPositive(sqrt, Mul(s[i][i], s[j][j]));
    UnitQuotient(s[i][j], sqrt(Mul(s[i][i], s[j][j])));
  }

  /** The correlations of asset i with assets i + 1 .. m - 1. */
  function RowSum(sqrt: real -> real, s: Matrix, i: nat, m: nat): real
    requires IsSqrt(sqrt) && IsSquare(s) && (|s| >= 2 ==> PositiveDiagonal(s)) && i < m <= |s|
    decreases m
  {
    if m == i + 1 then 0.0 else RowSum(sqrt, s, i, m - 1) + EntryCorrelation(sqrt, s, i, m - 1)
  }

  /** The correlations of all pairs i < j with i < m. */
  function PairSum(sqrt: real -> real, s: Matrix, m: nat): real
    requires IsSqrt(sqrt) && IsSquare(s) && (|s| >= 2 ==> PositiveDiagonal(s)) && m <= |s|
  {
    if m == 0 then 0.0 else PairSum(sqrt, s, m - 1) + RowSum(sqrt, s, m - 1, |s|)
  }

  /** The mean correlation over the p(p - 1)/2 pairs; 0 for fewer than two
      assets. */
  function AverageCorrelation(sqrt: real -> real, s: Matrix): (r: real)
    requires IsSqrt(sqrt) && IsSquare(s) && (|s| >= 2 ==> PositiveDiagonal(s))
    ensures |s| <= 1 ==> r == 0.0
  {
    var p := |s|;
    if p > 1 then 2.0 * PairSum(sqrt, s, p) / ((p * (p - 1)) as real) else 0.0
  }

  lemma {:induction false} RowSumBound(sqrt: real -> real, s: Matrix, i: nat, m: nat)
    requires IsSqrt(sqrt) && IsSquare(s) && PositiveDiagonal(s) && EntriesBounded(s) && i < m <= |s|
    ensures -((m - i - 1) as real) <= RowSum(sqrt, s, i, m) <= (m - i - 1) as real
    decreases m
  {
    if m > i + 1 {
      RowSumBound(sqrt, s, i, m - 1);
      EntryCorrelationBound(sqrt, s, i, m - 1);
    }
  }

  lemma {:induction false} PairSumBound(sqrt: real -> real, s: Matrix, m: nat)
    requires IsSqrt(sqrt) && IsSquare(s) && PositiveDiagonal(s) && EntriesBounded(s) && m <= |s|
    ensures -((m * (2 * |s| - m - 1)) as real) <= 2.0 * PairSum(sqrt, s, m) <= (m * (2 * |s| - m - 1)) as real
  {
    if m > 0 {
      PairSumBound(sqrt, s, m - 1);
      RowSumBound(sqrt, s, m - 1, |s|);
      assert m * (2 * |s| - m - 1) == (m - 1) * (2 * |s| - (m - 1) - 1) + 2 * (|s| - m);
    }
  }

  /** For a covariance-like matrix the average correlation lies in [-1, 1]. */
  lemma AverageCorrelationBound(sqrt: real -> real, s: Matrix)
    requires IsSqrt(sqrt) && IsSquare(s) && PositiveDiagonal(s) && EntriesBounded(s)
    ensures -1.0 <= AverageCorrelation(sqrt, s) <= 1.0
  {
    var p := |s|;
    if p > 1 {
      PairSumBound(sqrt, s, p);
      assert p * (2 * p - p - 1) == p * (p - 1);
      PairsPositive(p);
      QuotientBelow(2.0 * PairSum(sqrt, s, p), (p * (p - 1)) as real, 1.0);
      QuotientAbove(2.0 * PairSum(sqrt, s, p), (p * (p - 1)) as real, -1.0);
    }
  }

  lemma PairsPositive(p: nat)
    requires p > 1
    ensures p * (p - 1) > 0
  {
  }

  // ---------------------------------------------------------------------
  // Target, intensity and the shrunk estimate

  /** Off the diagonal, the average correlation times sqrt(s_ii s_jj); on
      it, the sample variance. */
  function TargetEntry(sqrt: real -> real, s: Matrix, averageCorr: real, i: nat, j: nat): real
    requires IsSquare(s) && i < |s| && j < |s|
  {
    if i != j then Mul(averageCorr, sqrt(Mul(s[i][i], s[j][j]))) else s[i][i]
  }

  function Target(sqrt: real -> real, s: Matrix, averageCorr: real): (f: Matrix)
    requires IsSquare(s)
    ensures |f| == |s| && IsSquare(f)
  {
    seq(|s|, i requires 0 <= i < |s| =>
      seq(|s|, j requires 0 <= j < |s| => TargetEntry(sqrt, s, averageCorr, i, j)))
  }

  /** The target keeps the diagonal, is symmetric, and keeps the bound of
      the entries by the diagonal when the average correlation is in [-1, 1]. */
  lemma TargetProperties(sqrt: real -> real, s: Matrix, averageCorr: real)
    requires IsSqrt(sqrt) && IsSquare(s) && PositiveDiagonal(s)
    ensures var f := Target(sqrt, s, averageCorr);
      && (forall i :: 0 <= i < |s| ==> f[i][i] == s[i][i])
      && Symmetric(f)
      && (-1.0 <= averageCorr <= 1.0 ==> EntriesBounded(f))
  {
    var f := Target(sqrt, s, averageCorr);
    forall i, j | 0 <= i < |s| && 0 <= j < |s|
      ensures f[i][j] == f[j][i]
      ensures -1.0 <= averageCorr <= 1.0 ==> Sq(f[i][j]) <= Mul(f[i][i], f[j][j])
    {
      assert Mul(s[i][i], s[j][j]) == Mul(s[j][j], s[i][i]);
      if i != j && -1.0 <= averageCorr <= 1.0 {
        MulPositive(s[i][i], s[j][j]);
        SqrtPositive(sqrt, Mul(s[i][i], s[j][j]));
        ScaledBound(averageCorr, sqrt(Mul(s[i][i], s[j][j])));
      } else if i == j {
        MulPositive(s[i][i], s[i][i]);
      }
    }
  }

  /** |c d| <= d for |c| <= 1 and d > 0, in squares. */
  lemma ScaledBound(c: real, d: real)
    requires -1.0 <= c <= 1.0 && 0.0 < d
    ensures Sq(Mul(c, d)) <= Sq(d)
  {
    assert Sq(Mul(c, d)) == Sq(c) * Sq(d);
    MulNonnegative(1.0 - c, 1.0 + c);
    assert Sq(c) == 1.0 - Mul(1.0 - c, 1.0 + c);
    MulNonnegative(1.0 - Sq(c), Sq(d));
  }

  /** std::clamp(v, lo, hi) for lo <= hi. */
  function Clamp(v: real, lo: real, hi: real): (r: real)
    requires lo <= hi
    ensures lo <= r <= hi
    ensures lo <= v <= hi ==> r == v
    ensures v < lo ==> r == lo
    ensures hi < v ==> r == hi
  {
    if v < lo then lo else if hi < v then hi else v
  }

  /** The ratio p / n of assets to observations, clamped to [0.01, 0.99];
      only the dimensions enter, not the sample matrix or the target. */
  function ShrinkageIntensity(p: nat, n: nat): (delta: real)
    requires n > 0
    ensures 0.01 <= delta <= 0.99
    ensures 0.01 <= (p as real) / (n as real) <= 0.99 ==> delta == (p as real) / (n as real)
    ensures (p as real) / (n as real) < 0.01 ==> delta == 0.01
    ensures 0.99 < (p as real) / (n as real) ==> delta == 0.99
  {
    Clamp((p as real) / (n as real), 0.01, 0.99)
  }

  /** More assets for the same observations never shrink less. */
  lemma ShrinkageIntensityMonotone(p1: nat, p2: nat, n: nat)
    requires n > 0 && p1 <= p2
    ensures ShrinkageIntensity(p1, n) <= ShrinkageIntensity(p2, n)
  {
    QuotientBelow(p1 as real, n as real, (p2 as real) / (n as real));
  }

  /** (1 - delta) s + delta f. */
  function Shrink(s: Matrix, f: Matrix, delta: real): (r: Matrix)
    requires IsSquare(s) && IsSquare(f) && |f| == |s|
    ensures |r| == |s| && IsSquare(r)
  {
    seq(|s|, i requires 0 <= i < |s| =>
      seq(|s|, j requires 0 <= j < |s| => Mul(1.0 - delta, s[i][j]) + Mul(delta, f[i][j])))
  }

  /** A convex combination of two matrices with the same diagonal keeps that
      diagonal, keeps symmetry, and keeps the bound of the entries by the
      diagonal. */
  lemma ShrinkProperties(s: Matrix, f: Matrix, delta: real)
    requires IsSquare(s) && IsSquare(f) && |f| == |s| && 0.0 <= delta <= 1.0
    requires forall i :: 0 <= i < |s| ==> f[i][i] == s[i][i]
    ensures var r := Shrink(s, f, delta);
      && (forall i :: 0 <= i < |s| ==> r[i][i] == s[i][i])
      && (Symmetric(s) && Symmetric(f) ==> Symmetric(r))
      && (PositiveDiagonal(s) && EntriesBounded(s) && EntriesBounded(f) ==> EntriesBounded(r))
  {
    var r := Shrink(s, f, delta);
    forall i | 0 <= i < |s| ensures r[i][i] == s[i][i] {
      assert Mul(1.0 - delta, s[i][i]) + Mul(delta, s[i][i]) == s[i][i];
    }
    if PositiveDiagonal(s) && EntriesBounded(s) && EntriesBounded(f) {
      forall i, j | 0 <= i < |s| && 0 <= j < |s| ensures Sq(r[i][j]) <= Mul(r[i][i], r[j][j]) {
        CombinationBound(s[i][j], f[i][j], Mul(s[i][i], s[j][j]), delta);
      }
    }
  }

  /** With a^2 <= d and b^2 <= d, ((1 - t) a + t b)^2 <= d for t in [0, 1]. */
  lemma CombinationBound(a: real, b: real, d: real, t: real)
    requires 0.0 < d && Sq(a) <= d && Sq(b) <= d && 0.0 <= t <= 1.0
    ensures Sq(Mul(1.0 - t, a) + Mul(t, b)) <= d
  {
    var e := Mul(1.0 - t, a) + Mul(t, b);
    // (1 - t) a^2 + t b^2 - e^2 = t (1 - t) (a - b)^2 >= 0
    assert Sq(e) == Mul(1.0 - t, Sq(a)) + Mul(t, Sq(b)) - Mul(Mul(t, 1.0 - t), Sq(a - b));
    MulNonnegative(t, 1.0 - t);
    SquareNonnegative(a - b);
    MulNonnegative(Mul(t, 1.0 - t), Sq(a - b));
    MulNonnegative(1.0 - t, d - Sq(a));
    MulNonnegative(t, d - Sq(b));
  }

  /** The Ledoit-Wolf estimate: the sample covariance shrunk towards the
      constant-correlation target with intensity clamp(p / n). */
  function LedoitWolf(sqrt: real -> real, data: Matrix, p: nat): (r: Matrix)
    requires IsSqrt(sqrt) && IsMatrix(data, p) && |data| >= 2
    requires p >= 2 ==> PositiveDiagonal(SampleCovariance(data, p))
    ensures |r| == p && IsSquare(r)
  {
    var s := SampleCovariance(data, p);
    Shrink(s, Target(sqrt, s, AverageCorrelation(sqrt, s)), ShrinkageIntensity(p, |data|))
  }

  /** The estimate keeps the sample variances on its diagonal, is symmetric,
      and, for non-constant columns, every entry stays bounded by the
      diagonal like a covariance matrix. */
  lemma LedoitWolfProperties(sqrt: real -> real, data: Matrix, p: nat)
    requires IsSqrt(sqrt) && IsMatrix(data, p) && |data| >= 2
    requires p >= 2 ==> PositiveDiagonal(SampleCovariance(data, p))
    ensures var r := LedoitWolf(sqrt, data, p);
      && (forall a :: 0 <= a < p ==> r[a][a] == Variance(Column(data, p, a)))
      && Symmetric(r)
      && (PositiveDiagonal(SampleCovariance(data, p)) ==> EntriesBounded(r))
  {
    var s := SampleCovariance(data, p);
    var avg := AverageCorrelation(sqrt, s);
    var f := Target(sqrt, s, avg);
    var delta := ShrinkageIntensity(p, |data|);
    CovarianceIsCovariance(data, p);
    forall a | 0 <= a < p ensures s[a][a] == Variance(Column(data, p, a)) {
      CovarianceDiagonal(data, p, a);
    }
    if p >= 2 {
      TargetProperties(sqrt, s, avg);
      AverageCorrelationBound(sqrt, s);
    } else {
      TargetSmall(sqrt, s, avg);
    }
    ShrinkProperties(s, f, delta);
  }

  /** With at most one asset the target is the sample covariance itself. */
  lemma TargetSmall(sqrt: real -> real, s: Matrix, averageCorr: real)
    requires IsSquare(s) && |s| <= 1
    ensures Target(sqrt, s, averageCorr) == s
  {
    var f := Target(sqrt, s, averageCorr);
    forall i | 0 <= i < |s| ensures f[i] == s[i] {
      assert forall j :: 0 <= j < |s| ==> f[i][j] == s[i][j];
    }
  }

  // ---------------------------------------------------------------------
  // The code

  /** Sums the correlations of the pairs i < j in a double loop. */
  method SumCorrelations(sqrt: real -> real, s: Matrix) returns (sumCorr: real)
    requires IsSqrt(sqrt) && IsSquare(s) && (|s| >= 2 ==> PositiveDiagonal(s))
    ensures sumCorr == PairSum(sqrt, s, |s|)
  {
    var p := |s|;
    sumCorr := 0.0;
    for i := 0 to p
      invariant sumCorr == PairSum(sqrt, s, i)
    {
      for j := i + 1 to p
        invariant sumCorr == PairSum(sqrt, s, i) + RowSum(sqrt, s, i, j)
      {
        sumCorr := sumCorr + EntryCorrelation(sqrt, s, i, j);
      }
    }
  }

  /** Fills a p x p array with the average correlation, then scales the
      off-diagonal entries and overwrites the diagonal. */
  method BuildTarget(sqrt: real -> real, s: Matrix, averageCorr: real) returns (f: Matrix)
    requires IsSquare(s)
    ensures f == Target(sqrt, s, averageCorr)
  {
    var p := |s|;
    var target := new real[p, p]((i, j) => averageCorr);
    for i := 0 to p
      invariant forall a, b :: 0 <= a < p && 0 <= b < p ==>
        target[a, b] == if a < i then TargetEntry(sqrt, s, averageCorr, a, b) else averageCorr
    {
      for j := 0 to p
        invariant forall a, b :: 0 <= a < p && 0 <= b < p ==>
          target[a, b] == if a < i || (a == i && b < j) then TargetEntry(sqrt, s, averageCorr, a, b) else averageCorr
      {
        if i != j {
          target[i, j] := Mul(target[i, j], sqrt(Mul(s[i][i], s[j][j])));
        } else {
          target[i, j] := s[i][i];
        }
      }
    }
    f := seq(p, a requires 0 <= a < p reads target =>
      seq(p, b requires 0 <= b < p reads target => target[a, b]));
    forall a | 0 <= a < p ensures f[a] == Target(sqrt, s, averageCorr)[a] {
      assert forall b :: 0 <= b < p ==> f[a][b] == TargetEntry(sqrt, s, averageCorr, a, b);
    }
  }

  method LedoitWolfShrinkage(sqrt: real -> real, data: Matrix, p: nat) returns (result: Matrix)
    requires IsSqrt(sqrt) && IsMatrix(data, p) && |data| >= 2
    requires p >= 2 ==> PositiveDiagonal(SampleCovariance(data, p))
    ensures result == LedoitWolf(sqrt, data, p)
  {
    var n := |data|;
    var sampleCov := SampleCovariance(data, p);
    var sumCorr := SumCorrelations(sqrt, sampleCov);
    var averageCorr := 0.0;
    if p > 1 {
      PairsPositive(p);
      averageCorr := 2.0 * sumCorr / ((p * (p - 1)) as real);
    }
    assert averageCorr == AverageCorrelation(sqrt, sampleCov);
    var target := BuildTarget(sqrt, sampleCov, averageCorr);
    var delta := ShrinkageIntensity(p, n);
    result := Shrink(sampleCov, target, delta);
  }
}
