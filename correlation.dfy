/** Dependence between two samples: Pearson's linear correlation, Spearman's
    rank correlation (Pearson on the ranks) and Kendall's tau (concordant
    against discordant pairs). */
module Correlation {
  import opened LinAlg
  import opened Sorting
  import opened Statistics

  // ---------------------------------------------------------------------
  // Pearson

  lemma SqrtZero(sqrt: real -> real, a: real)
    requires IsSqrt(sqrt) && 0.0 <= a
    ensures sqrt(a) == 0.0 <==> a == 0.0
  {
    if sqrt(a) != 0.0 {
      SquarePositive(sqrt(a));
    }
  }

  /** sqrt of the product of the two sums of squared deviations; zero exactly
      when one of the samples is constant. */
  function PearsonDenominator(sqrt: real -> real, x: Vector, y: Vector): (den: real)
    requires IsSqrt(sqrt) && |x| == |y| > 0
    ensures 0.0 <= den && den * den == NormSq(Centered(x)) * NormSq(Centered(y))
    ensures den == 0.0 <==> IsConstant(x) || IsConstant(y)
  {
    var sx := NormSq(Centered(x));
    var sy := NormSq(Centered(y));
    NormSqNonnegative(Centered(x));
    NormSqNonnegative(Centered(y));
    CenteredZeroIffConstant(x);
    CenteredZeroIffConstant(y);
    ProductZero(sx, sy);
    SqrtZero(sqrt, sx * sy);
    sqrt(sx * sy)
  }

  lemma ProductZero(a: real, b: real)
    requires 0.0 <= a && 0.0 <= b
    ensures 0.0 <= a * b && (a * b == 0.0 <==> a == 0.0 || b == 0.0)
  {
    MulNonnegative(a, b);
    if a != 0.0 && b != 0.0 {
      MulPositive(a, b);
    }
  }

  /** By Cauchy-Schwarz the normalised inner product lies in [-1, 1]. */
  lemma CorrelationBound(a: Vector, b: Vector, den: real)
    requires |a| == |b| && 0.0 < den && den * den == NormSq(a) * NormSq(b)
    ensures -1.0 <= Dot(a, b) / den <= 1.0
  {
    CauchySchwarz(a, b);
    UnitQuotient(Dot(a, b), den);
  }

  /** Sum of products of deviations over the denominator, 0 when the
      denominator is not positive (a constant sample, or no observations). */
  function Pearson(sqrt: real -> real, x: Vector, y: Vector): (r: real)
    requires IsSqrt(sqrt) && |x| == |y|
    ensures -1.0 <= r <= 1.0
    ensures IsConstant(x) || IsConstant(y) ==> r == 0.0
  {
    if |x| == 0 then 0.0
    else
      var den := PearsonDenominator(sqrt, x, y);
      if den > 0.0 then
        CorrelationBound(Centered(x), Centered(y), den);
        Dot(Centered(x), Centered(y)) / den
      else 0.0
  }

  lemma PearsonSymmetric(sqrt: real -> real, x: Vector, y: Vector)
    requires IsSqrt(sqrt) && |x| == |y|
    ensures Pearson(sqrt, x, y) == Pearson(sqrt, y, x)
  {
    if |x| > 0 {
      DotCommutes(Centered(x), Centered(y));
      assert NormSq(Centered(x)) * NormSq(Centered(y)) == NormSq(Centered(y)) * NormSq(Centered(x));
    }
  }

  /** A sample that is not constant is perfectly correlated with itself. */
  lemma PearsonSelf(sqrt: real -> real, x: Vector)
    requires IsSqrt(sqrt) && !IsConstant(x)
    ensures Pearson(sqrt, x, x) == 1.0
  {
    var s := NormSq(Centered(x));
    NormSqNonnegative(Centered(x));
    CenteredZeroIffConstant(x);
    var den := PearsonDenominator(sqrt, x, x);
    if den < s {
      SquareStrictlyMonotone(den, s);
    } else if s < den {
      SquareStrictlyMonotone(s, den);
    } else {
      assert |x| > 0 && 0.0 < s == den;
      assert Pearson(sqrt, x, x) == s / s;
      QuotientAbove(s, s, 1.0);
      QuotientBelow(s, s, 1.0);
    }
  }

  /** Adding a constant to one sample does not change the coefficient. */
  lemma PearsonShift(sqrt: real -> real, x: Vector, y: Vector, c: real)
    requires IsSqrt(sqrt) && |x| == |y|
    ensures Pearson(sqrt, Shift(x, c), y) == Pearson(sqrt, x, y)
  {
    if |x| > 0 {
      CenteredShift(x, c);
      var p := NormSq(Centered(Shift(x, c))) * NormSq(Centered(y));
      var q := NormSq(Centered(x)) * NormSq(Centered(y));
      assert p == q;
      assert sqrt(p) == sqrt(q);
    }
  }

  // ---------------------------------------------------------------------
  // Ranks

  /** std::pair ordering of (value, index): by value, then by index. */
  function PairLe(p: (real, nat), q: (real, nat)): bool
  {
    p.0 < q.0 || (p.0 == q.0 && p.1 <= q.1)
  }

  function PairLt(p: (real, nat), q: (real, nat)): bool
  {
    p.0 < q.0 || (p.0 == q.0 && p.1 < q.1)
  }

  lemma PairLeIsTotal()
    ensures TotalOrder(PairLe)
  {
  }

  /** The observations paired with their positions. */
  function Indexed(vec: Vector): (pairs: seq<(real, nat)>)
    ensures |pairs| == |vec|
    ensures forall i :: 0 <= i < |vec| ==> pairs[i] == (vec[i], i)
  {
    seq(|vec|, i requires 0 <= i < |vec| => (vec[i], i))
  }

  /** Observation i comes before observation j: a smaller value, or an equal
      value at an earlier position. */
  predicate Precedes(vec: Vector, i: nat, j: nat)
    requires i < |vec| && j < |vec|
  {
    vec[i] < vec[j] || (vec[i] == vec[j] && i < j)
  }

  /** The rank of each observation: one more than the number of observations
      that come before it. */
  function Ranks(vec: Vector): (r: Vector)
    ensures |r| == |vec|
  {
    seq(|vec|, i requires 0 <= i < |vec| => (1 + CountBefore(Indexed(vec), Indexed(vec)[i], PairLt)) as real)
  }

  /** The (value, index) pairs sorted. */
  function SortedPairs(vec: Vector): (t: seq<(real, nat)>)
    ensures SortedBy(t, PairLe) && multiset(t) == multiset(Indexed(vec)) && Distinct(t)
    ensures |t| == |vec|
  {
    PairLeIsTotal();
    assert |multiset(SortedCopy(Indexed(vec), PairLe))| == |multiset(Indexed(vec))|;
    SortedCopyDistinct(Indexed(vec), PairLe);
    SortedCopy(Indexed(vec), PairLe)
  }

  lemma {:induction false} CountBeforeSortedPairs(t: seq<(real, nat)>, k: nat)
    requires SortedBy(t, PairLe) && Distinct(t) && k < |t|
    ensures CountBefore(t, t[k], PairLt) == k
  {
    if k == 0 {
      CountNone(t, t[0], PairLt);
    } else {
      assert SortedBy(t[1..], PairLe) && Distinct(t[1..]);
      CountBeforeSortedPairs(t[1..], k - 1);
      assert t[1..][k - 1] == t[k];
    }
  }

  /** Every sorted pair is one of the indexed observations. */
  lemma SortedPairIsObservation(vec: Vector, k: nat)
    requires k < |vec|
    ensures SortedPairs(vec)[k].1 < |vec| && SortedPairs(vec)[k] == Indexed(vec)[SortedPairs(vec)[k].1]
  {
    var t := SortedPairs(vec);
    assert t[k] in multiset(Indexed(vec));
  }

  /** Observation i sits in the sorted pairs at position rank - 1. */
  lemma SortedPosition(vec: Vector, i: nat) returns (k: nat)
    requires i < |vec|
    ensures k < |vec| && SortedPairs(vec)[k] == Indexed(vec)[i]
    ensures Ranks(vec)[i] == (k + 1) as real
  {
    var pairs := Indexed(vec);
    var t := SortedPairs(vec);
    assert pairs[i] in multiset(t);
    k :| 0 <= k < |t| && t[k] == pairs[i];
    PairLeIsTotal();
    CountBeforeSortedCopy(pairs, pairs[i], PairLe, PairLt);
    CountBeforeSortedPairs(t, k);
  }

  /** The rank order is the (value, index) order: equal values are ranked by
      position, so a smaller value always has a smaller rank. */
  lemma RankOrder(vec: Vector, i: nat, j: nat)
    requires i < |vec| && j < |vec|
    ensures Precedes(vec, i, j) <==> Ranks(vec)[i] < Ranks(vec)[j]
  {
    var t := SortedPairs(vec);
    var k := SortedPosition(vec, i);
    var l := SortedPosition(vec, j);
    if k < l {
      assert PairLe(t[k], t[l]) && t[k] != t[l];
    } else if l < k {
      assert PairLe(t[l], t[k]) && t[l] != t[k];
    }
  }

  /** The ranks are a permutation of 1..n: whole numbers in [1, n], pairwise
      different, each of 1..n taken. */
  lemma RanksArePermutation(vec: Vector)
    ensures forall i :: 0 <= i < |vec| ==> Ranks(vec)[i] == Ranks(vec)[i].Floor as real
    ensures forall i :: 0 <= i < |vec| ==> 1.0 <= Ranks(vec)[i] <= |vec| as real
    ensures forall i, j :: 0 <= i < j < |vec| ==> Ranks(vec)[i] != Ranks(vec)[j]
    ensures forall r: int :: 1 <= r <= |vec| ==> RankTaken(vec, r)
  {
    forall i | 0 <= i < |vec|
      ensures Ranks(vec)[i] == Ranks(vec)[i].Floor as real && 1.0 <= Ranks(vec)[i] <= |vec| as real
    {
      var k := SortedPosition(vec, i);
    }
    forall i, j | 0 <= i < j < |vec| ensures Ranks(vec)[i] != Ranks(vec)[j] {
      RankOrder(vec, i, j);
      RankOrder(vec, j, i);
    }
    forall r: int | 1 <= r <= |vec| ensures RankTaken(vec, r) {
      var i := RankedAt(vec, r - 1);
    }
  }

  /** Some observation has rank r. */
  predicate RankTaken(vec: Vector, r: int)
  {
    exists i :: 0 <= i < |vec| && Ranks(vec)[i] == r as real
  }

  /** The observation at sorted position k has rank k + 1. */
  lemma RankedAt(vec: Vector, k: nat) returns (i: nat)
    requires k < |vec|
    ensures i == SortedPairs(vec)[k].1 && i < |vec| && Ranks(vec)[i] == (k + 1) as real
  {
    var t := SortedPairs(vec);
    SortedPairIsObservation(vec, k);
    i := t[k].1;
    var k' := SortedPosition(vec, i);
    assert t[k'] == t[k];
  }

  /** Fills (value, index) pairs, sorts them and writes rank k + 1 at the
      index of the k-th pair. */
  method RankTransform(vec: Vector) returns (ranks: Vector)
    ensures ranks == Ranks(vec)
  {
    var data := IndexedArray(vec);
    PairLeIsTotal();
    Sort(data, PairLe);
    ranks := ScatterRanks(vec, data);
  }

  method IndexedArray(vec: Vector) returns (data: array<(real, nat)>)
    ensures fresh(data) && data[..] == Indexed(vec)
  {
    data := new (real, nat)[|vec|];
    for i := 0 to |vec|
      invariant forall l :: 0 <= l < i ==> data[l] == (vec[l], l)
    {
      data[i] := (vec[i], i);
    }
  }

  /** Writes rank k + 1 at the index carried by the k-th sorted pair. */
  method ScatterRanks(vec: Vector, data: array<(real, nat)>) returns (ranks: Vector)
    requires data[..] == SortedPairs(vec)
    ensures ranks == Ranks(vec)
  {
    var n := |vec|;
    var r := new real[n];
    SortedIndicesInRange(vec);
    for k := 0 to n
      invariant forall l :: 0 <= l < k ==> r[data[l].1] == Ranks(vec)[data[l].1]
    {
      var i := RankedAt(vec, k);
      WrittenOnce(vec, k);
      r[data[k].1] := (k + 1) as real;
    }
    forall i | 0 <= i < n ensures r[i] == Ranks(vec)[i] {
      var k := SortedPosition(vec, i);
    }
    ranks := r[..];
  }

  lemma SortedIndicesInRange(vec: Vector)
    ensures forall l :: 0 <= l < |vec| ==> SortedPairs(vec)[l].1 < |vec|
  {
    forall l | 0 <= l < |vec| ensures SortedPairs(vec)[l].1 < |vec| {
      SortedPairIsObservation(vec, l);
    }
  }

  /** Different sorted positions carry different indices. */
  lemma WrittenOnce(vec: Vector, k: nat)
    requires k < |vec|
    ensures forall l :: 0 <= l < |vec| && l != k ==> SortedPairs(vec)[l].1 != SortedPairs(vec)[k].1
  {
    var t := SortedPairs(vec);
    forall l | 0 <= l < |vec| && l != k ensures t[l].1 != t[k].1 {
      SortedPairIsObservation(vec, l);
      SortedPairIsObservation(vec, k);
    }
  }

  // ---------------------------------------------------------------------
  // Spearman

  /** Pearson's coefficient of the ranks. */
  function Spearman(sqrt: real -> real, x: Vector, y: Vector): (r: real)
    requires IsSqrt(sqrt) && |x| == |y|
    ensures -1.0 <= r <= 1.0
  {
    Pearson(sqrt, Ranks(x), Ranks(y))
  }

  lemma SpearmanSymmetric(sqrt: real -> real, x: Vector, y: Vector)
    requires IsSqrt(sqrt) && |x| == |y|
    ensures Spearman(sqrt, x, y) == Spearman(sqrt, y, x)
  {
    PearsonSymmetric(sqrt, Ranks(x), Ranks(y));
  }

  /** From two observations on, a sample has rank correlation 1 with itself. */
  lemma SpearmanSelf(sqrt: real -> real, x: Vector)
    requires IsSqrt(sqrt) && |x| >= 2
    ensures Spearman(sqrt, x, x) == 1.0
  {
    RanksArePermutation(x);
    assert Ranks(x)[0] != Ranks(x)[1];
    PearsonSelf(sqrt, Ranks(x));
  }

  // ---------------------------------------------------------------------
  // Kendall's tau

  /** 1 for a concordant pair (the differences have a positive product), -1
      for a discordant one and 0 for a tie. */
  function Concordance(x: Vector, y: Vector, i: nat, j: nat): int
    requires i < |x| && j < |x| && |x| <= |y|
  {
    var prod := Mul(x[i] - x[j], y[i] - y[j]);
    if prod > 0.0 then 1 else if prod < 0.0 then -1 else 0
  }

  /** The number of j in (i, m) whose pair (i, j) has concordance c. */
  function RowCount(x: Vector, y: Vector, i: nat, m: nat, c: int): nat
    requires i < m <= |x| <= |y|
    decreases m
  {
    if m == i + 1 then 0
    else RowCount(x, y, i, m - 1, c) + (if Concordance(x, y, i, m - 1) == c then 1 else 0)
  }

  /** The number of pairs i < j < n with i < m whose concordance is c. */
  function PairCount(x: Vector, y: Vector, m: nat, c: int): nat
    requires m <= |x| <= |y|
  {
    if m == 0 then 0 else PairCount(x, y, m - 1, c) + RowCount(x, y, m - 1, |x|, c)
  }

  function Concordant(x: Vector, y: Vector): nat
    requires |x| <= |y|
  {
    PairCount(x, y, |x|, 1)
  }

  function Discordant(x: Vector, y: Vector): nat
    requires |x| <= |y|
  {
    PairCount(x, y, |x|, -1)
  }

  function Tied(x: Vector, y: Vector): nat
    requires |x| <= |y|
  {
    PairCount(x, y, |x|, 0)
  }

  lemma {:induction false} RowTotal(x: Vector, y: Vector, i: nat, m: nat)
    requires i < m <= |x| <= |y|
    ensures RowCount(x, y, i, m, 1) + RowCount(x, y, i, m, -1) + RowCount(x, y, i, m, 0) == m - i - 1
    decreases m
  {
    if m > i + 1 {
      RowTotal(x, y, i, m - 1);
    }
  }

  lemma {:induction false} PairTotal(x: Vector, y: Vector, m: nat)
    requires m <= |x| <= |y|
    ensures 2 * (PairCount(x, y, m, 1) + PairCount(x, y, m, -1) + PairCount(x, y, m, 0)) == m * (2 * |x| - m - 1)
  {
    if m > 0 {
      PairTotal(x, y, m - 1);
      RowTotal(x, y, m - 1, |x|);
      assert m * (2 * |x| - m - 1) == (m - 1) * (2 * |x| - (m - 1) - 1) + 2 * (|x| - m);
    }
  }

  /** Every one of the n(n - 1)/2 pairs is concordant, discordant or tied:
      a tie counts as neither. */
  lemma PairCountsCover(x: Vector, y: Vector)
    requires |x| <= |y|
    ensures 2 * (Concordant(x, y) + Discordant(x, y) + Tied(x, y)) == |x| * (|x| - 1)
    ensures 2 * (Concordant(x, y) + Discordant(x, y)) <= |x| * (|x| - 1)
  {
    PairTotal(x, y, |x|);
  }

  /** (C - D) / (n(n - 1)/2); 0 below two observations. */
  function KendallOf(x: Vector, y: Vector): (tau: real)
    requires |x| <= |y|
    ensures |x| < 2 ==> tau == 0.0
    ensures -1.0 <= tau <= 1.0
  {
    if |x| < 2 then 0.0
    else
      KendallBound(x, y);
      PairRatio(Concordant(x, y), Discordant(x, y), |x|)
  }

  /** (c - d) / (n(n - 1)/2), the difference of two pair counts over the
      number of pairs. */
  function PairRatio(c: nat, d: nat, n: nat): real
    requires 2 <= n
  {
    (c - d) as real / (0.5 * (n as real) * ((n as real) - 1.0))
  }

  lemma KendallBound(x: Vector, y: Vector)
    requires 2 <= |x| <= |y|
    ensures -1.0 <= PairRatio(Concordant(x, y), Discordant(x, y), |x|) <= 1.0
  {
    PairCountsCover(x, y);
    CountRatioBound(Concordant(x, y), Discordant(x, y), Tied(x, y), |x|);
  }

  /** With c + d + t = n(n - 1)/2, (c - d) / (n(n - 1)/2) lies in [-1, 1]. */
  lemma CountRatioBound(c: nat, d: nat, t: nat, n: nat)
    requires 2 <= n && 2 * (c + d + t) == n * (n - 1)
    ensures -1.0 <= PairRatio(c, d, n) <= 1.0
  {
    var total := 0.5 * (n as real) * ((n as real) - 1.0);
    HalfProduct(n, c + d + t);
    QuotientBelow((c - d) as real, total, 1.0);
    QuotientAbove((c - d) as real, total, -1.0);
  }

  /** n(n - 1)/2 pairs, as a real, for n >= 2. */
  lemma HalfProduct(n: nat, pairs: nat)
    requires 2 <= n && 2 * pairs == n * (n - 1)
    ensures 0.5 * (n as real) * ((n as real) - 1.0) == pairs as real
    ensures 1 <= pairs
  {
    assert (n * (n - 1)) as real == (n as real) * ((n - 1) as real);
    assert n * (n - 1) >= 2 * (n - 1);
  }

  lemma {:induction false} RowSymmetric(x: Vector, y: Vector, i: nat, m: nat, c: int)
    requires i < m <= |x| == |y|
    ensures RowCount(x, y, i, m, c) == RowCount(y, x, i, m, c)
    decreases m
  {
    if m > i + 1 {
      RowSymmetric(x, y, i, m - 1, c);
      assert Mul(x[i] - x[m - 1], y[i] - y[m - 1]) == Mul(y[i] - y[m - 1], x[i] - x[m - 1]);
    }
  }

  lemma {:induction false} PairSymmetric(x: Vector, y: Vector, m: nat, c: int)
    requires m <= |x| == |y|
    ensures PairCount(x, y, m, c) == PairCount(y, x, m, c)
  {
    if m > 0 {
      PairSymmetric(x, y, m - 1, c);
      RowSymmetric(x, y, m - 1, |x|, c);
    }
  }

  lemma KendallSymmetric(x: Vector, y: Vector)
    requires |x| == |y|
    ensures KendallOf(x, y) == KendallOf(y, x)
  {
    if |x| >= 2 {
      PairSymmetric(x, y, |x|, 1);
      PairSymmetric(x, y, |x|, -1);
      assert Concordant(x, y) == Concordant(y, x);
      assert Discordant(x, y) == Discordant(y, x);
      assert KendallOf(x, y) == PairRatio(Concordant(x, y), Discordant(x, y), |x|);
      assert KendallOf(y, x) == PairRatio(Concordant(y, x), Discordant(y, x), |y|);
    }
  }

  /** Counts concordant and discordant pairs in a double loop. */
  method KendallTau(x: Vector, y: Vector) returns (tau: real)
    requires |x| <= |y|
    ensures tau == KendallOf(x, y)
  {
    var n := |x|;
    if n < 2 {
      return 0.0;
    }
    var concordant := 0;
    var discordant := 0;
    for i := 0 to n
      invariant concordant == PairCount(x, y, i, 1) && discordant == PairCount(x, y, i, -1)
    {
      for j := i + 1 to n
        invariant concordant == PairCount(x, y, i, 1) + RowCount(x, y, i, j, 1)
        invariant discordant == PairCount(x, y, i, -1) + RowCount(x, y, i, j, -1)
      {
        var xDiff := x[i] - x[j];
        var yDiff := y[i] - y[j];
        var prod := Mul(xDiff, yDiff);
        if prod > 0.0 {
          concordant := concordant + 1;
        } else if prod < 0.0 {
          discordant := discordant + 1;
        }
      }
    }
    tau := PairRatio(concordant, discordant, n);
  }
}
