/** Tail risk of a return series: historical Value at Risk, expected
    shortfall and parametric (normal) Value at Risk. The historical measures
    sort a copy of the series and read it at the index
    `static_cast<size_t>((1 - confidence) * n)`. */
module RiskMetrics {
  import opened Wrappers
  import opened LinAlg
  import opened Sorting
  import opened Statistics

  /** Conversion of a real to an unsigned integer: truncation toward zero. */
  function Trunc(x: real): int
  {
    if x >= 0.0 then x.Floor else -((-x).Floor)
  }

  function ScaledSize(confidence: real, n: nat): real
  {
    (1.0 - confidence) * (n as real)
  }

  /** The conversion to size_t is defined: the truncated value fits in 64 bits. */
  predicate IndexDefined(confidence: real, n: nat)
  {
    -1.0 < ScaledSize(confidence, n) < 18446744073709551616.0
  }

  /** The index both historical measures read. */
  function Index(confidence: real, n: nat): (k: nat)
    requires IndexDefined(confidence, n)
    ensures (k as real) <= ScaledSize(confidence, n) < (k as real) + 1.0 || (k == 0 && -1.0 < ScaledSize(confidence, n) < 0.0)
  {
    Trunc(ScaledSize(confidence, n))
  }

  /** For a confidence in (0, 1] the index lies in range of a non-empty series
      (whose size, a `size_t`, is below 2^64). */
  lemma IndexInRange(confidence: real, n: nat)
    requires 0.0 < confidence <= 1.0 && 0 < n < 18446744073709551616
    ensures IndexDefined(confidence, n) && Index(confidence, n) < n
  {
    var x := ScaledSize(confidence, n);
    assert 0.0 <= x < n as real by {
      MulNonnegative(1.0 - confidence, n as real);
      assert x == (n as real) - confidence * (n as real);
      MulPositive(confidence, n as real);
    }
    assert IndexDefined(confidence, n);
    assert (Index(confidence, n) as real) <= x;
  }

  /** The series sorted ascending. */
  function Ascending(series: seq<real>): (t: seq<real>)
    ensures SortedBy(t, RealLe) && multiset(t) == multiset(series)
    ensures |t| == |series|
  {
    RealLeIsTotal();
    assert |multiset(SortedCopy(series, RealLe))| == |multiset(series)|;
    SortedCopy(series, RealLe)
  }

  /** The loss at position k of the sorted series: historical VaR at the
      confidence whose index is k. */
  function LossAt(series: seq<real>, k: nat): real
    requires k < |series|
  {
    -Ascending(series)[k]
  }

  /** The negated mean of the k smallest returns; no value when k is 0
      (0 / 0): expected shortfall at the confidence whose index is k. */
  function TailLoss(series: seq<real>, k: nat): Option<real>
    requires k <= |series|
  {
    if k == 0 then None
    else Some(-(Sum(Ascending(series)[..k]) / (k as real)))
  }

  // ---------------------------------------------------------------------
  // The order statistic, stated without sorting

  /** How many elements of s are below x, and how many are at most x. */
  function CountBelow(s: seq<real>, x: real): nat
  {
    CountBefore(s, x, RealLt)
  }

  function CountAtMost(s: seq<real>, x: real): nat
  {
    CountBefore(s, x, RealLe)
  }

  lemma CountsOfSortedCopy(s: seq<real>, x: real)
    ensures CountBelow(Ascending(s), x) == CountBelow(s, x)
    ensures CountAtMost(Ascending(s), x) == CountAtMost(s, x)
  {
    RealLeIsTotal();
    CountBeforeSortedCopy(s, x, RealLe, RealLt);
    CountBeforeSortedCopy(s, x, RealLe, RealLe);
  }

  /** In a sorted sequence, the elements below t[k] all come before k and
      the elements up to k are all at most t[k]. */
  lemma {:induction false} CountsOfSorted(t: seq<real>, k: nat, x: real)
    requires SortedBy(t, RealLe) && k < |t|
    ensures x == t[k] ==> CountBelow(t, x) <= k && k < CountAtMost(t, x)
  {
    if x == t[k] && k > 0 {
      assert SortedBy(t[1..], RealLe);
      CountsOfSorted(t[1..], k - 1, x);
    } else if x == t[k] {
      CountBelowNone(t, x);
    }
  }

  lemma {:induction false} CountBelowNone(t: seq<real>, x: real)
    requires forall i :: 0 <= i < |t| ==> x <= t[i]
    ensures CountBelow(t, x) == 0
  {
    if |t| > 0 {
      CountBelowNone(t[1..], x);
    }
  }

  /** The loss at position k is -q for the k-th order statistic q of the
      series: at most k returns lie below q and more than k lie at or below
      it. It is the negation of one of the returns. */
  lemma LossAtIsOrderStatistic(series: seq<real>, k: nat)
    requires k < |series|
    ensures -LossAt(series, k) in series
    ensures CountBelow(series, -LossAt(series, k)) <= k < CountAtMost(series, -LossAt(series, k))
  {
    var t := Ascending(series);
    var q := t[k];
    assert q in multiset(series);
    CountsOfSortedCopy(series, q);
    CountsOfSorted(t, k, q);
  }

  /** A smaller index (a higher confidence) never gives a smaller loss. */
  lemma LossAtAntitone(series: seq<real>, k1: nat, k2: nat)
    requires k1 <= k2 < |series|
    ensures LossAt(series, k2) <= LossAt(series, k1)
  {
  }

  /** A higher confidence never gives a larger index. */
  lemma IndexAntitone(c1: real, c2: real, n: nat)
    requires c1 <= c2 && IndexDefined(c1, n) && IndexDefined(c2, n)
    ensures Index(c2, n) <= Index(c1, n)
  {
    MulNonnegative(c2 - c1, n as real);
    assert ScaledSize(c2, n) <= ScaledSize(c1, n);
  }

  // ---------------------------------------------------------------------
  // Expected shortfall against VaR

  /** The mean of the k smallest is at most the next one. */
  lemma SortedPrefixBelow(t: seq<real>, k: nat)
    requires SortedBy(t, RealLe) && 0 < k < |t|
    ensures Sum(t[..k]) / (k as real) <= t[k]
  {
    var prefix := t[..k];
    assert |prefix| == k;
    SumBounds(prefix, t[0], t[k]);
    QuotientBelow(Sum(prefix), k as real, t[k]);
  }

  /** The tail loss has a value exactly when the index is positive, and then
      it is at least the loss at that index. */
  lemma TailLossAtLeastLoss(series: seq<real>, k: nat)
    requires k < |series|
    ensures TailLoss(series, k).Some? <==> 0 < k
    ensures 0 < k ==> TailLoss(series, k).value >= LossAt(series, k)
  {
    if 0 < k {
      var t := Ascending(series);
      SortedPrefixBelow(t, k);
    }
  }

  /** When no return is below lo, the tail loss is at most -lo. */
  lemma TailLossBounded(series: seq<real>, k: nat, lo: real)
    requires k <= |series|
    requires forall i :: 0 <= i < |series| ==> lo <= series[i]
    ensures TailLoss(series, k).Some? ==> TailLoss(series, k).value <= -lo
  {
    if k > 0 {
      var t := Ascending(series);
      AscendingAbove(series, lo);
      SortedPrefixAbove(t, k, lo);
    }
  }

  lemma AscendingAbove(series: seq<real>, lo: real)
    requires forall i :: 0 <= i < |series| ==> lo <= series[i]
    ensures forall i :: 0 <= i < |series| ==> lo <= Ascending(series)[i]
  {
    var t := Ascending(series);
    forall i | 0 <= i < |t| ensures lo <= t[i] {
      assert t[i] in multiset(series);
    }
  }

  lemma SortedPrefixAbove(t: seq<real>, k: nat, lo: real)
    requires SortedBy(t, RealLe) && 0 < k <= |t|
    requires forall i :: 0 <= i < |t| ==> lo <= t[i]
    ensures lo <= Sum(t[..k]) / (k as real)
  {
    var prefix := t[..k];
    assert |prefix| == k;
    SumBounds(prefix, lo, t[k - 1]);
    QuotientAbove(Sum(prefix), k as real, lo);
  }

  // ---------------------------------------------------------------------
  // Parametric VaR

  /** The normal quantile used: 2.326 (99%) above 0.97, else 1.645 (95%). */
  function ZScore(confidence: real): (z: real)
    ensures z == 2.326 <==> confidence > 0.97
    ensures z == 1.645 <==> confidence <= 0.97
  {
    if confidence > 0.97 then 2.326 else 1.645
  }

  /** z sigma - mean, with sigma the unbiased standard deviation. */
  function ParametricVar(sqrt: real -> real, series: seq<real>, confidence: real := 0.95): (r: real)
    requires IsSqrt(sqrt) && |series| > 0
    ensures r >= -Mean(series)
    ensures IsConstant(series) ==> r == -Mean(series)
  {
    var sigma := StandardDeviation(sqrt, series);
    var mean := Mean(series);
    StandardDeviationZeroIffConstant(sqrt, series);
    MulNonnegative(ZScore(confidence), sigma);
    -(mean - Mul(ZScore(confidence), sigma))
  }

  /** A higher confidence never gives a smaller parametric VaR. */
  lemma ParametricVarMonotone(sqrt: real -> real, series: seq<real>, c1: real, c2: real)
    requires IsSqrt(sqrt) && |series| > 0 && c1 <= c2
    ensures ParametricVar(sqrt, series, c1) <= ParametricVar(sqrt, series, c2)
  {
    var sigma := StandardDeviation(sqrt, series);
    MulNonnegative(ZScore(c2) - ZScore(c1), sigma);
    assert Mul(ZScore(c2), sigma) - Mul(ZScore(c1), sigma) == Mul(ZScore(c2) - ZScore(c1), sigma);
  }

  /** Adding a constant c to every return lowers the parametric VaR by c. */
  lemma ParametricVarShift(sqrt: real -> real, series: seq<real>, confidence: real, c: real)
    requires IsSqrt(sqrt) && |series| > 0
    ensures ParametricVar(sqrt, Shift(series, c), confidence) == ParametricVar(sqrt, series, confidence) - c
  {
    CenteredShift(series, c);
    VarianceShift(series, c, true);
  }

  // ---------------------------------------------------------------------
  // The code

  /** Sorts a copy of the series and reads the loss at the index. */
  method HistoricalVar(series: seq<real>, confidence: real := 0.95) returns (v: real)
    requires IndexDefined(confidence, |series|) && Index(confidence, |series|) < |series|
    ensures v == LossAt(series, Index(confidence, |series|))
  {
    var sorted := SortedArray(series);
    var index := Index(confidence, sorted.Length);
    v := -sorted[index];
  }

  /** A sorted copy of the series in a fresh array. */
  method SortedArray(series: seq<real>) returns (sorted: array<real>)
    ensures fresh(sorted) && sorted[..] == Ascending(series)
  {
    sorted := new real[|series|](i requires 0 <= i < |series| => series[i]);
    assert sorted[..] == series;
    RealLeIsTotal();
    Sort(sorted, RealLe);
  }

  /** Sorts a copy, sums the `cutoff` smallest returns and negates their mean. */
  method ExpectedShortfall(series: seq<real>, confidence: real := 0.95) returns (es: Option<real>)
    requires IndexDefined(confidence, |series|) && Index(confidence, |series|) <= |series|
    ensures es == TailLoss(series, Index(confidence, |series|))
  {
    var sorted := SortedArray(series);
    var cutoff := Index(confidence, sorted.Length);
    var sum := SumPrefix(sorted, cutoff);
    if cutoff == 0 {
      es := None;
    } else {
      es := Some(-(sum / (cutoff as real)));
    }
  }

  /** The sum of the first k elements of a. */
  method SumPrefix(a: array<real>, k: nat) returns (sum: real)
    requires k <= a.Length
    ensures sum == Sum(a[..k])
  {
    sum := 0.0;
    for i := 0 to k
      invariant sum == Sum(a[..i])
    {
      SumPrefixStep(a[..], i);
      assert a[..i + 1] == a[..][..i + 1] && a[..i] == a[..][..i];
      sum := sum + a[i];
    }
  }
}
