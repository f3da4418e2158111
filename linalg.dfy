/** Dense real vectors and the reductions that the numeric routines are built
    from (the part of the linear-algebra library the code relies on), with the
    algebraic facts the proofs need. Floating point is modelled by `real`. */
module LinAlg {

  type Vector = seq<real>

  /** The library square root, passed to the routines that use it: any function
      that returns the non-negative square root of a non-negative argument. */
  ghost predicate IsSqrt(sqrt: real -> real)
  {
    forall a :: 0.0 <= a ==> 0.0 <= sqrt(a) && sqrt(a) * sqrt(a) == a
  }

  function Sq(a: real): real { a * a }

  function Sum(v: Vector): real
  {
    if |v| == 0 then 0.0 else Sum(v[..|v| - 1]) + v[|v| - 1]
  }

  /** Arithmetic mean (the library refuses an empty vector). */
  function Mean(v: Vector): real
    requires |v| > 0
  {
    Sum(v) / (|v| as real)
  }

  /** a[i]*b[i] + ... + a[n-1]*b[n-1]. */
  function DotFrom(a: Vector, b: Vector, i: nat): real
    requires |a| == |b| && i <= |a|
    decreases |a| - i
  {
    if i == |a| then 0.0 else a[i] * b[i] + DotFrom(a, b, i + 1)
  }

  function Dot(a: Vector, b: Vector): real
    requires |a| == |b|
  {
    DotFrom(a, b, 0)
  }

  function NormSq(v: Vector): real { Dot(v, v) }

  function Zeros(n: nat): Vector { seq(n, _ => 0.0) }

  function Add(a: Vector, b: Vector): Vector
    requires |a| == |b|
  {
    seq(|a|, i requires 0 <= i < |a| => a[i] + b[i])
  }

  function Sub(a: Vector, b: Vector): Vector
    requires |a| == |b|
  {
    seq(|a|, i requires 0 <= i < |a| => a[i] - b[i])
  }

  function Scale(k: real, a: Vector): Vector
  {
    seq(|a|, i requires 0 <= i < |a| => k * a[i])
  }

  function Neg(a: Vector): Vector
  {
    seq(|a|, i requires 0 <= i < |a| => -a[i])
  }

  /** The deviations v[i] - c of every element from `c`. */
  function Deviations(v: Vector, c: real): Vector
  {
    seq(|v|, i requires 0 <= i < |v| => v[i] - c)
  }

  // ---------------------------------------------------------------------
  // Facts about Sum

  lemma SumPrefixStep(v: Vector, i: nat)
    requires i < |v|
    ensures Sum(v[..i + 1]) == Sum(v[..i]) + v[i]
  {
    assert v[..i + 1][..i] == v[..i];
  }

  lemma {:induction false} SumNonnegative(v: Vector)
    requires forall i :: 0 <= i < |v| ==> 0.0 <= v[i]
    ensures 0.0 <= Sum(v)
  {
    if |v| > 0 {
      SumNonnegative(v[..|v| - 1]);
    }
  }

  lemma {:induction false} SumZeroMeansZeros(v: Vector)
    requires forall i :: 0 <= i < |v| ==> 0.0 <= v[i]
    requires Sum(v) == 0.0
    ensures forall i :: 0 <= i < |v| ==> v[i] == 0.0
  {
    if |v| > 0 {
      SumNonnegative(v[..|v| - 1]);
      SumZeroMeansZeros(v[..|v| - 1]);
      assert forall i :: 0 <= i < |v| - 1 ==> v[..|v| - 1][i] == v[i];
    }
  }

  lemma {:induction false} SumConstant(n: nat, c: real)
    ensures Sum(seq(n, _ => c)) == (n as real) * c
  {
    if n > 0 {
      assert seq(n, _ => c)[..n - 1] == seq(n - 1, _ => c);
      SumConstant(n - 1, c);
    }
  }

  lemma {:induction false} SumOfZeros(v: Vector)
    requires forall i :: 0 <= i < |v| ==> v[i] == 0.0
    ensures Sum(v) == 0.0
  {
    if |v| > 0 {
      SumOfZeros(v[..|v| - 1]);
    }
  }

  // ---------------------------------------------------------------------
  // Facts about Dot

  lemma {:induction false} DotFromCommutes(a: Vector, b: Vector, i: nat)
    requires |a| == |b| && i <= |a|
    ensures DotFrom(a, b, i) == DotFrom(b, a, i)
    decreases |a| - i
  {
    if i < |a| {
      DotFromCommutes(a, b, i + 1);
    }
  }

  lemma DotCommutes(a: Vector, b: Vector)
    requires |a| == |b|
    ensures Dot(a, b) == Dot(b, a)
  {
    DotFromCommutes(a, b, 0);
  }

  lemma {:induction false} DotFromWithZeros(a: Vector, b: Vector, i: nat)
    requires |a| == |b| && i <= |a|
    requires forall k :: i <= k < |b| ==> b[k] == 0.0
    ensures DotFrom(a, b, i) == 0.0
    decreases |a| - i
  {
    if i < |a| {
      DotFromWithZeros(a, b, i + 1);
    }
  }

  lemma DotWithZeros(a: Vector, b: Vector)
    requires |a| == |b|
    requires forall k :: 0 <= k < |b| ==> b[k] == 0.0
    ensures Dot(a, b) == 0.0
  {
    DotFromWithZeros(a, b, 0);
  }

  // Sign facts about products. They are stated over `Mul` and `Sq` so that the
  // solver meets the same product term in the fact and in the goal.

  function Mul(a: real, b: real): real { a * b }

  lemma MulPositive(a: real, b: real)
    requires (0.0 < a && 0.0 < b) || (a < 0.0 && b < 0.0)
    ensures 0.0 < Mul(a, b)
  {
  }

  lemma MulNonnegative(a: real, b: real)
    requires 0.0 <= a && 0.0 <= b
    ensures 0.0 <= Mul(a, b)
  {
  }

  lemma SquarePositive(a: real)
    requires a != 0.0
    ensures 0.0 < Sq(a)
  {
    MulPositive(a, a);
  }

  lemma SquareNonnegative(a: real)
    ensures 0.0 <= Sq(a)
  {
    if a != 0.0 {
      SquarePositive(a);
    }
  }

  lemma {:induction false} DotFromSelfNonnegative(v: Vector, i: nat)
    requires i <= |v|
    ensures 0.0 <= DotFrom(v, v, i)
    decreases |v| - i
  {
    if i < |v| {
      DotFromSelfNonnegative(v, i + 1);
      SquareNonnegative(v[i]);
    }
  }

  lemma NormSqNonnegative(v: Vector)
    ensures 0.0 <= NormSq(v)
  {
    DotFromSelfNonnegative(v, 0);
  }

  lemma {:induction false} DotFromSelfZero(v: Vector, i: nat)
    requires i <= |v| && DotFrom(v, v, i) == 0.0
    ensures forall k :: i <= k < |v| ==> v[k] == 0.0
    decreases |v| - i
  {
    if i < |v| {
      DotFromSelfNonnegative(v, i + 1);
      assert DotFrom(v, v, i) == Sq(v[i]) + DotFrom(v, v, i + 1);
      if v[i] != 0.0 {
        SquarePositive(v[i]);
        assert false;
      }
      DotFromSelfZero(v, i + 1);
    }
  }

  lemma NormSqZeroMeansZeros(v: Vector)
    requires NormSq(v) == 0.0
    ensures forall k :: 0 <= k < |v| ==> v[k] == 0.0
  {
    DotFromSelfZero(v, 0);
  }

  lemma SubScaledStep(a: real, b: real, k: real, p: real, q: real, r: real)
    ensures (p - k * q) * r + (a - k * b) == (p * r + a) - k * (q * r + b)
  {
  }

  lemma {:induction false} DotFromSubScaled(v: Vector, k: real, y: Vector, w: Vector, i: nat)
    requires |v| == |y| == |w| && i <= |v|
    ensures DotFrom(Sub(v, Scale(k, y)), w, i) == DotFrom(v, w, i) - k * DotFrom(y, w, i)
    decreases |v| - i
  {
    if i < |v| {
      DotFromSubScaled(v, k, y, w, i + 1);
      SubScaledStep(DotFrom(v, w, i + 1), DotFrom(y, w, i + 1), k, v[i], y[i], w[i]);
    }
  }

  /** Dot(v - k*y, w) == Dot(v, w) - k*Dot(y, w). */
  lemma DotSubScaled(v: Vector, k: real, y: Vector, w: Vector)
    requires |v| == |y| == |w|
    ensures Dot(Sub(v, Scale(k, y)), w) == Dot(v, w) - k * Dot(y, w)
  {
    DotFromSubScaled(v, k, y, w, 0);
  }

  lemma AddScaledStep(a: real, b: real, c: real, p: real, q: real, r: real)
    ensures p * (q + c * r) + (a + c * b) == (p * q + a) + c * (p * r + b)
  {
  }

  lemma {:induction false} DotFromAddScaled(v: Vector, w: Vector, c: real, s: Vector, i: nat)
    requires |v| == |w| == |s| && i <= |v|
    ensures DotFrom(v, Add(w, Scale(c, s)), i) == DotFrom(v, w, i) + c * DotFrom(v, s, i)
    decreases |v| - i
  {
    if i < |v| {
      DotFromAddScaled(v, w, c, s, i + 1);
      AddScaledStep(DotFrom(v, w, i + 1), DotFrom(v, s, i + 1), c, v[i], w[i], s[i]);
    }
  }

  /** Dot(v, w + c*s) == Dot(v, w) + c*Dot(v, s). */
  lemma DotAddScaled(v: Vector, w: Vector, c: real, s: Vector)
    requires |v| == |w| == |s|
    ensures Dot(v, Add(w, Scale(c, s))) == Dot(v, w) + c * Dot(v, s)
  {
    DotFromAddScaled(v, w, c, s, 0);
  }

  lemma ScaledStep(a: real, k: real, p: real, q: real)
    ensures p * (k * q) + k * a == k * (p * q + a)
  {
  }

  lemma {:induction false} DotFromScaled(v: Vector, k: real, w: Vector, i: nat)
    requires |v| == |w| && i <= |v|
    ensures DotFrom(v, Scale(k, w), i) == k * DotFrom(v, w, i)
    decreases |v| - i
  {
    if i < |v| {
      DotFromScaled(v, k, w, i + 1);
      ScaledStep(DotFrom(v, w, i + 1), k, v[i], w[i]);
    }
  }

  /** Dot(v, k*w) == k*Dot(v, w). */
  lemma DotScaled(v: Vector, k: real, w: Vector)
    requires |v| == |w|
    ensures Dot(v, Scale(k, w)) == k * Dot(v, w)
  {
    DotFromScaled(v, k, w, 0);
  }

  /** DotFrom only reads the entries from i on. */
  lemma {:induction false} DotFromAgree(a: Vector, b: Vector, a': Vector, b': Vector, i: nat)
    requires |a| == |b| == |a'| == |b'| && i <= |a|
    requires forall k :: i <= k < |a| ==> a[k] == a'[k] && b[k] == b'[k]
    ensures DotFrom(a, b, i) == DotFrom(a', b', i)
    decreases |a| - i
  {
    if i < |a| {
      DotFromAgree(a, b, a', b', i + 1);
    }
  }

  lemma UpdateStep(rest: real, c: real, x: real, v: real)
    ensures c * v + rest == (c * x + rest) + c * (v - x)
  {
  }

  lemma {:induction false} DotFromUpdate(c: Vector, x: Vector, j: nat, v: real, i: nat)
    requires |c| == |x| && i <= j < |x|
    ensures DotFrom(c, x[j := v], i) == DotFrom(c, x, i) + c[j] * (v - x[j])
    decreases j - i
  {
    if i < j {
      DotFromUpdate(c, x, j, v, i + 1);
    } else {
      DotFromAgree(c, x[j := v], c, x, j + 1);
      UpdateStep(DotFrom(c, x, j + 1), c[j], x[j], v);
    }
  }

  /** Changing one coordinate of `x` changes Dot(c, x) by the weighted difference. */
  lemma DotUpdate(c: Vector, x: Vector, j: nat, v: real)
    requires |c| == |x| && j < |x|
    ensures Dot(c, x[j := v]) == Dot(c, x) + c[j] * (v - x[j])
  {
    DotFromUpdate(c, x, j, v, 0);
  }

  lemma SquareUpdateStep(rest: real, x: real, t: real)
    ensures t * t + rest == (x * x + rest) - Sq(x) + Sq(t)
  {
  }

  lemma {:induction false} DotFromSelfUpdate(u: Vector, j: nat, t: real, i: nat)
    requires i <= j < |u|
    ensures DotFrom(u[j := t], u[j := t], i) == DotFrom(u, u, i) - Sq(u[j]) + Sq(t)
    decreases j - i
  {
    if i < j {
      DotFromSelfUpdate(u, j, t, i + 1);
    } else {
      DotFromAgree(u[j := t], u[j := t], u, u, j + 1);
      SquareUpdateStep(DotFrom(u, u, j + 1), u[j], t);
    }
  }

  /** Changing one coordinate of `u` changes its squared norm by the change of that square. */
  lemma NormSqUpdate(u: Vector, j: nat, t: real)
    requires j < |u|
    ensures NormSq(u[j := t]) == NormSq(u) - Sq(u[j]) + Sq(t)
  {
    DotFromSelfUpdate(u, j, t, 0);
  }

  lemma ScaleByOne(v: Vector)
    ensures Scale(1.0, v) == v
  {
  }

  // ---------------------------------------------------------------------
  // Squares and the Cauchy-Schwarz inequality

  lemma SquareStrictlyMonotone(a: real, b: real)
    requires 0.0 <= a < b
    ensures Sq(a) < Sq(b)
  {
    MulPositive(b - a, b + a);
    assert Mul(b - a, b + a) == Sq(b) - Sq(a);
  }

  /** A number whose square is at most s^2, s >= 0, lies in [-s, s]. */
  lemma SquareBound(d: real, s: real)
    requires 0.0 <= s && Sq(d) <= Sq(s)
    ensures -s <= d <= s
  {
    if s < d {
      SquareStrictlyMonotone(s, d);
    }
    if d < -s {
      SquareStrictlyMonotone(s, -d);
    }
  }

  lemma CauchySchwarzStep(aa: real, ab: real, bb: real)
    requires 0.0 < bb && 0.0 <= aa - ab / bb * ab - ab / bb * (ab - ab / bb * bb)
    ensures Sq(ab) <= aa * bb
  {
    var t := ab / bb;
    assert ab - t * bb == 0.0;
    assert 0.0 <= aa - t * ab;
    assert (aa - t * ab) * bb == aa * bb - Sq(ab);
    MulNonnegative(aa - t * ab, bb);
  }

  /** (a.b)^2 <= (a.a)(b.b). */
  lemma CauchySchwarz(a: Vector, b: Vector)
    requires |a| == |b|
    ensures Sq(Dot(a, b)) <= NormSq(a) * NormSq(b)
  {
    NormSqNonnegative(a);
    NormSqNonnegative(b);
    if NormSq(b) == 0.0 {
      NormSqZeroMeansZeros(b);
      DotWithZeros(a, b);
      MulNonnegative(NormSq(a), NormSq(b));
    } else {
      var t := Dot(a, b) / NormSq(b);
      var u := Sub(a, Scale(t, b));
      NormSqNonnegative(u);
      DotSubScaled(a, t, b, u);
      DotCommutes(a, u);
      DotCommutes(b, u);
      DotSubScaled(a, t, b, a);
      DotSubScaled(a, t, b, b);
      DotCommutes(b, a);
      CauchySchwarzStep(NormSq(a), Dot(a, b), NormSq(b));
    }
  }

  /** Bounds on a total carry over to the average: s <= k b gives s / k <= b. */
  lemma DivNonnegative(a: real, b: real)
    requires 0.0 <= a && 0.0 < b
    ensures 0.0 <= a / b
  {
  }

  lemma QuotientBelow(s: real, k: real, b: real)
    requires 0.0 < k && s <= k * b
    ensures s / k <= b
  {
  }

  lemma QuotientAbove(s: real, k: real, b: real)
    requires 0.0 < k && k * b <= s
    ensures b <= s / k
  {
  }

  /** A quotient num / den with num^2 <= den^2 and den > 0 lies in [-1, 1]. */
  lemma UnitQuotient(num: real, den: real)
    requires 0.0 < den && Sq(num) <= Sq(den)
    ensures -1.0 <= num / den <= 1.0
  {
    SquareBound(num, den);
    QuotientBelow(num, den, 1.0);
    QuotientAbove(num, den, -1.0);
  }
}
