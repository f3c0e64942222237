/** Complex numbers over exact reals, vectors of them, and the inner product
    `w^H a` (`numpy.vdot`) on which the beamformer code is built. Norms are kept
    squared throughout, so no square root is needed to compare them.

    Sums run over an index bound `n` instead of over slices: every inductive proof
    peels off the last term. */
module ComplexVectors {

  datatype Complex = Complex(re: real, im: real)

  type Vector = seq<Complex>

  const ZERO := Complex(0.0, 0.0)
  const ONE := Complex(1.0, 0.0)

  function Add(a: Complex, b: Complex): Complex {
    Complex(a.re + b.re, a.im + b.im)
  }

  function Sub(a: Complex, b: Complex): Complex {
    Complex(a.re - b.re, a.im - b.im)
  }

  function Mul(a: Complex, b: Complex): Complex {
    Complex(a.re * b.re - a.im * b.im, a.re * b.im + a.im * b.re)
  }

  function Conj(a: Complex): Complex {
    Complex(a.re, -a.im)
  }

  /** A product of reals, named so that a proof about sums of products can hide it. */
  function Times(x: real, y: real): real {
    x * y
  }

  function Square(x: real): real {
    Times(x, x)
  }

  function Abs2(a: Complex): real {
    Square(a.re) + Square(a.im)
  }

  function FromReal(r: real): Complex {
    Complex(r, 0.0)
  }

  function Div(a: Complex, b: Complex): Complex
    requires Abs2(b) != 0.0
  {
    Complex((a.re * b.re + a.im * b.im) / Abs2(b), (a.im * b.re - a.re * b.im) / Abs2(b))
  }

  // ---------- ring laws, one polynomial identity each ----------

  lemma MulAssoc(a: Complex, b: Complex, c: Complex)
    ensures Mul(Mul(a, b), c) == Mul(a, Mul(b, c))
  {
  }

  lemma MulAdd(a: Complex, b: Complex, c: Complex)
    ensures Mul(a, Add(b, c)) == Add(Mul(a, b), Mul(a, c))
  {
  }

  lemma MulAddLeft(a: Complex, b: Complex, c: Complex)
    ensures Mul(Add(a, b), c) == Add(Mul(a, c), Mul(b, c))
  {
  }

  lemma MulZero(a: Complex)
    ensures Mul(a, ZERO) == ZERO && Mul(ZERO, a) == ZERO
    ensures Mul(Conj(ZERO), a) == ZERO
  {
  }

  /** A factor of the left argument leaves `conj(p) * q` conjugated. */
  lemma FactorLeft(c: Complex, p: Complex, q: Complex)
    ensures Mul(Conj(Mul(c, p)), q) == Mul(Conj(c), Mul(Conj(p), q))
  {
  }

  lemma FactorRight(c: Complex, p: Complex, q: Complex)
    ensures Mul(Conj(p), Mul(c, q)) == Mul(c, Mul(Conj(p), q))
  {
  }

  lemma FactorBoth(x: Complex, p: Complex, y: Complex, q: Complex)
    ensures Mul(Conj(Mul(x, p)), Mul(y, q)) == Mul(Mul(Conj(x), y), Mul(Conj(p), q))
  {
    hide *;
    FactorLeft(x, p, Mul(y, q));
    FactorRight(y, p, q);
    MulAssoc(Conj(x), y, Mul(Conj(p), q));
  }

  lemma Abs2Mul(a: Complex, b: Complex)
    ensures Abs2(Mul(a, b)) == Abs2(a) * Abs2(b)
  {
  }

  lemma Abs2Add(u: Complex, v: Complex)
    ensures Abs2(Add(u, v)) == Abs2(u) + Abs2(v) + 2.0 * Mul(Conj(u), v).re
  {
  }

  lemma TimesSum(x: real, y: real, z: real)
    ensures Times(x, y + z) == Times(x, y) + Times(x, z)
    ensures Times(x, 0.0) == 0.0
  {
  }

  lemma TimesNonnegative(x: real, y: real)
    requires x >= 0.0 && y >= 0.0
    ensures Times(x, y) >= 0.0
  {
  }

  lemma TimesPositive(x: real, y: real)
    requires x > 0.0 && y > 0.0
    ensures Times(x, y) > 0.0
  {
  }

  lemma TimesNegatives(x: real, y: real)
    requires x < 0.0 && y < 0.0
    ensures Times(x, y) > 0.0
  {
  }

  lemma SquarePositive(x: real)
    ensures Square(x) >= 0.0
    ensures Square(x) == 0.0 <==> x == 0.0
  {
    hide Times;
    if x > 0.0 {
      TimesPositive(x, x);
    } else if x < 0.0 {
      TimesNegatives(x, x);
    } else {
      TimesSum(0.0, 0.0, 0.0);
    }
  }

  lemma Abs2Zero(a: Complex)
    ensures Abs2(a) >= 0.0
    ensures Abs2(a) == 0.0 <==> a == ZERO
  {
    hide Square;
    SquarePositive(a.re);
    SquarePositive(a.im);
  }

  lemma Quotients(x: real, y: real, u: real, v: real, d: real, r: real)
    requires d != 0.0
    requires x * u + y * v == r * d
    ensures (x / d) * u + (y / d) * v == r
  {
    var p, q := x / d, y / d;
    assert p * d == x && q * d == y;
    assert (p * u + q * v) * d == (p * d) * u + (q * d) * v;
    assert (p * u + q * v - r) * d == 0.0;
  }

  /** Division undoes multiplication. */
  lemma DivMul(a: Complex, b: Complex)
    requires Abs2(b) != 0.0
    ensures Mul(Div(a, b), b) == a
  {
    var d := Abs2(b);
    var p, q := a.re * b.re + a.im * b.im, a.im * b.re - a.re * b.im;
    RealPart(a.re, a.im, b.re, b.im);
    Quotients(p, q, b.re, -b.im, d, a.re);
    Quotients(p, q, b.im, b.re, d, a.im);
  }

  lemma RealPart(ar: real, ai: real, br: real, bi: real)
    ensures (ar * br + ai * bi) * br + (ai * br - ar * bi) * (-bi) == ar * (br * br + bi * bi)
    ensures (ar * br + ai * bi) * bi + (ai * br - ar * bi) * br == ai * (br * br + bi * bi)
  {
  }

  // ---------- vectors ----------

  function Scale(c: Complex, v: Vector): (r: Vector)
    ensures |r| == |v|
    ensures forall k :: 0 <= k < |v| ==> r[k] == Mul(c, v[k])
  {
    seq(|v|, k requires 0 <= k < |v| => Mul(c, v[k]))
  }

  function Plus(a: Vector, b: Vector): (r: Vector)
    requires |a| == |b|
    ensures |r| == |a|
    ensures forall k :: 0 <= k < |a| ==> r[k] == Add(a[k], b[k])
  {
    seq(|a|, k requires 0 <= k < |a| => Add(a[k], b[k]))
  }

  /** `(1 - alpha) * s + alpha * t`. */
  function Lerp(alpha: real, s: Vector, t: Vector): (r: Vector)
    requires |s| == |t|
    ensures |r| == |s|
    ensures forall k :: 0 <= k < |s| ==> r[k] == Add(Mul(FromReal(1.0 - alpha), s[k]), Mul(FromReal(alpha), t[k]))
  {
    seq(|s|, k requires 0 <= k < |s| => Add(Mul(FromReal(1.0 - alpha), s[k]), Mul(FromReal(alpha), t[k])))
  }

  /** The first `n` terms of `sum_k conj(a_k) * b_k`. */
  function Dot(a: Vector, b: Vector, n: nat): Complex
    requires n <= |a| && n <= |b|
  {
    if n == 0 then ZERO else Add(Dot(a, b, n - 1), Mul(Conj(a[n - 1]), b[n - 1]))
  }

  /** `numpy.vdot(a, b)`, the response `a^H b`. */
  function Vdot(a: Vector, b: Vector): Complex
    requires |a| == |b|
  {
    Dot(a, b, |a|)
  }

  function Energy(a: Vector, n: nat): real
    requires n <= |a|
  {
    if n == 0 then 0.0 else Energy(a, n - 1) + Abs2(a[n - 1])
  }

  /** The squared Euclidean norm. */
  function Norm2(a: Vector): real {
    Energy(a, |a|)
  }

  predicate IsZero(a: Vector) {
    forall k :: 0 <= k < |a| ==> a[k] == ZERO
  }

  lemma {:induction false} DotScaleLeft(c: Complex, a: Vector, b: Vector, n: nat)
    requires n <= |a| && n <= |b|
    ensures Dot(Scale(c, a), b, n) == Mul(Conj(c), Dot(a, b, n))
  {
    hide Mul, Conj, Add;
    if n == 0 {
      MulZero(Conj(c));
    } else {
      DotScaleLeft(c, a, b, n - 1);
      FactorLeft(c, a[n - 1], b[n - 1]);
      MulAdd(Conj(c), Dot(a, b, n - 1), Mul(Conj(a[n - 1]), b[n - 1]));
    }
  }

  lemma {:induction false} DotScaleRight(c: Complex, a: Vector, b: Vector, n: nat)
    requires n <= |a| && n <= |b|
    ensures Dot(a, Scale(c, b), n) == Mul(c, Dot(a, b, n))
  {
    hide Mul, Conj, Add;
    if n == 0 {
      MulZero(c);
    } else {
      DotScaleRight(c, a, b, n - 1);
      FactorRight(c, a[n - 1], b[n - 1]);
      MulAdd(c, Dot(a, b, n - 1), Mul(Conj(a[n - 1]), b[n - 1]));
    }
  }

  lemma {:induction false} DotPlusRight(w: Vector, a: Vector, b: Vector, n: nat)
    requires |a| == |b| && n <= |a| && n <= |w|
    ensures Dot(w, Plus(a, b), n) == Add(Dot(w, a, n), Dot(w, b, n))
  {
    hide Mul, Conj;
    if n != 0 {
      DotPlusRight(w, a, b, n - 1);
      MulAdd(Conj(w[n - 1]), a[n - 1], b[n - 1]);
    }
  }

  lemma LerpTerm(beta: real, alpha: real, p: Complex, q: Complex, x: Complex)
    ensures Mul(Conj(Add(Mul(FromReal(beta), p), Mul(FromReal(alpha), q))), x)
         == Add(Mul(FromReal(beta), Mul(Conj(p), x)), Mul(FromReal(alpha), Mul(Conj(q), x)))
  {
    hide Mul;
    var u, v := Mul(FromReal(beta), p), Mul(FromReal(alpha), q);
    ConjAdd(u, v);
    MulAddLeft(Conj(u), Conj(v), x);
    FactorLeft(FromReal(beta), p, x);
    FactorLeft(FromReal(alpha), q, x);
    assert Conj(FromReal(beta)) == FromReal(beta) && Conj(FromReal(alpha)) == FromReal(alpha);
  }

  lemma {:induction false} DotLerpLeft(alpha: real, s: Vector, t: Vector, b: Vector, n: nat)
    requires |s| == |t| && n <= |s| && n <= |b|
    ensures Dot(Lerp(alpha, s, t), b, n)
         == Add(Mul(FromReal(1.0 - alpha), Dot(s, b, n)), Mul(FromReal(alpha), Dot(t, b, n)))
  {
    hide Mul, Conj, FromReal;
    var beta := 1.0 - alpha;
    if n == 0 {
      MulZero(FromReal(beta));
      MulZero(FromReal(alpha));
    } else {
      DotLerpLeft(alpha, s, t, b, n - 1);
      LerpTerm(beta, alpha, s[n - 1], t[n - 1], b[n - 1]);
      MulAdd(FromReal(beta), Dot(s, b, n - 1), Mul(Conj(s[n - 1]), b[n - 1]));
      MulAdd(FromReal(alpha), Dot(t, b, n - 1), Mul(Conj(t[n - 1]), b[n - 1]));
    }
  }

  lemma ConjZero()
    ensures Conj(ZERO) == ZERO
  {
  }

  lemma ConjAdd(u: Complex, v: Complex)
    ensures Conj(Add(u, v)) == Add(Conj(u), Conj(v))
  {
  }

  lemma ConjTerm(p: Complex, q: Complex)
    ensures Mul(Conj(p), q) == Conj(Mul(Conj(q), p))
  {
  }

  lemma {:induction false} DotConjugate(a: Vector, b: Vector, n: nat)
    requires n <= |a| && n <= |b|
    ensures Dot(a, b, n) == Conj(Dot(b, a, n))
  {
    hide Mul, Add, Conj;
    ConjZero();
    if n != 0 {
      ConjAdd(Dot(b, a, n - 1), Mul(Conj(b[n - 1]), a[n - 1]));
      DotConjugate(a, b, n - 1);
      ConjTerm(a[n - 1], b[n - 1]);
    }
  }

  lemma MulConjSelf(p: Complex)
    ensures Mul(Conj(p), p) == FromReal(Abs2(p))
  {
  }

  lemma {:induction false} DotSelf(a: Vector, n: nat)
    requires n <= |a|
    ensures Dot(a, a, n) == FromReal(Energy(a, n))
  {
    hide Mul, Abs2;
    if n != 0 {
      DotSelf(a, n - 1);
      MulConjSelf(a[n - 1]);
    }
  }

  lemma {:induction false} EnergyScale(c: Complex, a: Vector, n: nat)
    requires n <= |a|
    ensures Energy(Scale(c, a), n) == Abs2(c) * Energy(a, n)
  {
    hide Abs2, Mul;
    if n != 0 {
      EnergyScale(c, a, n - 1);
      Abs2Mul(c, a[n - 1]);
      Distribute(Abs2(c), Energy(a, n - 1), Abs2(a[n - 1]));
    }
  }

  lemma Distribute(x: real, y: real, z: real)
    ensures x * (y + z) == x * y + x * z
  {
  }

  lemma {:induction false} EnergyZero(a: Vector, n: nat)
    requires n <= |a|
    ensures Energy(a, n) >= 0.0
    ensures Energy(a, n) == 0.0 <==> forall k :: 0 <= k < n ==> a[k] == ZERO
  {
    hide Abs2;
    if n != 0 {
      EnergyZero(a, n - 1);
      Abs2Zero(a[n - 1]);
    }
  }

  lemma {:induction false} DotZeroLeft(a: Vector, b: Vector, n: nat)
    requires n <= |a| && n <= |b|
    requires forall k :: 0 <= k < n ==> a[k] == ZERO
    ensures Dot(a, b, n) == ZERO
  {
    hide Mul;
    if n != 0 {
      DotZeroLeft(a, b, n - 1);
      MulZero(b[n - 1]);
    }
  }

  /** `||x a + y b||^2 = |x|^2 ||a||^2 + |y|^2 ||b||^2 + 2 Re(conj(x) y a^H b)`. */
  lemma {:induction false} EnergyCombination(x: Complex, a: Vector, y: Complex, b: Vector, n: nat)
    requires |a| == |b| && n <= |a|
    ensures Energy(Plus(Scale(x, a), Scale(y, b)), n)
         == Abs2(x) * Energy(a, n) + Abs2(y) * Energy(b, n) + 2.0 * Mul(Mul(Conj(x), y), Dot(a, b, n)).re
  {
    hide Abs2, Mul, Conj;
    var m := Mul(Conj(x), y);
    if n == 0 {
      MulZero(m);
    } else {
      EnergyCombination(x, a, y, b, n - 1);
      TermCombination(x, a[n - 1], y, b[n - 1]);
      MulAdd(m, Dot(a, b, n - 1), Mul(Conj(a[n - 1]), b[n - 1]));
      Distribute(Abs2(x), Energy(a, n - 1), Abs2(a[n - 1]));
      Distribute(Abs2(y), Energy(b, n - 1), Abs2(b[n - 1]));
    }
  }

  lemma TermCombination(x: Complex, p: Complex, y: Complex, q: Complex)
    ensures Abs2(Add(Mul(x, p), Mul(y, q)))
         == Abs2(x) * Abs2(p) + Abs2(y) * Abs2(q) + 2.0 * Mul(Mul(Conj(x), y), Mul(Conj(p), q)).re
  {
    hide *;
    Abs2Add(Mul(x, p), Mul(y, q));
    Abs2Mul(x, p);
    Abs2Mul(y, q);
    FactorBoth(x, p, y, q);
  }

  /** The residual vector of projecting `b` onto `a`: `||a||^2 b - (a^H b) a`. It is
      zero exactly when `a` and `b` are collinear (for nonzero `a`). */
  function ProjectionResidual(a: Vector, b: Vector): (r: Vector)
    requires |a| == |b|
    ensures |r| == |a|
  {
    Plus(Scale(FromReal(Norm2(a)), b), Scale(Mul(FromReal(-1.0), Vdot(a, b)), a))
  }

  lemma ResidualCross(d: real, c: Complex)
    ensures Mul(Mul(Conj(FromReal(d)), Mul(FromReal(-1.0), c)), Conj(c)).re == -(d * Abs2(c))
    ensures Abs2(FromReal(d)) == d * d
    ensures Abs2(Mul(FromReal(-1.0), c)) == Abs2(c)
  {
  }

  lemma ResidualSum(d: real, e: real, g: real)
    ensures d * d * e + g * d + 2.0 * (-(d * g)) == d * (d * e - g)
  {
  }

  /** The Lagrange identity behind Cauchy-Schwarz. */
  lemma ResidualEnergy(a: Vector, b: Vector)
    requires |a| == |b|
    ensures Norm2(ProjectionResidual(a, b)) == Norm2(a) * (Norm2(a) * Norm2(b) - Abs2(Vdot(a, b)))
  {
    hide Abs2, Mul, Conj, FromReal, Add;
    var d, c := Norm2(a), Vdot(a, b);
    EnergyCombination(FromReal(d), b, Mul(FromReal(-1.0), c), a, |a|);
    DotConjugate(b, a, |a|);
    ResidualCross(d, c);
    ResidualSum(d, Norm2(b), Abs2(c));
  }

  lemma ProductSigns(d: real, gap: real)
    requires d > 0.0 && d * gap >= 0.0
    ensures gap >= 0.0
    ensures d * gap == 0.0 <==> gap == 0.0
  {
  }

  /** Cauchy-Schwarz for complex vectors of any length. */
  lemma CauchySchwarz(a: Vector, b: Vector)
    requires |a| == |b|
    ensures Abs2(Vdot(a, b)) <= Norm2(a) * Norm2(b)
  {
    hide Abs2, ProjectionResidual, Dot, Energy;
    EnergyZero(a, |a|);
    if Norm2(a) == 0.0 {
      DotZeroLeft(a, b, |a|);
      Abs2Zero(ZERO);
      assert Norm2(a) * Norm2(b) == 0.0;
    } else {
      var r := ProjectionResidual(a, b);
      ResidualEnergy(a, b);
      EnergyZero(r, |r|);
      ProductSigns(Norm2(a), Norm2(a) * Norm2(b) - Abs2(Vdot(a, b)));
    }
  }

  lemma SquareOfAverage(beta: real, alpha: real, x: real, y: real)
    requires beta == 1.0 - alpha
    ensures Square(Times(beta, x) + Times(alpha, y))
         == Times(beta, Square(x)) + Times(alpha, Square(y)) - Times(Times(beta, alpha), Square(x - y))
  {
  }

  lemma SquareLerp(alpha: real, x: real, y: real)
    requires 0.0 <= alpha <= 1.0
    ensures Square(Times(1.0 - alpha, x) + Times(alpha, y))
         <= Times(1.0 - alpha, Square(x)) + Times(alpha, Square(y))
  {
    hide Square, Times;
    SquareOfAverage(1.0 - alpha, alpha, x, y);
    SquarePositive(x - y);
    TimesNonnegative(1.0 - alpha, alpha);
    TimesNonnegative(Times(1.0 - alpha, alpha), Square(x - y));
  }

  lemma LerpParts(beta: real, alpha: real, p: Complex, q: Complex)
    ensures Add(Mul(FromReal(beta), p), Mul(FromReal(alpha), q))
         == Complex(Times(beta, p.re) + Times(alpha, q.re), Times(beta, p.im) + Times(alpha, q.im))
  {
  }

  lemma Abs2Lerp(alpha: real, p: Complex, q: Complex)
    requires 0.0 <= alpha <= 1.0
    ensures Abs2(Add(Mul(FromReal(1.0 - alpha), p), Mul(FromReal(alpha), q)))
         <= Times(1.0 - alpha, Abs2(p)) + Times(alpha, Abs2(q))
  {
    hide Square, Times;
    LerpParts(1.0 - alpha, alpha, p, q);
    SquareLerp(alpha, p.re, q.re);
    SquareLerp(alpha, p.im, q.im);
    TimesSum(1.0 - alpha, Square(p.re), Square(p.im));
    TimesSum(alpha, Square(q.re), Square(q.im));
  }

  lemma ProductNonnegative(x: real, y: real)
    requires x >= 0.0 && y >= 0.0
    ensures x * y >= 0.0
  {
  }

  /** The squared norm is convex: an interpolated row is never longer than the longer end. */
  lemma {:induction false} EnergyLerp(alpha: real, s: Vector, t: Vector, n: nat)
    requires |s| == |t| && n <= |s|
    requires 0.0 <= alpha <= 1.0
    ensures Energy(Lerp(alpha, s, t), n) <= Times(1.0 - alpha, Energy(s, n)) + Times(alpha, Energy(t, n))
  {
    hide Abs2, Mul, Add, FromReal, Times;
    TimesSum(1.0 - alpha, 0.0, 0.0);
    TimesSum(alpha, 0.0, 0.0);
    if n != 0 {
      EnergyLerp(alpha, s, t, n - 1);
      Abs2Lerp(alpha, s[n - 1], t[n - 1]);
      TimesSum(1.0 - alpha, Energy(s, n - 1), Abs2(s[n - 1]));
      TimesSum(alpha, Energy(t, n - 1), Abs2(t[n - 1]));
    }
  }

  lemma WeightedBound(alpha: real, x: real, y: real, bound: real)
    requires 0.0 <= alpha <= 1.0 && x <= bound && y <= bound
    ensures Times(1.0 - alpha, x) + Times(alpha, y) <= bound
  {
    ProductNonnegative(1.0 - alpha, bound - x);
    ProductNonnegative(alpha, bound - y);
  }

  lemma LerpNorm(alpha: real, s: Vector, t: Vector, bound: real)
    requires |s| == |t|
    requires 0.0 <= alpha <= 1.0
    requires Norm2(s) <= bound && Norm2(t) <= bound
    ensures Norm2(Lerp(alpha, s, t)) <= bound
  {
    hide Times;
    EnergyLerp(alpha, s, t, |s|);
    WeightedBound(alpha, Norm2(s), Norm2(t), bound);
  }

  // ---------- matrices ----------

  /** Channel rows of equal length, or a square covariance. */
  type Matrix = seq<Vector>

  predicate Shaped(x: Matrix, columns: nat) {
    forall i :: 0 <= i < |x| ==> |x[i]| == columns
  }

  /** One entry of the product of a matrix with a vector. */
  function RowTimes(r: Vector, w: Vector, n: nat): Complex
    requires n <= |r| && n <= |w|
  {
    if n == 0 then ZERO else Add(RowTimes(r, w, n - 1), Mul(r[n - 1], w[n - 1]))
  }

  /** Snapshot `t` across the channels. */
  function Snapshot(x: Matrix, t: nat): (r: Vector)
    requires forall i :: 0 <= i < |x| ==> t < |x[i]|
    ensures |r| == |x|
  {
    seq(|x|, i requires 0 <= i < |x| => x[i][t])
  }

  lemma {:induction false} RowTimesScale(c: Complex, r: Vector, w: Vector, n: nat)
    requires n <= |r| && n <= |w|
    ensures RowTimes(Scale(c, r), w, n) == Mul(c, RowTimes(r, w, n))
  {
    hide Mul, Add;
    if n == 0 {
      MulZero(c);
    } else {
      RowTimesScale(c, r, w, n - 1);
      MulAssoc(c, r[n - 1], w[n - 1]);
      MulAdd(c, RowTimes(r, w, n - 1), Mul(r[n - 1], w[n - 1]));
    }
  }
}
