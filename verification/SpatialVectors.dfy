/** Coherence, phase alignment and unit vectors: the small vector algebra shared by
    the phase-compensation bank and the diagnostics. */
module SpatialVectors {
  import opened Wrappers
  import opened ComplexVectors

  /** The numeric library as this model sees it: `sqrt`, the phase removal
      `exp(-1j * angle(z))`, and the smallest normal positive float. */
  datatype Numerics = Numerics(
    sqrt: real -> real,
    unphase: Complex -> Complex,
    degrees: real -> real,
    tiny: real)

  ghost predicate Sound(m: Numerics) {
    && m.tiny > 0.0
    && (forall x :: x >= 0.0 ==> m.sqrt(x) >= 0.0 && Square(m.sqrt(x)) == x)
    && (forall z :: Abs2(m.unphase(z)) == 1.0)
    && (forall z :: Mul(m.unphase(z), z) == FromReal(m.sqrt(Abs2(z))))
  }

  function Clip(x: real): real {
    if x < 0.0 then 0.0 else if x > 1.0 then 1.0 else x
  }

  /** The square of `norm(a) * norm(b)`. */
  function NormProduct(a: Vector, b: Vector): real {
    Times(Norm2(a), Norm2(b))
  }

  function Ratio(x: real, y: real): real {
    if y == 0.0 then 0.0 else x / y
  }

  /** `phase_invariant_coherence`; the norm product is compared with `tiny` squared. */
  function Coherence(tiny: real, a: Vector, b: Vector): real
    requires |a| == |b|
  {
    if NormProduct(a, b) <= Square(tiny) then 0.0
    else Clip(Ratio(Abs2(Vdot(a, b)), NormProduct(a, b)))
  }

  /** Both vectors are long enough for the quotient to be formed. */
  predicate Measurable(tiny: real, a: Vector, b: Vector)
  {
    NormProduct(a, b) > Square(tiny)
  }

  lemma QuotientBounds(x: real, y: real)
    requires 0.0 <= x <= y && y > 0.0
    ensures 0.0 <= Ratio(x, y) <= 1.0
    ensures Ratio(x, y) == 1.0 <==> x == y
  {
    assert Times(Ratio(x, y), y) == x;
  }

  lemma OverlapBound(a: Vector, b: Vector)
    requires |a| == |b|
    ensures Abs2(Vdot(a, b)) <= NormProduct(a, b)
  {
    hide Abs2, Energy, Dot;
    CauchySchwarz(a, b);
  }

  /** The clip never acts: Cauchy-Schwarz already puts the quotient into [0, 1]. */
  lemma CoherenceUnclipped(tiny: real, a: Vector, b: Vector)
    requires |a| == |b| && Measurable(tiny, a, b)
    ensures NormProduct(a, b) > 0.0
    ensures Coherence(tiny, a, b) == Ratio(Abs2(Vdot(a, b)), NormProduct(a, b))
    ensures 0.0 <= Coherence(tiny, a, b) <= 1.0
  {
    hide Abs2, Times, Ratio;
    SquarePositive(tiny);
    OverlapBound(a, b);
    Abs2Zero(Vdot(a, b));
    QuotientBounds(Abs2(Vdot(a, b)), NormProduct(a, b));
  }

  ghost predicate Collinear(a: Vector, b: Vector)
    requires |a| == |b|
  {
    exists c :: b == Scale(c, a)
  }

  /** A multiple of `a` leaves no residual. */
  lemma ResidualOfMultiple(a: Vector, c: Complex)
    ensures Abs2(Vdot(a, Scale(c, a))) == NormProduct(a, Scale(c, a))
  {
    hide Abs2, Mul, FromReal;
    DotScaleRight(c, a, a, |a|);
    DotSelf(a, |a|);
    Abs2Mul(c, FromReal(Norm2(a)));
    EnergyScale(c, a, |a|);
    assert Abs2(FromReal(Norm2(a))) == Norm2(a) * Norm2(a) by {
      RealSquare(Norm2(a));
    }
    Reorder(Abs2(c), Norm2(a));
  }

  lemma RealSquare(x: real)
    ensures Abs2(FromReal(x)) == x * x
  {
  }

  lemma Reorder(x: real, y: real)
    ensures x * (y * y) == y * (x * y)
  {
  }

  /** Zero residual exhibits the multiple: `b = (a^H b / ||a||^2) a`. */
  lemma MultipleFromResidual(a: Vector, b: Vector)
    requires |a| == |b| && Norm2(a) > 0.0
    requires IsZero(ProjectionResidual(a, b))
    ensures Collinear(a, b)
  {
    var d, c := Norm2(a), Vdot(a, b);
    RealSquare(d);
    TimesPositive(d, d);
    var q := Div(c, FromReal(d));
    DivMul(c, FromReal(d));
    forall k | 0 <= k < |a|
      ensures b[k] == Mul(q, a[k])
    {
      assert ProjectionResidual(a, b)[k] == ZERO;
      SolveForMultiple(d, c, q, a[k], b[k]);
    }
    assert b == Scale(q, a);
  }

  lemma SolveForMultiple(d: real, c: Complex, q: Complex, p: Complex, r: Complex)
    requires d > 0.0 && Mul(q, FromReal(d)) == c
    requires Add(Mul(FromReal(d), r), Mul(Mul(FromReal(-1.0), c), p)) == ZERO
    ensures r == Mul(q, p)
  {
    var z := Mul(q, p);
    assert c == Complex(q.re * d, q.im * d);
    assert d * r.re - (c.re * p.re - c.im * p.im) == 0.0;
    assert d * r.im - (c.re * p.im + c.im * p.re) == 0.0;
    CancelFactor(d, r.re, q.re * p.re - q.im * p.im);
    CancelFactor(d, r.im, q.re * p.im + q.im * p.re);
  }

  lemma CancelFactor(d: real, x: real, y: real)
    requires d > 0.0
    ensures d * x == d * y ==> x == y
  {
  }

  /** Coherence is 1 exactly for collinear vectors. */
  lemma CoherenceOneIffCollinear(tiny: real, a: Vector, b: Vector)
    requires |a| == |b| && Measurable(tiny, a, b)
    ensures Coherence(tiny, a, b) == 1.0 <==> Collinear(a, b)
  {
    hide Abs2, Times, Mul, Add, Conj, FromReal, ProjectionResidual, Energy, Dot, Ratio;
    CoherenceUnclipped(tiny, a, b);
    OverlapBound(a, b);
    Abs2Zero(Vdot(a, b));
    QuotientBounds(Abs2(Vdot(a, b)), NormProduct(a, b));
    if Coherence(tiny, a, b) == 1.0 {
      var r := ProjectionResidual(a, b);
      ResidualVanishes(a, b);
      EnergyZero(r, |r|);
      MultipleFromResidual(a, b);
    }
    if Collinear(a, b) {
      var c :| b == Scale(c, a);
      ResidualOfMultiple(a, c);
    }
  }

  lemma ResidualVanishes(a: Vector, b: Vector)
    requires |a| == |b| && NormProduct(a, b) > 0.0
    requires Abs2(Vdot(a, b)) == NormProduct(a, b)
    ensures Norm2(a) > 0.0
    ensures Norm2(ProjectionResidual(a, b)) == 0.0
  {
    hide Abs2, Mul, Add, Conj, FromReal, ProjectionResidual, Energy, Dot;
    ResidualEnergy(a, b);
    EnergyZero(a, |a|);
  }

  lemma ScaledQuotient(s: real, x: real, y: real)
    requires Times(s, y) != 0.0
    ensures Ratio(Times(s, x), Times(s, y)) == Ratio(x, y)
  {
    var q := x / y;
    assert q * y == x;
    assert q * (s * y) == s * x;
  }

  /** Multiplying the second vector by a nonzero complex number changes nothing. */
  lemma CoherenceScaleRight(tiny: real, a: Vector, c: Complex, b: Vector)
    requires |a| == |b|
    requires Measurable(tiny, a, b) && Measurable(tiny, a, Scale(c, b))
    ensures Coherence(tiny, a, Scale(c, b)) == Coherence(tiny, a, b)
  {
    hide Abs2, Times, Mul, Energy, Dot, Ratio, Scale;
    CoherenceUnclipped(tiny, a, b);
    CoherenceUnclipped(tiny, a, Scale(c, b));
    DotScaleRight(c, a, b, |a|);
    ProductOfModuli(c, Vdot(a, b));
    NormProductScale(a, c, b);
    ScaledQuotient(Abs2(c), Abs2(Vdot(a, b)), NormProduct(a, b));
  }

  lemma ProductOfModuli(c: Complex, z: Complex)
    ensures Abs2(Mul(c, z)) == Times(Abs2(c), Abs2(z))
  {
    Abs2Mul(c, z);
  }

  lemma NormProductScale(a: Vector, c: Complex, b: Vector)
    ensures NormProduct(a, Scale(c, b)) == Times(Abs2(c), NormProduct(a, b))
  {
    hide Abs2, Energy;
    EnergyScale(c, b, |b|);
    FactorOut(Abs2(c), Norm2(a), Norm2(b));
  }

  lemma FactorOut(s: real, x: real, y: real)
    ensures x * (s * y) == s * (x * y)
  {
  }

  /** Coherence does not depend on the order of its arguments. */
  lemma CoherenceSymmetric(tiny: real, a: Vector, b: Vector)
    requires |a| == |b|
    ensures Coherence(tiny, a, b) == Coherence(tiny, b, a)
  {
    hide Abs2, Energy, Dot, Ratio;
    DotConjugate(a, b, |a|);
    ConjugateSize(Vdot(b, a));
  }

  lemma ConjugateSize(z: Complex)
    ensures Abs2(Conj(z)) == Abs2(z)
  {
  }

  /** A factor of modulus 1 on either side is invisible, with no condition on lengths. */
  lemma CoherenceUnitFactor(tiny: real, u: Complex, a: Vector, v: Complex, b: Vector)
    requires |a| == |b|
    requires Abs2(u) == 1.0 && Abs2(v) == 1.0
    ensures Coherence(tiny, Scale(u, a), Scale(v, b)) == Coherence(tiny, a, b)
  {
    hide Abs2, Mul, Conj, Energy, Dot, Ratio;
    var b' := Scale(v, b);
    EnergyScale(u, a, |a|);
    EnergyScale(v, b, |b|);
    DotScaleLeft(u, a, b', |a|);
    DotScaleRight(v, a, b, |a|);
    ConjugateSize(u);
    Abs2Mul(Conj(u), Vdot(a, b'));
    Abs2Mul(v, Vdot(a, b));
  }

  lemma UnitScale(r: real, e: real)
    requires r > 0.0 && Square(r) == e
    ensures Abs2(FromReal(1.0 / r)) * e == 1.0
  {
    var c := 1.0 / r;
    assert c * r == 1.0;
    assert (c * c) * (r * r) == (c * r) * (c * r);
  }

  // ---------- alignment ----------

  /** `argmax(|v|)` over the first `n` entries: the first one of greatest modulus. */
  function Loudest(v: Vector, n: nat): (r: nat)
    requires 0 < n <= |v|
    ensures r < n
    ensures forall k :: 0 <= k < n ==> Abs2(v[k]) <= Abs2(v[r])
    ensures forall k :: 0 <= k < r ==> Abs2(v[k]) < Abs2(v[r])
  {
    if n == 1 then 0
    else
      var r := Loudest(v, n - 1);
      if Abs2(v[n - 1]) > Abs2(v[r]) then n - 1 else r
  }

  function AlignCommonPhase(m: Numerics, v: Vector): (r: Vector)
    ensures |r| == |v|
  {
    if |v| == 0 then v else Scale(m.unphase(v[Loudest(v, |v|)]), v)
  }

  function AlignToReference(m: Numerics, v: Vector, reference: Option<Vector>): (r: Vector)
    requires reference.Some? ==> |reference.value| == |v|
    ensures |r| == |v|
  {
    if reference.None? then AlignCommonPhase(m, v)
    else
      var overlap := Vdot(reference.value, v);
      if Abs2(overlap) <= Square(m.tiny) then AlignCommonPhase(m, v)
      else Scale(m.unphase(overlap), v)
  }

  lemma RootOfZero(m: Numerics)
    requires Sound(m)
    ensures m.sqrt(0.0) == 0.0
  {
    hide Times, Mul, Abs2, FromReal;
    assert Square(m.sqrt(0.0)) == 0.0;
    SquarePositive(m.sqrt(0.0));
  }

  lemma UnphaseIsUnit(m: Numerics, z: Complex)
    requires Sound(m)
    ensures Abs2(m.unphase(z)) == 1.0
  {
  }

  lemma ScaleEmpty(c: Complex, v: Vector)
    requires |v| == 0
    ensures Scale(c, v) == v
  {
  }

  /** Whatever branch it takes, alignment only multiplies by a factor of modulus 1. */
  lemma AlignmentIsUnitFactor(m: Numerics, v: Vector, reference: Option<Vector>)
    requires Sound(m)
    requires reference.Some? ==> |reference.value| == |v|
    ensures exists u :: Abs2(u) == 1.0 && AlignToReference(m, v, reference) == Scale(u, v)
  {
    hide Sound, Abs2, Square, Vdot, Scale, Loudest;
    var z :=
      if |v| == 0 then ONE
      else if reference.None? || Abs2(Vdot(reference.value, v)) <= Square(m.tiny) then v[Loudest(v, |v|)]
      else Vdot(reference.value, v);
    var u := m.unphase(z);
    UnphaseIsUnit(m, z);
    if |v| == 0 {
      ScaleEmpty(u, v);
      if reference.Some? {
        ScaleEmpty(m.unphase(Vdot(reference.value, v)), v);
      }
    }
    assert AlignToReference(m, v, reference) == Scale(u, v);
  }

  /** Aligned to a reference it overlaps, a vector's response to it is real and not negative. */
  lemma AlignedOverlapIsReal(m: Numerics, v: Vector, reference: Vector)
    requires Sound(m) && |reference| == |v|
    requires Abs2(Vdot(reference, v)) > Square(m.tiny)
    ensures Vdot(reference, AlignToReference(m, v, Some(reference)))
         == FromReal(m.sqrt(Abs2(Vdot(reference, v))))
    ensures Vdot(reference, AlignToReference(m, v, Some(reference))).re >= 0.0
  {
    hide Dot;
    var overlap := Vdot(reference, v);
    DotScaleRight(m.unphase(overlap), reference, v, |v|);
    Abs2Zero(overlap);
  }

  /** Without a reference that it overlaps, a vector is turned so that its first entry of greatest
      modulus becomes real and not negative. */
  lemma AlignedLoudestIsReal(m: Numerics, v: Vector, reference: Option<Vector>, k: nat)
    requires Sound(m) && (reference.Some? ==> |reference.value| == |v|)
    requires reference.None? || Abs2(Vdot(reference.value, v)) <= Square(m.tiny)
    requires k < |v| && forall j :: 0 <= j < |v| ==> Abs2(v[j]) <= Abs2(v[k])
    requires forall j :: 0 <= j < k ==> Abs2(v[j]) < Abs2(v[k])
    ensures AlignToReference(m, v, reference)[k] == FromReal(m.sqrt(Abs2(v[k])))
    ensures m.sqrt(Abs2(v[k])) >= 0.0
  {
    hide Dot, Mul, Abs2, Square;
    assert Loudest(v, |v|) == k;
    hide Loudest;
    RootIsNonnegative(m, v[k]);
  }

  lemma RootIsNonnegative(m: Numerics, z: Complex)
    requires Sound(m)
    ensures m.sqrt(Abs2(z)) >= 0.0 && Square(m.sqrt(Abs2(z))) == Abs2(z)
  {
    hide Mul, Times;
    Abs2Zero(z);
  }

  /** Entry `k` is the first of greatest modulus. */
  predicate IsLoudest(v: Vector, k: nat) {
    && k < |v|
    && (forall j :: 0 <= j < |v| ==> Abs2(v[j]) <= Abs2(v[k]))
    && (forall j :: 0 <= j < k ==> Abs2(v[j]) < Abs2(v[k]))
  }

  /** The vector is `v` turned by one phase: so that its overlap with the reference is real and not
      negative or, with none to speak of, so that its own loudest entry is. */
  ghost predicate IsTurned(m: Numerics, turned: Vector, v: Vector, reference: Option<Vector>)
    requires reference.Some? ==> |reference.value| == |v|
  {
    && |turned| == |v|
    && (exists u :: Abs2(u) == 1.0 && turned == Scale(u, v))
    && if reference.Some? && Abs2(Vdot(reference.value, v)) > Square(m.tiny) then
         Vdot(reference.value, turned).im == 0.0 && Vdot(reference.value, turned).re >= 0.0
       else forall k: nat :: IsLoudest(v, k) ==> turned[k].im == 0.0 && turned[k].re >= 0.0
  }

  lemma AlignmentTurns(m: Numerics, v: Vector, reference: Option<Vector>)
    requires Sound(m) && (reference.Some? ==> |reference.value| == |v|)
    ensures IsTurned(m, AlignToReference(m, v, reference), v, reference)
  {
    hide Sound, Dot, Mul, Abs2, Square, AlignToReference, Scale;
    AlignmentIsUnitFactor(m, v, reference);
    if reference.Some? && Abs2(Vdot(reference.value, v)) > Square(m.tiny) {
      AlignedOverlapIsReal(m, v, reference.value);
    } else {
      forall k: nat | IsLoudest(v, k)
        ensures AlignToReference(m, v, reference)[k].im == 0.0 && AlignToReference(m, v, reference)[k].re >= 0.0
      {
        AlignedLoudestIsReal(m, v, reference, k);
      }
    }
  }

  /** Hence aligning either argument never changes a coherence. */
  lemma CoherenceIgnoresAlignment(m: Numerics, a: Vector, ra: Option<Vector>, b: Vector, rb: Option<Vector>)
    requires Sound(m) && |a| == |b|
    requires ra.Some? ==> |ra.value| == |a|
    requires rb.Some? ==> |rb.value| == |b|
    ensures Coherence(m.tiny, AlignToReference(m, a, ra), AlignToReference(m, b, rb)) == Coherence(m.tiny, a, b)
  {
    AlignmentIsUnitFactor(m, a, ra);
    AlignmentIsUnitFactor(m, b, rb);
    var u :| Abs2(u) == 1.0 && AlignToReference(m, a, ra) == Scale(u, a);
    var v :| Abs2(v) == 1.0 && AlignToReference(m, b, rb) == Scale(v, b);
    CoherenceUnitFactor(m.tiny, u, a, v, b);
  }
}
