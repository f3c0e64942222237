/** Beamformer diagnostics: predicted output power from a measured covariance, and
    the coherence of a measured spatial vector with the ideal one. */
module Diagnostics {
  import opened Wrappers
  import opened ComplexVectors
  import opened SpatialVectors

  // ---------- covariance and output power ----------

  function ScaleRows(c: Complex, m: Matrix): (r: Matrix)
    ensures |r| == |m|
    ensures forall i :: 0 <= i < |m| ==> r[i] == Scale(c, m[i])
  {
    seq(|m|, i requires 0 <= i < |m| => Scale(c, m[i]))
  }

  /** `x @ x.conj().T` over the first `n` snapshots: entry (i, j) is `sum_t x_i(t) conj(x_j(t))`. */
  function Gram(x: Matrix, n: nat): (r: Matrix)
    requires forall i :: 0 <= i < |x| ==> n <= |x[i]|
    ensures |r| == |x| && Shaped(r, |x|)
  {
    seq(|x|, i requires 0 <= i < |x| => seq(|x|, j requires 0 <= j < |x| => Dot(x[j], x[i], n)))
  }

  function CovarianceMatrix(x: Matrix, n: nat): (r: Matrix)
    requires Shaped(x, n)
    ensures |r| == |x| && Shaped(r, |x|)
  {
    ScaleRows(FromReal(1.0 / (if n == 0 then 1.0 else n as real)), Gram(x, n))
  }

  /** The matrix product `m @ w`. */
  function MatVec(m: Matrix, w: Vector): (r: Vector)
    requires Shaped(m, |w|)
    ensures |r| == |m|
  {
    seq(|m|, i requires 0 <= i < |m| => RowTimes(m[i], w, |w|))
  }

  function CovarianceOutputPower(cov: Matrix, w: Vector): Option<real> {
    if !Shaped(cov, |cov|) || |cov| != |w| then None
    else
      var power := Vdot(w, MatVec(cov, w)).re;
      Some(if power < 0.0 then 0.0 else power)
  }

  /** The beamformed output power summed over the first `n` snapshots. */
  function OutputEnergy(w: Vector, x: Matrix, n: nat): real
    requires |w| == |x|
    requires forall i :: 0 <= i < |x| ==> n <= |x[i]|
  {
    if n == 0 then 0.0 else OutputEnergy(w, x, n - 1) + Abs2(Vdot(w, Snapshot(x, n - 1)))
  }

  /** Adding `p * conj(col)` to a matrix row adds `p * (col^H w)` to its product with `w`. */
  lemma {:induction false} RowTimesRankOne(r: Vector, s: Vector, p: Complex, col: Vector, w: Vector, n: nat)
    requires n <= |r| && n <= |s| && n <= |col| && n <= |w|
    requires forall j :: 0 <= j < n ==> r[j] == Add(s[j], Mul(Conj(col[j]), p))
    ensures RowTimes(r, w, n) == Add(RowTimes(s, w, n), Mul(Dot(col, w, n), p))
  {
    hide Mul, Conj;
    if n == 0 {
      MulZero(p);
    } else {
      RowTimesRankOne(r, s, p, col, w, n - 1);
      var c, d := Conj(col[n - 1]), w[n - 1];
      MulAddLeft(s[n - 1], Mul(c, p), d);
      MulSwap(c, p, d);
      MulAddLeft(Dot(col, w, n - 1), Mul(c, d), p);
    }
  }

  lemma MulSwap(a: Complex, b: Complex, c: Complex)
    ensures Mul(Mul(a, b), c) == Mul(Mul(a, c), b)
  {
  }

  /** One more snapshot adds a rank-one term to the Gram matrix. */
  lemma GramSnapshot(x: Matrix, w: Vector, n: nat)
    requires n > 0 && |w| == |x|
    requires forall i :: 0 <= i < |x| ==> n <= |x[i]|
    ensures var col := Snapshot(x, n - 1);
            MatVec(Gram(x, n), w) == Plus(MatVec(Gram(x, n - 1), w), Scale(Vdot(col, w), col))
  {
    hide Mul, Conj, Add;
    var col := Snapshot(x, n - 1);
    forall i | 0 <= i < |x|
      ensures RowTimes(Gram(x, n)[i], w, |w|)
           == Add(RowTimes(Gram(x, n - 1)[i], w, |w|), Mul(Vdot(col, w), col[i]))
    {
      RowTimesRankOne(Gram(x, n)[i], Gram(x, n - 1)[i], col[i], col, w, |w|);
    }
  }

  lemma ConjugateProduct(y: Complex)
    ensures Mul(Conj(y), y) == FromReal(Abs2(y))
  {
  }

  /** `w^H (X X^H) w` is the sum of the output powers `|w^H x_t|^2`. */
  lemma {:induction false} GramQuadraticForm(x: Matrix, w: Vector, n: nat)
    requires |w| == |x|
    requires forall i :: 0 <= i < |x| ==> n <= |x[i]|
    ensures Vdot(w, MatVec(Gram(x, n), w)) == FromReal(OutputEnergy(w, x, n))
  {
    hide Mul, Conj, Abs2;
    if n == 0 {
      forall i | 0 <= i < |x|
        ensures RowTimes(Gram(x, 0)[i], w, |w|) == ZERO
      {
        ZeroRow(Gram(x, 0)[i], w, |w|);
      }
      ZeroColumn(w, MatVec(Gram(x, 0), w), |w|);
    } else {
      GramQuadraticForm(x, w, n - 1);
      GramSnapshot(x, w, n);
      var col := Snapshot(x, n - 1);
      var y := Vdot(w, col);
      DotPlusRight(w, MatVec(Gram(x, n - 1), w), Scale(Vdot(col, w), col), |w|);
      DotScaleRight(Vdot(col, w), w, col, |w|);
      DotConjugate(col, w, |w|);
      ConjugateProduct(y);
    }
  }

  lemma {:induction false} ZeroRow(r: Vector, w: Vector, n: nat)
    requires n <= |r| && n <= |w|
    requires forall j :: 0 <= j < n ==> r[j] == ZERO
    ensures RowTimes(r, w, n) == ZERO
  {
    if n != 0 {
      ZeroRow(r, w, n - 1);
      MulZero(w[n - 1]);
    }
  }

  lemma {:induction false} ZeroColumn(w: Vector, v: Vector, n: nat)
    requires n <= |w| && n <= |v|
    requires forall j :: 0 <= j < n ==> v[j] == ZERO
    ensures Dot(w, v, n) == ZERO
  {
    if n != 0 {
      ZeroColumn(w, v, n - 1);
      MulZero(Conj(w[n - 1]));
    }
  }

  lemma {:induction false} OutputEnergyNonnegative(w: Vector, x: Matrix, n: nat)
    requires |w| == |x|
    requires forall i :: 0 <= i < |x| ==> n <= |x[i]|
    ensures OutputEnergy(w, x, n) >= 0.0
  {
    hide Abs2;
    if n != 0 {
      OutputEnergyNonnegative(w, x, n - 1);
      Abs2Zero(Vdot(w, Snapshot(x, n - 1)));
    }
  }

  lemma RealScaling(c: real, e: real)
    ensures Mul(FromReal(c), FromReal(e)) == FromReal(Times(c, e))
  {
  }

  lemma MeanOf(n: real, e: real)
    requires n > 0.0
    ensures Times(1.0 / n, e) == e / n
    ensures e >= 0.0 ==> e / n >= 0.0
  {
    var q := 1.0 / n;
    assert q * n == 1.0;
    var r := e / n;
    assert r * n == e;
    assert (q * e - r) * n == 0.0;
  }

  /** The predicted power `w^H R w` is the mean of the beamformed output power over the
      snapshots: a real number that is never negative, so the clamp at zero never acts. */
  lemma PredictedPowerIsMeanOutput(x: Matrix, n: nat, w: Vector)
    requires Shaped(x, n) && |w| == |x|
    ensures var count := if n == 0 then 1.0 else n as real;
            && OutputEnergy(w, x, n) / count >= 0.0
            && Vdot(w, MatVec(CovarianceMatrix(x, n), w)) == FromReal(OutputEnergy(w, x, n) / count)
            && CovarianceOutputPower(CovarianceMatrix(x, n), w) == Some(OutputEnergy(w, x, n) / count)
  {
    hide Mul, Conj, Abs2, Dot, Energy, OutputEnergy, RowTimes, Times, Gram;
    var count := if n == 0 then 1.0 else n as real;
    var c, g := FromReal(1.0 / count), Gram(x, n);
    forall i | 0 <= i < |x|
      ensures RowTimes(ScaleRows(c, g)[i], w, |w|) == Mul(c, RowTimes(g[i], w, |w|))
    {
      RowTimesScale(c, g[i], w, |w|);
    }
    assert MatVec(CovarianceMatrix(x, n), w) == Scale(c, MatVec(g, w));
    DotScaleRight(c, w, MatVec(g, w), |w|);
    GramQuadraticForm(x, w, n);
    RealScaling(1.0 / count, OutputEnergy(w, x, n));
    MeanOf(count, OutputEnergy(w, x, n));
    OutputEnergyNonnegative(w, x, n);
  }

  // ---------- coherence with the ideal vector ----------

  /** `normalize_complex_vector`: a unit vector, or the empty vector when there is none. */
  function NormalizeComplexVector(m: Numerics, v: Vector): Vector {
    if |v| == 0 || m.sqrt(Norm2(v)) <= 0.0 then []
    else Scale(FromReal(1.0 / m.sqrt(Norm2(v))), v)
  }

  datatype CoherenceMetrics = CoherenceMetrics(
    inner: Complex, coherenceAbs: real, coherencePower: real, mismatchPower: real, aligned: Vector)

  /** `spatial_vector_coherence_metrics`, without the decibel and degree renderings. */
  function SpatialVectorCoherence(m: Numerics, reference: Vector, measured: Vector): Option<CoherenceMetrics> {
    var ideal, meas := NormalizeComplexVector(m, reference), NormalizeComplexVector(m, measured);
    if |ideal| == 0 || |meas| == 0 || |ideal| != |meas| then None
    else
      var inner := Vdot(ideal, meas);
      var size := Clip(m.sqrt(Abs2(inner)));
      var power := Times(size, size);
      var mismatch := if 1.0 - power < 0.0 then 0.0 else 1.0 - power;
      var aligned := if Abs2(inner) > 0.0 then Scale(m.unphase(inner), meas) else Scale(ONE, meas);
      Some(CoherenceMetrics(inner, size, power, mismatch, aligned))
  }

  lemma NormalizedLength(m: Numerics, v: Vector)
    requires Sound(m)
    ensures |NormalizeComplexVector(m, v)| != 0 <==> Norm2(v) > 0.0
    ensures Norm2(v) > 0.0 ==>
              && m.sqrt(Norm2(v)) > 0.0
              && |NormalizeComplexVector(m, v)| == |v|
              && Norm2(NormalizeComplexVector(m, v)) == 1.0
              && exists r: real :: r > 0.0 && NormalizeComplexVector(m, v) == Scale(FromReal(r), v)
  {
    hide Energy, Abs2, Times, Mul, FromReal, Scale;
    var e := Norm2(v);
    EnergyZero(v, |v|);
    assert Square(m.sqrt(e)) == e && m.sqrt(e) >= 0.0;
    SquarePositive(m.sqrt(e));
    if e > 0.0 {
      assert |v| != 0;
      var c := 1.0 / m.sqrt(e);
      EnergyScale(FromReal(c), v, |v|);
      UnitScale(m.sqrt(e), e);
      assert c > 0.0 && NormalizeComplexVector(m, v) == Scale(FromReal(c), v);
    }
  }

  lemma ClippedRoot(m: Numerics, p: real)
    requires Sound(m) && 0.0 <= p <= 1.0
    ensures Clip(m.sqrt(p)) == m.sqrt(p)
    ensures Times(Clip(m.sqrt(p)), Clip(m.sqrt(p))) == p
  {
    var r := m.sqrt(p);
    assert Square(r) == p && r >= 0.0;
    if r > 1.0 {
      RootAboveOne(r);
    }
  }

  lemma RootAboveOne(r: real)
    requires r > 1.0
    ensures Square(r) > 1.0
  {
    assert (r - 1.0) * (r + 1.0) > 0.0;
  }

  lemma SoundAt(m: Numerics, z: Complex)
    requires Sound(m)
    ensures Abs2(m.unphase(z)) == 1.0
    ensures Mul(m.unphase(z), z) == FromReal(m.sqrt(Abs2(z)))
  {
    hide Mul, Abs2, FromReal;
  }

  lemma UnitModulus()
    ensures Abs2(ONE) == 1.0
  {
  }

  lemma MulOne(z: Complex)
    ensures Mul(ONE, z) == z
  {
  }

  lemma ZeroIsReal()
    ensures FromReal(0.0) == ZERO
  {
  }

  lemma PhaseRemoved(m: Numerics, z: Complex)
    requires Sound(m)
    ensures var u := if Abs2(z) > 0.0 then m.unphase(z) else ONE;
            Abs2(u) == 1.0 && Mul(u, z) == FromReal(m.sqrt(Abs2(z)))
  {
    hide Sound, Mul, Abs2, FromReal;
    Abs2Zero(z);
    SoundAt(m, z);
    RootOfZero(m);
    UnitModulus();
    MulOne(z);
    assert FromReal(0.0) == ZERO by { ZeroIsReal(); }
  }

  /** With unit vectors in hand: the overlap is at most 1, so its clip does nothing, and
      removing its phase from the measured vector makes the overlap real. */
  lemma UnitOverlap(m: Numerics, ideal: Vector, meas: Vector)
    requires Sound(m) && |ideal| == |meas|
    requires Norm2(ideal) == 1.0 && Norm2(meas) == 1.0
    ensures var z := Vdot(ideal, meas);
            var u := if Abs2(z) > 0.0 then m.unphase(z) else ONE;
            && 0.0 <= Abs2(z) <= 1.0
            && Norm2(Scale(u, meas)) == 1.0
            && Vdot(ideal, Scale(u, meas)) == FromReal(m.sqrt(Abs2(z)))
  {
    hide Energy, Abs2, Times, Mul, FromReal, Dot, Sound;
    var z := Vdot(ideal, meas);
    OverlapBound(ideal, meas);
    UnitProduct();
    Abs2Zero(z);
    PhaseRemoved(m, z);
    var u := if Abs2(z) > 0.0 then m.unphase(z) else ONE;
    EnergyScale(u, meas, |meas|);
    DotScaleRight(u, ideal, meas, |meas|);
  }

  /** The reported powers need neither clamp: the coherence power is the squared overlap of
      the unit vectors, the mismatch is what is missing to 1, and the alignment makes the
      overlap real and nonnegative by one phase. */
  lemma CoherenceMetricsExact(m: Numerics, reference: Vector, measured: Vector)
    requires Sound(m) && |reference| == |measured|
    ensures SpatialVectorCoherence(m, reference, measured).Some?
       <==> Norm2(reference) > 0.0 && Norm2(measured) > 0.0
    ensures SpatialVectorCoherence(m, reference, measured).Some? ==>
              var c := SpatialVectorCoherence(m, reference, measured).value;
              && c.inner == Vdot(NormalizeComplexVector(m, reference), NormalizeComplexVector(m, measured))
              && 0.0 <= c.coherencePower <= 1.0
              && c.coherencePower == Abs2(c.inner)
              && c.coherenceAbs >= 0.0 && Square(c.coherenceAbs) == Abs2(c.inner)
              && c.mismatchPower == 1.0 - c.coherencePower
              && |c.aligned| == |reference|
              && Norm2(c.aligned) == 1.0
              && (exists u :: Abs2(u) == 1.0 && c.aligned == Scale(u, NormalizeComplexVector(m, measured)))
              && Vdot(NormalizeComplexVector(m, reference), c.aligned) == FromReal(c.coherenceAbs)
  {
    hide Energy, Abs2, Times, Mul, FromReal, Dot, Sound, Clip;
    NormalizedLength(m, reference);
    NormalizedLength(m, measured);
    if Norm2(reference) > 0.0 && Norm2(measured) > 0.0 {
      var ideal, meas := NormalizeComplexVector(m, reference), NormalizeComplexVector(m, measured);
      hide NormalizeComplexVector;
      UnitOverlap(m, ideal, meas);
      ClippedRoot(m, Abs2(Vdot(ideal, meas)));
      MetricsOf(m, reference, measured);
      PhaseRemoved(m, Vdot(ideal, meas));
      RootIsNonnegative(m, Vdot(ideal, meas));
    }
  }

  lemma MetricsOf(m: Numerics, reference: Vector, measured: Vector)
    requires SpatialVectorCoherence(m, reference, measured).Some?
    ensures var ideal, meas := NormalizeComplexVector(m, reference), NormalizeComplexVector(m, measured);
            && |ideal| == |meas|
            && SpatialVectorCoherence(m, reference, measured).value.inner == Vdot(ideal, meas)
            && SpatialVectorCoherence(m, reference, measured).value.aligned
                 == Scale(if Abs2(Vdot(ideal, meas)) > 0.0 then m.unphase(Vdot(ideal, meas)) else ONE, meas)
            && SpatialVectorCoherence(m, reference, measured).value.coherenceAbs
                 == Clip(m.sqrt(Abs2(Vdot(ideal, meas))))
  {
    hide NormalizeComplexVector, Dot, Scale, Abs2, Clip;
  }

  lemma UnitProduct()
    ensures Times(1.0, 1.0) == 1.0
  {
  }

  lemma PowerIsOverlap(m: Numerics, reference: Vector, measured: Vector)
    requires Sound(m) && |reference| == |measured|
    requires SpatialVectorCoherence(m, reference, measured).Some?
    ensures m.sqrt(Norm2(reference)) > 0.0 && m.sqrt(Norm2(measured)) > 0.0
    ensures var (ideal, meas) := (NormalizeComplexVector(m, reference), NormalizeComplexVector(m, measured));
            && ideal == Scale(FromReal(1.0 / m.sqrt(Norm2(reference))), reference) && Norm2(ideal) == 1.0
            && meas == Scale(FromReal(1.0 / m.sqrt(Norm2(measured))), measured) && Norm2(meas) == 1.0
            && SpatialVectorCoherence(m, reference, measured).value.coherencePower == Abs2(Vdot(ideal, meas))
  {
    hide Energy, Abs2, Times, Mul, FromReal, Dot, Sound, Scale;
    CoherenceMetricsExact(m, reference, measured);
    NormalizedLength(m, reference);
    NormalizedLength(m, measured);
    hide SpatialVectorCoherence;
  }

  /** The bank's coherence and the diagnostics' coherence power are the same number. */
  lemma CoherencesAgree(m: Numerics, reference: Vector, measured: Vector)
    requires Sound(m) && |reference| == |measured|
    requires Measurable(m.tiny, reference, measured)
    requires SpatialVectorCoherence(m, reference, measured).Some?
    ensures SpatialVectorCoherence(m, reference, measured).value.coherencePower
         == Coherence(m.tiny, reference, measured)
  {
    hide Energy, Abs2, Times, Mul, FromReal, Dot, Ratio, Conj, SpatialVectorCoherence, NormalizeComplexVector;
    PowerIsOverlap(m, reference, measured);
    CoherenceUnclipped(m.tiny, reference, measured);
    var p, q := FromReal(1.0 / m.sqrt(Norm2(reference))), FromReal(1.0 / m.sqrt(Norm2(measured)));
    var ideal, meas := Scale(p, reference), Scale(q, measured);
    DotScaleLeft(p, reference, meas, |meas|);
    DotScaleRight(q, reference, measured, |meas|);
    var z := Vdot(reference, measured);
    ConjugateSize(p);
    ProductOfModuli(Conj(p), Mul(q, z));
    ProductOfModuli(q, z);
    EnergyScale(p, reference, |reference|);
    EnergyScale(q, measured, |measured|);
    ProductOfInverses(Abs2(p), Norm2(reference), Abs2(q), Norm2(measured), Abs2(z));
  }

  lemma ProductOfInverses(p: real, a: real, q: real, b: real, z: real)
    requires p * a == 1.0 && q * b == 1.0
    ensures Times(p, Times(q, z)) == Ratio(z, Times(a, b))
  {
    assert (p * a) * (q * b) == (p * q) * (a * b);
    var y := a * b;
    assert (p * (q * z)) * y == z * ((p * a) * (q * b));
    assert y != 0.0;
    assert Ratio(z, y) * y == z;
    assert (p * (q * z) - Ratio(z, y)) * y == 0.0;
  }
}
