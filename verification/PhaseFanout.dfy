/** `apply_shared_phase_fanout`: one beamformer when the logical rows are collinear, the
    general matrix product otherwise, and how far apart the two can be. */
module PhaseFanout {
  import opened ComplexVectors
  import opened SpatialVectors

  /** A two-dimensional array, which has a column count even when it has no rows. */
  datatype Array2 = Array2(rows: Matrix, columns: nat)

  predicate WellShaped(a: Array2) {
    Shaped(a.rows, a.columns)
  }

  datatype FanoutResult = ShapeMismatch | Fanout(outputs: Matrix, shared: bool)

  function Modulus(m: Numerics, z: Complex): real {
    m.sqrt(Abs2(z))
  }

  /** `conj(row) * correction` */
  function Effective(row: Vector, correction: Vector): (r: Vector)
    requires |row| == |correction|
    ensures |r| == |row|
  {
    seq(|row|, k requires 0 <= k < |row| => Mul(Conj(row[k]), correction[k]))
  }

  /** `((conj(row) * correction) @ x)[t]` */
  function Beam(row: Vector, correction: Vector, x: Array2, t: nat): Complex
    requires WellShaped(x) && |row| == |correction| == |x.rows| && t < x.columns
  {
    RowTimes(Effective(row, correction), Snapshot(x.rows, t), |row|)
  }

  function BeamRow(row: Vector, correction: Vector, x: Array2): (r: Vector)
    requires WellShaped(x) && |row| == |correction| == |x.rows|
    ensures |r| == x.columns
  {
    seq(x.columns, t requires 0 <= t < x.columns => Beam(row, correction, x, t))
  }

  function GeneralProduct(x: Array2, rows: Matrix, correction: Vector): (r: Matrix)
    requires WellShaped(x) && Shaped(rows, |x.rows|) && |correction| == |x.rows|
    ensures |r| == |rows|
  {
    seq(|rows|, i requires 0 <= i < |rows| => BeamRow(rows[i], correction, x))
  }

  /** `rows @ conj(base) / base_power` for one row. */
  function ScaleOf(base: Vector, row: Vector): Complex
    requires |base| == |row| && Norm2(base) != 0.0
  {
    Mul(FromReal(1.0 / Norm2(base)), Vdot(base, row))
  }

  /** The allowed distance from `z` in `np.allclose(..., z, rtol=1e-7, atol=1e-9)`. */
  function Tolerance(m: Numerics, z: Complex): real {
    0.000000001 + Times(0.0000001, Modulus(m, z))
  }

  predicate CloseTo(m: Numerics, row: Vector, reference: Vector)
    requires |row| == |reference|
  {
    forall k :: 0 <= k < |row| ==> Modulus(m, Sub(row[k], reference[k])) <= Tolerance(m, reference[k])
  }

  predicate Reconstructed(m: Numerics, base: Vector, rows: Matrix)
    requires Norm2(base) != 0.0 && Shaped(rows, |base|)
  {
    forall i :: 0 <= i < |rows| ==> CloseTo(m, rows[i], Scale(ScaleOf(base, rows[i]), base))
  }

  function SharedOutputs(x: Array2, base: Vector, rows: Matrix, correction: Vector): (r: Matrix)
    requires WellShaped(x) && |base| == |correction| == |x.rows| && Shaped(rows, |base|)
    requires Norm2(base) != 0.0
    ensures |r| == |rows|
  {
    seq(|rows|, i requires 0 <= i < |rows| =>
      Scale(Conj(ScaleOf(base, rows[i])), BeamRow(base, correction, x)))
  }

  function Zeros(n: nat): (r: Vector)
    ensures |r| == n
  {
    seq(n, k => ZERO)
  }

  function ApplySharedPhaseFanout(m: Numerics, x: Array2, rows: Array2, correction: Vector): FanoutResult
    requires WellShaped(x) && WellShaped(rows)
  {
    if |x.rows| != rows.columns || |correction| != |x.rows| then ShapeMismatch
    else if |rows.rows| == 0 || x.columns == 0 then
      Fanout(seq(|rows.rows|, i => Zeros(x.columns)), true)
    else
      var base := rows.rows[0];
      if Norm2(base) > m.tiny && Norm2(base) != 0.0 && Reconstructed(m, base, rows.rows) then
        Fanout(SharedOutputs(x, base, rows.rows, correction), true)
      else Fanout(GeneralProduct(x, rows.rows, correction), false)
  }

  // ---------- the exact case ----------

  lemma FactorOfBeamTerm(c: Complex, p: Complex, q: Complex)
    ensures Mul(Conj(Mul(c, p)), q) == Mul(Conj(c), Mul(Conj(p), q))
  {
    FactorLeft(c, p, q);
  }

  /** A row factor comes out of the beam conjugated. */
  lemma BeamScale(c: Complex, row: Vector, correction: Vector, x: Array2, t: nat)
    requires WellShaped(x) && |row| == |correction| == |x.rows| && t < x.columns
    ensures Beam(Scale(c, row), correction, x, t) == Mul(Conj(c), Beam(row, correction, x, t))
  {
    hide Mul, Conj, RowTimes;
    forall k | 0 <= k < |row|
      ensures Effective(Scale(c, row), correction)[k] == Scale(Conj(c), Effective(row, correction))[k]
    {
      FactorOfBeamTerm(c, row[k], correction[k]);
    }
    assert Effective(Scale(c, row), correction) == Scale(Conj(c), Effective(row, correction));
    RowTimesScale(Conj(c), Effective(row, correction), Snapshot(x.rows, t), |row|);
  }

  lemma BeamRowScale(c: Complex, row: Vector, correction: Vector, x: Array2)
    requires WellShaped(x) && |row| == |correction| == |x.rows|
    ensures BeamRow(Scale(c, row), correction, x) == Scale(Conj(c), BeamRow(row, correction, x))
  {
    hide Mul, Conj, Beam;
    forall t | 0 <= t < x.columns
      ensures BeamRow(Scale(c, row), correction, x)[t] == Scale(Conj(c), BeamRow(row, correction, x))[t]
    {
      BeamScale(c, row, correction, x, t);
    }
  }

  lemma CancelPower(d: real, c: Complex)
    requires d != 0.0
    ensures Mul(FromReal(1.0 / d), Mul(c, FromReal(d))) == c
  {
    var q := 1.0 / d;
    assert q * d == 1.0;
    CancelPart(q, d, c.re);
    CancelPart(q, d, c.im);
  }

  lemma CancelPart(q: real, d: real, x: real)
    requires q * d == 1.0
    ensures q * (x * d) == x
  {
    assert q * (x * d) == (q * d) * x;
  }

  /** Projecting an exact multiple of the base recovers its factor. */
  lemma ScaleOfMultiple(base: Vector, c: Complex)
    requires Norm2(base) != 0.0
    ensures ScaleOf(base, Scale(c, base)) == c
  {
    hide Mul, FromReal, Dot, Energy;
    DotScaleRight(c, base, base, |base|);
    DotSelf(base, |base|);
    CancelPower(Norm2(base), c);
  }

  ghost predicate MultiplesOf(rows: Matrix, p: Vector, factors: seq<Complex>) {
    |factors| == |rows| && forall i :: 0 <= i < |rows| ==> rows[i] == Scale(factors[i], p)
  }

  lemma ModulusOfZero(m: Numerics)
    requires Sound(m)
    ensures Modulus(m, ZERO) == 0.0
  {
    hide Times, Mul, FromReal;
    RootOfZero(m);
    Abs2Zero(ZERO);
  }

  lemma ModulusNonnegative(m: Numerics, z: Complex)
    requires Sound(m)
    ensures Modulus(m, z) >= 0.0 && Square(Modulus(m, z)) == Abs2(z)
  {
    hide Times, Mul, FromReal;
    Abs2Zero(z);
  }

  lemma ToleranceNonnegative(m: Numerics, z: Complex)
    requires Sound(m)
    ensures Tolerance(m, z) >= 0.0
  {
    hide Sound, Modulus, Times;
    ModulusNonnegative(m, z);
    TimesNonnegative(0.0000001, Modulus(m, z));
  }

  lemma SubSelf(z: Complex)
    ensures Sub(z, z) == ZERO
  {
  }

  lemma MultiplesAreReconstructed(m: Numerics, base: Vector, rows: Matrix, factors: seq<Complex>)
    requires Sound(m) && Norm2(base) != 0.0 && Shaped(rows, |base|)
    requires MultiplesOf(rows, base, factors)
    ensures Reconstructed(m, base, rows)
    ensures forall i :: 0 <= i < |rows| ==> ScaleOf(base, rows[i]) == factors[i]
  {
    hide Sound, Modulus, Tolerance, ScaleOf, Sub, Energy, Mul;
    forall i | 0 <= i < |rows|
      ensures ScaleOf(base, rows[i]) == factors[i] && CloseTo(m, rows[i], Scale(ScaleOf(base, rows[i]), base))
    {
      ScaleOfMultiple(base, factors[i]);
      forall k | 0 <= k < |base|
        ensures Modulus(m, Sub(rows[i][k], rows[i][k])) <= Tolerance(m, rows[i][k])
      {
        SubSelf(rows[i][k]);
        ModulusOfZero(m);
        ToleranceNonnegative(m, rows[i][k]);
      }
    }
  }

  /** Exactly collinear rows over a base of measurable power always take the fast path, and it
      gives exactly the general product. */
  lemma CollinearFanoutIsExact(m: Numerics, x: Array2, rows: Array2, correction: Vector, factors: seq<Complex>)
    requires Sound(m) && WellShaped(x) && WellShaped(rows)
    requires |x.rows| == rows.columns == |correction| && |rows.rows| > 0 && x.columns > 0
    requires Norm2(rows.rows[0]) > m.tiny
    requires MultiplesOf(rows.rows, rows.rows[0], factors)
    ensures ApplySharedPhaseFanout(m, x, rows, correction)
         == Fanout(GeneralProduct(x, rows.rows, correction), true)
  {
    hide Sound, Reconstructed, ScaleOf, BeamRow, Energy, Mul, Conj;
    var base := rows.rows[0];
    assert m.tiny > 0.0 by { TinyPositive(m); }
    MultiplesAreReconstructed(m, base, rows.rows, factors);
    forall i | 0 <= i < |rows.rows|
      ensures SharedOutputs(x, base, rows.rows, correction)[i] == GeneralProduct(x, rows.rows, correction)[i]
    {
      BeamRowScale(factors[i], base, correction, x);
    }
  }

  lemma TinyPositive(m: Numerics)
    requires Sound(m)
    ensures m.tiny > 0.0
  {
  }

  // ---------- one shared beam ----------

  lemma NormOfMultiple(c: Complex, p: Vector)
    requires Norm2(Scale(c, p)) != 0.0
    ensures Abs2(c) != 0.0
  {
    EnergyScale(c, p, |p|);
  }

  lemma RescaleMultiple(c: Complex, d: Complex, p: Vector)
    requires Abs2(c) != 0.0
    ensures Scale(d, p) == Scale(Div(d, c), Scale(c, p))
  {
    hide Mul, Div, Abs2;
    DivMul(d, c);
    forall k | 0 <= k < |p|
      ensures Scale(d, p)[k] == Scale(Div(d, c), Scale(c, p))[k]
    {
      MulAssoc(Div(d, c), c, p[k]);
    }
  }

  /** When every row is a multiple of one spatial vector, every output is that vector's beam
      times one conjugated factor, on either path. So where that beam is zero, all are. */
  lemma SharedVectorSharedBeam(m: Numerics, x: Array2, rows: Array2, correction: Vector, p: Vector, factors: seq<Complex>)
    requires Sound(m) && WellShaped(x) && WellShaped(rows)
    requires |x.rows| == rows.columns == |correction| == |p| && |rows.rows| > 0 && x.columns > 0
    requires MultiplesOf(rows.rows, p, factors)
    ensures var r := ApplySharedPhaseFanout(m, x, rows, correction);
            && r.Fanout? && |r.outputs| == |rows.rows|
            && forall i :: 0 <= i < |rows.rows| ==> r.outputs[i] == Scale(Conj(factors[i]), BeamRow(p, correction, x))
  {
    hide Sound, Reconstructed, ScaleOf, BeamRow, Energy, Mul, Conj, SharedOutputs, Abs2, Div;
    var base := rows.rows[0];
    forall i | 0 <= i < |rows.rows|
      ensures GeneralProduct(x, rows.rows, correction)[i] == Scale(Conj(factors[i]), BeamRow(p, correction, x))
    {
      BeamRowScale(factors[i], p, correction, x);
    }
    if Norm2(base) > m.tiny {
      TinyPositive(m);
      NormOfMultiple(factors[0], p);
      var relative := seq(|factors|, i requires 0 <= i < |factors| => Div(factors[i], factors[0]));
      forall i | 0 <= i < |rows.rows|
        ensures rows.rows[i] == Scale(relative[i], base)
      {
        RescaleMultiple(factors[0], factors[i], p);
      }
      CollinearFanoutIsExact(m, x, rows, correction, relative);
    }
  }

  // ---------- what each path computes ----------

  /** The samples of one snapshot, each corrected for its channel. */
  function Corrected(correction: Vector, sample: Vector): (r: Vector)
    requires |correction| == |sample|
    ensures |r| == |sample|
  {
    seq(|sample|, k requires 0 <= k < |sample| => Mul(correction[k], sample[k]))
  }

  lemma {:induction false} EffectiveIsCorrected(row: Vector, correction: Vector, sample: Vector, n: nat)
    requires |row| == |correction| == |sample| && n <= |row|
    ensures RowTimes(Effective(row, correction), sample, n) == Dot(row, Corrected(correction, sample), n)
  {
    hide Mul, Conj, Add;
    if n > 0 {
      EffectiveIsCorrected(row, correction, sample, n - 1);
      MulAssoc(Conj(row[n - 1]), correction[n - 1], sample[n - 1]);
    }
  }

  /** A beam is the response `w^H` of its row to the corrected snapshot. */
  lemma BeamIsResponse(row: Vector, correction: Vector, x: Array2, t: nat)
    requires WellShaped(x) && |row| == |correction| == |x.rows| && t < x.columns
    ensures Beam(row, correction, x, t) == Vdot(row, Corrected(correction, Snapshot(x.rows, t)))
  {
    hide RowTimes, Dot, Effective, Corrected;
    EffectiveIsCorrected(row, correction, Snapshot(x.rows, t), |row|);
  }

  /** The factor of a row is that of its projection on the base. */
  lemma ScaleIsProjection(base: Vector, row: Vector)
    requires |base| == |row| && Norm2(base) != 0.0
    ensures Vdot(base, Scale(ScaleOf(base, row), base)) == Vdot(base, row)
  {
    hide Mul, FromReal, Dot, Energy, Scale;
    DotScaleRight(ScaleOf(base, row), base, base, |base|);
    DotSelf(base, |base|);
    CancelScaled(Norm2(base), Vdot(base, row));
  }

  lemma CancelScaled(d: real, c: Complex)
    requires d != 0.0
    ensures Mul(Mul(FromReal(1.0 / d), c), FromReal(d)) == c
  {
    var q := 1.0 / d;
    assert q * d == 1.0;
    CancelPart(q, d, c.re);
    CancelPart(q, d, c.im);
    assert q * c.re * d == q * (c.re * d) && q * c.im * d == q * (c.im * d);
  }

  /** Mismatched shapes are the error and nothing else is; without rows or samples the outputs are
      empty; otherwise the one beam is used exactly when the first row has measurable power and every
      entry of every row is within 1e-9 + 1e-7 * |z| of the entry `z` of its projection. */
  lemma FastPathIff(m: Numerics, x: Array2, rows: Array2, correction: Vector)
    requires Sound(m) && WellShaped(x) && WellShaped(rows)
    ensures var r := ApplySharedPhaseFanout(m, x, rows, correction);
            && (r.ShapeMismatch? <==> |x.rows| != rows.columns || |correction| != |x.rows|)
            && (r.Fanout? ==> |r.outputs| == |rows.rows| && Shaped(r.outputs, x.columns))
            && (r.Fanout? && |rows.rows| > 0 && x.columns > 0 ==>
                  var base := rows.rows[0];
                  r.shared <==>
                    && Norm2(base) > m.tiny
                    && forall i, k :: 0 <= i < |rows.rows| && 0 <= k < |base| ==>
                         var z := Mul(ScaleOf(base, rows.rows[i]), base[k]);
                         Modulus(m, Sub(rows.rows[i][k], z)) <= 0.000000001 + Times(0.0000001, Modulus(m, z)))
  {
    TinyPositive(m);
    hide Sound, Modulus, Mul, Sub, Times, ScaleOf, Energy, Beam;
    if |x.rows| == rows.columns == |correction| && |rows.rows| > 0 && x.columns > 0 && Norm2(rows.rows[0]) > m.tiny {
      var base := rows.rows[0];
      forall i, k | 0 <= i < |rows.rows| && 0 <= k < |base|
        ensures Scale(ScaleOf(base, rows.rows[i]), base)[k] == Mul(ScaleOf(base, rows.rows[i]), base[k])
      {
      }
    }
  }

  // ---------- the tolerance case ----------

  lemma DifferenceOfSquares(x: real, y: real)
    requires x > y >= 0.0
    ensures Square(x) > Square(y)
  {
    TimesPositive(x - y, x + y);
    assert Times(x - y, x + y) == Square(x) - Square(y);
  }

  lemma RootOrder(x: real, y: real)
    requires x >= 0.0 && y >= 0.0
    ensures Square(x) <= Square(y) ==> x <= y
    ensures Square(x) == Square(y) ==> x == y
  {
    hide Square;
    if x > y {
      DifferenceOfSquares(x, y);
    } else if x < y {
      DifferenceOfSquares(y, x);
    }
  }

  lemma ModulusProduct(m: Numerics, a: Complex, b: Complex)
    requires Sound(m)
    ensures Modulus(m, Mul(a, b)) == Times(Modulus(m, a), Modulus(m, b))
  {
    hide Sound, Modulus, Abs2, Mul;
    ModulusNonnegative(m, a);
    ModulusNonnegative(m, b);
    ModulusNonnegative(m, Mul(a, b));
    Abs2Mul(a, b);
    var x, y := Modulus(m, a), Modulus(m, b);
    SquareOfProduct(x, y);
    TimesNonnegative(x, y);
    RootOrder(Modulus(m, Mul(a, b)), Times(x, y));
  }

  lemma SquareOfProduct(x: real, y: real)
    ensures Square(Times(x, y)) == Square(x) * Square(y)
  {
  }

  /** The real part is no larger than the modulus. */
  lemma RealPartBound(m: Numerics, z: Complex)
    requires Sound(m)
    ensures z.re <= Modulus(m, z)
  {
    hide Sound, Modulus, Times;
    ModulusNonnegative(m, z);
    SquarePositive(z.im);
    if z.re > 0.0 {
      RootOrder(z.re, Modulus(m, z));
    }
  }

  lemma SquareOfSum(x: real, y: real)
    ensures Square(x + y) == Square(x) + Square(y) + 2.0 * Times(x, y)
  {
  }

  lemma TriangleInequality(m: Numerics, a: Complex, b: Complex)
    requires Sound(m)
    ensures Modulus(m, Add(a, b)) <= Modulus(m, a) + Modulus(m, b)
  {
    hide Sound, Modulus, Abs2, Mul, Times, Conj, Add;
    var x, y := Modulus(m, a), Modulus(m, b);
    ModulusNonnegative(m, a);
    ModulusNonnegative(m, b);
    ModulusNonnegative(m, Add(a, b));
    Abs2Add(a, b);
    RealPartBound(m, Mul(Conj(a), b));
    ModulusProduct(m, Conj(a), b);
    ModulusConj(m, a);
    SquareOfSum(x, y);
    RootOrder(Modulus(m, Add(a, b)), x + y);
  }

  lemma ModulusConj(m: Numerics, a: Complex)
    ensures Modulus(m, Conj(a)) == Modulus(m, a)
  {
    hide Abs2;
    ConjugateSize(a);
  }

  /** The sum of (1e-9 + 1e-7 * |reference_k|) * |correction_k| * |sample_k| over the first `n` channels. */
  function ErrorBudget(m: Numerics, reference: Vector, correction: Vector, sample: Vector, n: nat): real
    requires n <= |reference| && n <= |correction| && n <= |sample|
  {
    if n == 0 then 0.0
    else
      ErrorBudget(m, reference, correction, sample, n - 1)
      + Times(Times(0.000000001 + Times(0.0000001, Modulus(m, reference[n - 1])), Modulus(m, correction[n - 1])),
              Modulus(m, sample[n - 1]))
  }

  lemma TermDifference(p: Complex, q: Complex, c: Complex, s: Complex)
    ensures Sub(Mul(Mul(Conj(p), c), s), Mul(Mul(Conj(q), c), s)) == Mul(Mul(Conj(Sub(p, q)), c), s)
  {
    var u, v, w := Conj(p), Conj(q), Conj(Sub(p, q));
    assert w == Sub(u, v);
    SubFactor(u, v, c);
    SubFactor(Mul(u, c), Mul(v, c), s);
  }

  lemma SubFactor(u: Complex, v: Complex, c: Complex)
    ensures Mul(Sub(u, v), c) == Sub(Mul(u, c), Mul(v, c))
  {
  }

  lemma SubOfSums(a: Complex, b: Complex, c: Complex, d: Complex)
    ensures Sub(Add(a, b), Add(c, d)) == Add(Sub(a, c), Sub(b, d))
  {
  }

  lemma TimesMonotone(x: real, y: real, z: real)
    requires 0.0 <= x <= y && z >= 0.0
    ensures Times(x, z) <= Times(y, z)
  {
    TimesNonnegative(y - x, z);
  }

  lemma TermBound(m: Numerics, p: Complex, q: Complex, c: Complex, s: Complex, tolerance: real)
    requires Sound(m) && Modulus(m, Sub(p, q)) <= tolerance
    ensures Modulus(m, Sub(Mul(Mul(Conj(p), c), s), Mul(Mul(Conj(q), c), s)))
         <= Times(Times(tolerance, Modulus(m, c)), Modulus(m, s))
  {
    hide Sound, Modulus, Abs2, Mul, Times, Conj, Sub;
    var d := Sub(p, q);
    TermDifference(p, q, c, s);
    ModulusProduct(m, Mul(Conj(d), c), s);
    ModulusProduct(m, Conj(d), c);
    ModulusConj(m, d);
    ModulusNonnegative(m, d);
    ModulusNonnegative(m, c);
    ModulusNonnegative(m, s);
    TimesMonotone(Modulus(m, d), tolerance, Modulus(m, c));
    TimesNonnegative(Modulus(m, d), Modulus(m, c));
    TimesMonotone(Times(Modulus(m, d), Modulus(m, c)), Times(tolerance, Modulus(m, c)), Modulus(m, s));
  }

  lemma {:induction false} BeamErrorBound(m: Numerics, row: Vector, reference: Vector, correction: Vector, sample: Vector, n: nat)
    requires Sound(m) && |row| == |reference| == |correction| == |sample| && n <= |row|
    requires CloseTo(m, row, reference)
    ensures Modulus(m, Sub(RowTimes(Effective(row, correction), sample, n),
                           RowTimes(Effective(reference, correction), sample, n)))
         <= ErrorBudget(m, reference, correction, sample, n)
  {
    hide Sound, Modulus, Mul, Times, Conj, Sub, Add;
    if n == 0 {
      SubSelf(ZERO);
      ModulusOfZero(m);
    } else {
      BeamErrorBound(m, row, reference, correction, sample, n - 1);
      var k := n - 1;
      TermBound(m, row[k], reference[k], correction[k], sample[k], Tolerance(m, reference[k]));
      var a, b := RowTimes(Effective(row, correction), sample, k), Mul(Effective(row, correction)[k], sample[k]);
      var c, d := RowTimes(Effective(reference, correction), sample, k), Mul(Effective(reference, correction)[k], sample[k]);
      SubOfSums(a, b, c, d);
      TriangleInequality(m, Sub(a, c), Sub(b, d));
    }
  }

  /** Whatever path is taken, each output sample is within the sum over channels of tolerance
      times |correction| times |sample| of the general product; off the fast path it is equal. */
  lemma FanoutErrorBound(m: Numerics, x: Array2, rows: Array2, correction: Vector, i: nat, t: nat)
    requires Sound(m) && WellShaped(x) && WellShaped(rows)
    requires |x.rows| == rows.columns == |correction| && i < |rows.rows| && t < x.columns
    ensures var r := ApplySharedPhaseFanout(m, x, rows, correction);
            && r.Fanout? && |r.outputs| == |rows.rows| && |r.outputs[i]| == x.columns
            && (!r.shared ==> r.outputs[i][t] == Beam(rows.rows[i], correction, x, t))
            && (r.shared ==>
                  && Norm2(rows.rows[0]) > m.tiny && Norm2(rows.rows[0]) != 0.0
                  && Modulus(m, Sub(Beam(rows.rows[i], correction, x, t), r.outputs[i][t]))
                       <= ErrorBudget(m, Scale(ScaleOf(rows.rows[0], rows.rows[i]), rows.rows[0]), correction,
                                      Snapshot(x.rows, t), |correction|))
  {
    hide Sound, Modulus, Mul, Conj, Sub, Tolerance, Energy, RowTimes, ErrorBudget, ScaleOf, CloseTo, Effective;
    var base, row := rows.rows[0], rows.rows[i];
    if Norm2(base) > m.tiny && Norm2(base) != 0.0 && Reconstructed(m, base, rows.rows) {
      var c := ScaleOf(base, row);
      BeamScale(c, base, correction, x, t);
      BeamErrorBound(m, row, Scale(c, base), correction, Snapshot(x.rows, t), |correction|);
    }
  }
}
