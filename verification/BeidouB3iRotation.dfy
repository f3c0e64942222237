/** Exactly when a B3I code with a chip shift is the unshifted code rotated: an overflow of the
    32-bit sums always misplaces some chip, for every satellite. */
module BeidouB3iRotation {
  import opened ShiftRegisters
  import opened BinaryRecurrences
  import opened Periods
  import opened BeidouB3iRecurrences
  import opened BeidouB3iPeriod
  import opened BeidouB3iCodes
  import B = BeidouB3i

  /** What a 32-bit overflow takes off a sum, in chips: 2^32 leaves this remainder. */
  const SLIP: nat := 4096

  // ---------- the second code differs from itself after a slip ----------

  function Changes(s: nat -> bool, n: nat): bool {
    Xor(s(n), s(n + SLIP))
  }

  ghost function Change(s: nat -> bool): nat -> bool {
    (n: nat) => Changes(s, n)
  }

  lemma ChangeIs(s: nat -> bool, n: nat)
    ensures Change(s)(n) == Xor(s(n), s(n + SLIP))
  {
    assert Change(s)(n) == Changes(s, n) by {
      hide Changes;
    }
  }

  /** Sums of terms and changes can be taken in either order. */
  lemma {:induction false} SumOfChange(s: nat -> bool, p: Mask, n: nat)
    ensures SumAt(Change(s), p, n) == Xor(SumAt(s, p, n), SumAt(s, p, n + SLIP))
    decreases p
  {
    hide Change, SumAt, Odd, Half;
    HalfIsSmaller(p);
    SumStep(s, p, n);
    SumStep(s, p, n + SLIP);
    SumStep(Change(s), p, n);
    if p != 0 {
      SumOfChange(s, Half(p), n + 1);
      ChangeIs(s, n);
      assert n + 1 + SLIP == n + SLIP + 1;
    }
  }

  lemma ChangeFollows(s: nat -> bool)
    requires FollowsSecond(s)
    ensures FollowsSecond(Change(s))
  {
    hide Change, SumAt, SecondRecurs;
    forall n: nat
      ensures SecondRecurs(Change(s), n)
    {
      assert SecondRecurs(s, n) && SecondRecurs(s, n + SLIP);
      SecondLawSum(s, n);
      SecondLawSum(s, n + SLIP);
      SecondLawSum(Change(s), n);
      SumOfChange(s, 0x31db, n);
    }
  }

  /** The positions up to 26 at which the first code is the same after a slip, as far as needed. */
  predicate IsQuiet(x: nat) {
    x == 1 || x == 3 || x == 5 || x == 6 || x == 9 || x == 10 || x == 13
    || x == 15 || x == 18 || x == 20 || x == 21 || x == 23 || x == 26
  }

  /** A sequence of the second law that is zero at those thirteen positions is zero at the start. */
  lemma QuietMeansZero(s: nat -> bool)
    requires FollowsSecond(s)
    requires forall x: nat :: IsQuiet(x) ==> !s(x)
    ensures forall k: nat :: k < 13 ==> !s(k)
  {
    assert !s(1) && !s(3) && !s(5) && !s(6) && !s(9) && !s(10) && !s(13);
    assert !s(15) && !s(18) && !s(20) && !s(21) && !s(23) && !s(26);
    assert SecondRecurs(s, 0) && SecondRecurs(s, 1) && SecondRecurs(s, 2) && SecondRecurs(s, 3) && SecondRecurs(s, 4);
    assert SecondRecurs(s, 5) && SecondRecurs(s, 6) && SecondRecurs(s, 7) && SecondRecurs(s, 8) && SecondRecurs(s, 9);
    assert SecondRecurs(s, 10) && SecondRecurs(s, 11) && SecondRecurs(s, 12) && SecondRecurs(s, 13);
  }

  lemma {:induction false} ZeroForever(s: nat -> bool, n: nat)
    requires FollowsSecond(s)
    requires forall k: nat :: k < 13 ==> !s(k)
    ensures !s(n)
  {
    if n >= 13 {
      var m := n - 13;
      ZeroForever(s, m);
      ZeroForever(s, m + 1);
      ZeroForever(s, m + 3);
      ZeroForever(s, m + 4);
      ZeroForever(s, m + 6);
      ZeroForever(s, m + 7);
      ZeroForever(s, m + 8);
      ZeroForever(s, m + 12);
      assert SecondRecurs(s, m);
    }
  }

  /** A constant sequence of the second law is zero. */
  lemma ConstantIsZero(s: nat -> bool, n: nat)
    requires FollowsSecond(s) && IsPeriod(s, 1)
    ensures !s(n)
  {
    assert SecondRecurs(s, 0);
    hide FollowsSecond, Repeats;
    AsAtZero(s, 1);
    AsAtZero(s, 3);
    AsAtZero(s, 4);
    AsAtZero(s, 6);
    AsAtZero(s, 7);
    AsAtZero(s, 8);
    AsAtZero(s, 12);
    AsAtZero(s, 13);
    AsAtZero(s, n);
  }

  lemma {:induction false} AsAtZero(s: nat -> bool, n: nat)
    requires IsPeriod(s, 1)
    ensures s(n) == s(0)
  {
    if n > 0 {
      AsAtZero(s, n - 1);
      assert Repeats(s, 1, n - 1);
    }
  }

  predicate HasAOne(state: string)
    requires |state| == 13
  {
    state[0] == '1' || state[2] == '1' || state[3] == '1' || state[9] == '1'
  }

  lemma LowerStates(index: nat)
    requires index < 21
    ensures HasAOne(B.InitialState(index))
  {
  }

  lemma MiddleStates(index: nat)
    requires 21 <= index < 42
    ensures HasAOne(B.InitialState(index))
  {
  }

  lemma UpperStates(index: nat)
    requires 42 <= index < 63
    ensures HasAOne(B.InitialState(index))
  {
  }

  /** No satellite starts the second register empty. */
  lemma StartsWithAOne(index: nat)
    requires index < 63
    ensures B.G2(index, 12) || B.G2(index, 10) || B.G2(index, 9) || B.G2(index, 3)
  {
    hide B.InitialState;
    if index < 21 {
      LowerStates(index);
    } else if index < 42 {
      MiddleStates(index);
    } else {
      UpperStates(index);
    }
  }

  lemma SomeQuietChange(index: nat) returns (x: nat)
    requires index < 63
    ensures IsQuiet(x) && B.G2(index, x) != B.G2(index, x + SLIP)
  {
    hide B.G2, B.InitialState, FollowsSecond, IsPeriod;
    var s := B.Term2(index);
    var c := Change(s);
    SecondFollows(index);
    ChangeFollows(s);
    if x0: nat :| IsQuiet(x0) && c(x0) {
      x := x0;
      ChangeIs(s, x);
    } else {
      QuietMeansZero(c);
      UnchangedHasPeriod(s);
      SecondHasPeriod(s);
      MersennePrime();
      PrimePeriod(s, PERIOD, SLIP);
      ConstantIsZero(s, 12);
      ConstantIsZero(s, 10);
      ConstantIsZero(s, 9);
      ConstantIsZero(s, 3);
      StartsWithAOne(index);
    }
  }

  lemma UnchangedHasPeriod(s: nat -> bool)
    requires FollowsSecond(Change(s))
    requires forall k: nat :: k < 13 ==> !Change(s)(k)
    ensures IsPeriod(s, SLIP)
  {
    hide FollowsSecond, Change;
    forall n: nat
      ensures Repeats(s, SLIP, n)
    {
      ZeroForever(Change(s), n);
      ChangeIs(s, n);
    }
  }

  // ---------- where the first code does not ----------

  predicate KnownTerm(n: nat) {
    n < 13 || n == 14 || n == 19 || 21 <= n <= 24 || n == 27 || n == 30 || n == 32 || n == 37 || n == 38
  }

  lemma {:induction false} FirstTermsKnown(s: nat -> bool, n: nat)
    requires IsFirstCode(s) && n < 39
    ensures s(n) == KnownTerm(n)
  {
    if n >= 13 {
      FirstTermsKnown(s, n - 13);
      FirstTermsKnown(s, n - 13 + 9);
      FirstTermsKnown(s, n - 13 + 10);
      FirstTermsKnown(s, n - 13 + 12);
      assert FirstRecurs(s, n - 13);
    }
  }

  lemma SlipSum(s: nat -> bool, n: nat)
    ensures SumAt(s, 0x12e1, n)
         == Xor(s(n), Xor(s(n + 5), Xor(s(n + 6), Xor(s(n + 7), Xor(s(n + 9), s(n + 12))))))
  {
    hide SumAt;
    SumStep(s, 0x12e1, n);
    SumStep(s, 0x0970, n + 1);
    SumStep(s, 0x04b8, n + 2);
    SumStep(s, 0x025c, n + 3);
    SumStep(s, 0x012e, n + 4);
    SumStep(s, 0x0097, n + 5);
    SumStep(s, 0x004b, n + 6);
    SumStep(s, 0x0025, n + 7);
    SumStep(s, 0x0012, n + 8);
    SumStep(s, 0x0009, n + 9);
    SumStep(s, 0x0004, n + 10);
    SumStep(s, 0x0002, n + 11);
    SumStep(s, 0x0001, n + 12);
    SumStep(s, 0, n + 13);
  }

  /** A first code without reset is the same after a slip at the quiet positions. */
  lemma QuietAfterSlip(s: nat -> bool, x: nat)
    requires IsFirstCode(s) && IsQuiet(x)
    ensures s(x) == s(x + SLIP)
  {
    FirstFollowsLaw(s);
    FirstJumps4096(s);
    SlipSum(s, x);
    hide FollowsFirst, SumAt;
    assert SumAt(s, 0x12e1, x) == s(x + SLIP);
    FirstTermsKnown(s, x);
    FirstTermsKnown(s, x + 5);
    FirstTermsKnown(s, x + 6);
    FirstTermsKnown(s, x + 7);
    FirstTermsKnown(s, x + 9);
    FirstTermsKnown(s, x + 12);
  }

  lemma FirstIsQuiet(x: nat)
    requires IsQuiet(x)
    ensures B.G1(x) == B.G1(x + SLIP)
  {
    hide Unreset, B.G1, IsFirstCode;
    UnresetIsFirstCode();
    QuietAfterSlip(Unreset, x);
    FirstCodePeriod(x);
    FirstCodePeriod(x + SLIP);
  }

  // ---------- an overflow misplaces a chip ----------

  lemma SlipRemainder(x: nat)
    requires x <= 26
    ensures (WORD + x) % B.LENGTH == x + SLIP
    ensures (WORD - B.LENGTH + x) % B.LENGTH == x + SLIP
  {
    assert WORD + x == 419840 * B.LENGTH + (x + SLIP);
    assert WORD - B.LENGTH + x == 419839 * B.LENGTH + (x + SLIP);
    ModUnique(WORD + x, 419840, x + SLIP, B.LENGTH);
    ModUnique(WORD - B.LENGTH + x, 419839, x + SLIP, B.LENGTH);
  }

  lemma ChipAt(prn: int, chipShift: uint32, i: nat, a: nat, b: nat)
    requires 1 <= prn <= 63 && i < B.LENGTH
    requires Position(B.LENGTH, chipShift, i) == a && Delay(B.LENGTH, chipShift, i) == b
    ensures B.CodeChip(prn, chipShift, i) == Chip(Xor(B.G1(a), B.G2(prn - 1, b)))
  {
    hide B.G1, B.G2, Position, Delay;
  }

  lemma OverflowMisplaces(prn: int, chipShift: uint32) returns (i: nat)
    requires 1 <= prn <= 63 && B.LENGTH + chipShift >= WORD
    ensures i < B.LENGTH && B.CodeChip(prn, chipShift, i) != B.CodeChip(prn, 0, (i + chipShift) % B.LENGTH)
  {
    hide B.G1, B.G2, B.CodeChip, Position, Delay;
    var x := SomeQuietChange(prn - 1);
    FirstIsQuiet(x);
    var j := B.LENGTH + chipShift - WORD;
    i := if j <= x then x - j else x + B.LENGTH - j;
    SlipRemainder(x);
    OverflowedReads(B.LENGTH, SLIP, chipShift, x, i);
    UnshiftedReads(B.LENGTH, x + SLIP);
    ChipAt(prn, chipShift, i, Position(B.LENGTH, chipShift, i), x);
    ChipAt(prn, 0, x + SLIP, x + SLIP, x + SLIP);
  }

  /** For every satellite and every chip shift: the code is the unshifted code rotated by the
      shift exactly when the shifted length does not overflow 32 bits. */
  lemma RotatesIffNoOverflow(prn: int, chipShift: uint32)
    requires 1 <= prn <= 63
    ensures (forall i: nat :: i < B.LENGTH ==>
               B.CodeChip(prn, chipShift, i) == B.CodeChip(prn, 0, (i + chipShift) % B.LENGTH))
       <==> B.LENGTH + chipShift < WORD
  {
    hide B.CodeChip;
    if B.LENGTH + chipShift < WORD {
      forall i: nat | i < B.LENGTH
        ensures B.CodeChip(prn, chipShift, i) == B.CodeChip(prn, 0, (i + chipShift) % B.LENGTH)
      {
        B.CodeRotates(prn, chipShift, i);
      }
    } else {
      var i := OverflowMisplaces(prn, chipShift);
    }
  }
}
