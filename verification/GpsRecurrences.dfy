/** The two feedback laws of section 3.3.2.3 of IS-GPS-200. Every bit sequence that follows one
    of them, whatever it starts from, comes back after 1023 terms: jumping 16, 32, ..., 1024 terms
    ahead is worked out by squaring, and 1024 ahead is one ahead. */
module GpsRecurrences {
  import opened ShiftRegisters
  import opened BinaryRecurrences

  const PERIOD: nat := 1023

  /** 1 + X^3 + X^10. */
  ghost predicate FirstRecurs(s: nat -> bool, n: nat) {
    s(n + 10) == Xor(s(n + 7), s(n))
  }

  ghost predicate FollowsFirst(s: nat -> bool) {
    forall n: nat :: FirstRecurs(s, n)
  }

  /** 1 + X^2 + X^3 + X^6 + X^8 + X^9 + X^10. */
  ghost predicate SecondRecurs(s: nat -> bool, n: nat) {
    s(n + 10) == Xor(Xor(Xor(Xor(Xor(s(n + 8), s(n + 7)), s(n + 4)), s(n + 2)), s(n + 1)), s(n))
  }

  ghost predicate FollowsSecond(s: nat -> bool) {
    forall n: nat :: SecondRecurs(s, n)
  }

  lemma FirstLawSum(s: nat -> bool, n: nat)
    ensures FirstRecurs(s, n) <==> !SumAt(s, 0x0481, n)
  {
    hide SumAt;
    SumStep(s, 0x0481, n);
    SumStep(s, 0x0240, n + 1);
    SumStep(s, 0x0120, n + 2);
    SumStep(s, 0x0090, n + 3);
    SumStep(s, 0x0048, n + 4);
    SumStep(s, 0x0024, n + 5);
    SumStep(s, 0x0012, n + 6);
    SumStep(s, 0x0009, n + 7);
    SumStep(s, 0x0004, n + 8);
    SumStep(s, 0x0002, n + 9);
    SumStep(s, 0x0001, n + 10);
    SumStep(s, 0, n + 11);
  }

  lemma FirstFollowsLaw(s: nat -> bool)
    requires FollowsFirst(s)
    ensures Follows(s, 0x0481)
  {
    hide SumAt, FirstRecurs;
    forall n: nat
      ensures !SumAt(s, 0x0481, n)
    {
      assert FirstRecurs(s, n);
      FirstLawSum(s, n);
    }
  }

  lemma SecondLawSum(s: nat -> bool, n: nat)
    ensures SecondRecurs(s, n) <==> !SumAt(s, 0x0597, n)
  {
    hide SumAt;
    SumStep(s, 0x0597, n);
    SumStep(s, 0x02cb, n + 1);
    SumStep(s, 0x0165, n + 2);
    SumStep(s, 0x00b2, n + 3);
    SumStep(s, 0x0059, n + 4);
    SumStep(s, 0x002c, n + 5);
    SumStep(s, 0x0016, n + 6);
    SumStep(s, 0x000b, n + 7);
    SumStep(s, 0x0005, n + 8);
    SumStep(s, 0x0002, n + 9);
    SumStep(s, 0x0001, n + 10);
    SumStep(s, 0, n + 11);
  }

  lemma SecondFollowsLaw(s: nat -> bool)
    requires FollowsSecond(s)
    ensures Follows(s, 0x0597)
  {
    hide SumAt, SecondRecurs;
    forall n: nat
      ensures !SumAt(s, 0x0597, n)
    {
      assert SecondRecurs(s, n);
      SecondLawSum(s, n);
    }
  }

  // ---------- doubling the jump ----------

  lemma FirstSquare1()
    ensures SquareFrom(0x0481, 0x0400, 0x0002, 0, 0, 10) == (0x0002, 0x0004)
  {
  }

  lemma FirstSquare2()
    ensures SquareFrom(0x0481, 0x0400, 0x0004, 0, 0, 10) == (0x0004, 0x0010)
  {
  }

  lemma FirstSquare4()
    ensures SquareFrom(0x0481, 0x0400, 0x0010, 0, 0, 10) == (0x0010, 0x0100)
  {
  }

  lemma FirstSquare8()
    ensures SquareFrom(0x0481, 0x0400, 0x0100, 0, 0, 10) == (0x0100, 0x00c9)
  {
  }

  lemma FirstSquare16()
    ensures SquareFrom(0x0481, 0x0400, 0x00c9, 0, 0, 10) == (0x00c9, 0x0357)
  {
  }

  lemma FirstSquare32()
    ensures SquareFrom(0x0481, 0x0400, 0x0357, 0, 0, 10) == (0x0357, 0x00fc)
  {
  }

  lemma FirstSquare64()
    ensures SquareFrom(0x0481, 0x0400, 0x00fc, 0, 0, 10) == (0x00fc, 0x02c7)
  {
  }

  lemma FirstSquare128()
    ensures SquareFrom(0x0481, 0x0400, 0x02c7, 0, 0, 10) == (0x02c7, 0x0027)
  {
  }

  lemma FirstSquare256()
    ensures SquareFrom(0x0481, 0x0400, 0x0027, 0, 0, 10) == (0x0027, 0x0094)
  {
  }

  lemma FirstSquare512()
    ensures SquareFrom(0x0481, 0x0400, 0x0094, 0, 0, 10) == (0x0094, 0x0002)
  {
  }

  lemma FirstJumps1024(s: nat -> bool)
    requires Follows(s, 0x0481)
    ensures Jumps(s, 1024, 0x0002)
  {
    hide Follows, Jumps, SquareFrom;
    JumpsByOne(s);
    FirstSquare1();
    JumpTwice(s, 0x0481, 0x0400, 1, 0x0002, 0x0004, 10);
    FirstSquare2();
    JumpTwice(s, 0x0481, 0x0400, 2, 0x0004, 0x0010, 10);
    FirstSquare4();
    JumpTwice(s, 0x0481, 0x0400, 4, 0x0010, 0x0100, 10);
    FirstSquare8();
    JumpTwice(s, 0x0481, 0x0400, 8, 0x0100, 0x00c9, 10);
    FirstSquare16();
    JumpTwice(s, 0x0481, 0x0400, 16, 0x00c9, 0x0357, 10);
    FirstSquare32();
    JumpTwice(s, 0x0481, 0x0400, 32, 0x0357, 0x00fc, 10);
    FirstSquare64();
    JumpTwice(s, 0x0481, 0x0400, 64, 0x00fc, 0x02c7, 10);
    FirstSquare128();
    JumpTwice(s, 0x0481, 0x0400, 128, 0x02c7, 0x0027, 10);
    FirstSquare256();
    JumpTwice(s, 0x0481, 0x0400, 256, 0x0027, 0x0094, 10);
    FirstSquare512();
    JumpTwice(s, 0x0481, 0x0400, 512, 0x0094, 0x0002, 10);
  }

  lemma SecondSquare1()
    ensures SquareFrom(0x0597, 0x0400, 0x0002, 0, 0, 10) == (0x0002, 0x0004)
  {
  }

  lemma SecondSquare2()
    ensures SquareFrom(0x0597, 0x0400, 0x0004, 0, 0, 10) == (0x0004, 0x0010)
  {
  }

  lemma SecondSquare4()
    ensures SquareFrom(0x0597, 0x0400, 0x0010, 0, 0, 10) == (0x0010, 0x0100)
  {
  }

  lemma SecondSquare8()
    ensures SquareFrom(0x0597, 0x0400, 0x0100, 0, 0, 10) == (0x0100, 0x03c3)
  {
  }

  lemma SecondSquare16()
    ensures SquareFrom(0x0597, 0x0400, 0x03c3, 0, 0, 10) == (0x03c3, 0x002d)
  {
  }

  lemma SecondSquare32()
    ensures SquareFrom(0x0597, 0x0400, 0x002d, 0, 0, 10) == (0x002d, 0x01c6)
  {
  }

  lemma SecondSquare64()
    ensures SquareFrom(0x0597, 0x0400, 0x01c6, 0, 0, 10) == (0x01c6, 0x0189)
  {
  }

  lemma SecondSquare128()
    ensures SquareFrom(0x0597, 0x0400, 0x0189, 0, 0, 10) == (0x0189, 0x0217)
  {
  }

  lemma SecondSquare256()
    ensures SquareFrom(0x0597, 0x0400, 0x0217, 0, 0, 10) == (0x0217, 0x00a0)
  {
  }

  lemma SecondSquare512()
    ensures SquareFrom(0x0597, 0x0400, 0x00a0, 0, 0, 10) == (0x00a0, 0x0002)
  {
  }

  lemma SecondJumps1024(s: nat -> bool)
    requires Follows(s, 0x0597)
    ensures Jumps(s, 1024, 0x0002)
  {
    hide Follows, Jumps, SquareFrom;
    JumpsByOne(s);
    SecondSquare1();
    JumpTwice(s, 0x0597, 0x0400, 1, 0x0002, 0x0004, 10);
    SecondSquare2();
    JumpTwice(s, 0x0597, 0x0400, 2, 0x0004, 0x0010, 10);
    SecondSquare4();
    JumpTwice(s, 0x0597, 0x0400, 4, 0x0010, 0x0100, 10);
    SecondSquare8();
    JumpTwice(s, 0x0597, 0x0400, 8, 0x0100, 0x03c3, 10);
    SecondSquare16();
    JumpTwice(s, 0x0597, 0x0400, 16, 0x03c3, 0x002d, 10);
    SecondSquare32();
    JumpTwice(s, 0x0597, 0x0400, 32, 0x002d, 0x01c6, 10);
    SecondSquare64();
    JumpTwice(s, 0x0597, 0x0400, 64, 0x01c6, 0x0189, 10);
    SecondSquare128();
    JumpTwice(s, 0x0597, 0x0400, 128, 0x0189, 0x0217, 10);
    SecondSquare256();
    JumpTwice(s, 0x0597, 0x0400, 256, 0x0217, 0x00a0, 10);
    SecondSquare512();
    JumpTwice(s, 0x0597, 0x0400, 512, 0x00a0, 0x0002, 10);
  }

  // ---------- the period ----------

  lemma OneAhead(s: nat -> bool, n: nat)
    requires Jumps(s, 1024, 2)
    ensures s(n + 1 + PERIOD) == s(n + 1)
  {
    JumpsByOne(s);
    hide SumAt;
    assert SumAt(s, 2, n) == s(n + 1024);
    assert SumAt(s, 2, n) == s(n + 1);
  }

  /** The sequence repeats after `PERIOD` terms. */
  lemma FirstRepeats(s: nat -> bool, n: nat)
    requires FollowsFirst(s)
    ensures s(n + PERIOD) == s(n)
  {
    assert FirstRecurs(s, n) && FirstRecurs(s, n + PERIOD);
    FirstFollowsLaw(s);
    FirstJumps1024(s);
    hide Jumps, Follows, FollowsFirst;
    OneAhead(s, n + 6);
    OneAhead(s, n + 9);
  }

  lemma SecondRepeats(s: nat -> bool, n: nat)
    requires FollowsSecond(s)
    ensures s(n + PERIOD) == s(n)
  {
    hide Jumps, Follows;
    SecondFollowsLaw(s);
    SecondJumps1024(s);
    if n > 0 {
      OneAhead(s, n - 1);
    } else {
      SecondStartRepeats(s);
    }
  }

  lemma SecondStartRepeats(s: nat -> bool)
    requires FollowsSecond(s) && Jumps(s, 1024, 2)
    ensures s(PERIOD) == s(0)
  {
    assert SecondRecurs(s, 0) && SecondRecurs(s, PERIOD);
    hide Jumps, FollowsSecond;
    OneAhead(s, 0);
    OneAhead(s, 1);
    OneAhead(s, 3);
    OneAhead(s, 6);
    OneAhead(s, 7);
    OneAhead(s, 9);
  }
}
