/** The two feedback laws of the B3I generator. Every bit sequence that follows one of them comes
    back after 8191 terms: jumping 16, 32, ..., 8192 terms ahead is worked out by squaring, and 8192
    ahead is one ahead. */
module BeidouB3iRecurrences {
  import opened ShiftRegisters
  import opened BinaryRecurrences
  import opened Periods

  const PERIOD: nat := 8191

  /** 1 + X + X^3 + X^4 + X^13, as the register taps it. */
  ghost predicate FirstRecurs(s: nat -> bool, n: nat) {
    s(n + 13) == Xor(Xor(Xor(s(n), s(n + 9)), s(n + 10)), s(n + 12))
  }

  ghost predicate FollowsFirst(s: nat -> bool) {
    forall n: nat :: FirstRecurs(s, n)
  }

  /** 1 + X + X^5 + X^6 + X^7 + X^9 + X^10 + X^12 + X^13. */
  ghost predicate SecondRecurs(s: nat -> bool, n: nat) {
    s(n + 13) ==
    Xor(Xor(Xor(Xor(Xor(Xor(Xor(s(n), s(n + 1)), s(n + 3)), s(n + 4)), s(n + 6)), s(n + 7)), s(n + 8)), s(n + 12))
  }

  ghost predicate FollowsSecond(s: nat -> bool) {
    forall n: nat :: SecondRecurs(s, n)
  }

  lemma FirstLawSum(s: nat -> bool, n: nat)
    ensures FirstRecurs(s, n) <==> !SumAt(s, 0x3601, n)
  {
    hide SumAt;
    SumStep(s, 0x3601, n);
    SumStep(s, 0x1b00, n + 1);
    SumStep(s, 0x0d80, n + 2);
    SumStep(s, 0x06c0, n + 3);
    SumStep(s, 0x0360, n + 4);
    SumStep(s, 0x01b0, n + 5);
    SumStep(s, 0x00d8, n + 6);
    SumStep(s, 0x006c, n + 7);
    SumStep(s, 0x0036, n + 8);
    SumStep(s, 0x001b, n + 9);
    SumStep(s, 0x000d, n + 10);
    SumStep(s, 0x0006, n + 11);
    SumStep(s, 0x0003, n + 12);
    SumStep(s, 0x0001, n + 13);
    SumStep(s, 0, n + 14);
  }

  lemma FirstFollowsLaw(s: nat -> bool)
    requires FollowsFirst(s)
    ensures Follows(s, 0x3601)
  {
    hide SumAt, FirstRecurs;
    forall n: nat
      ensures !SumAt(s, 0x3601, n)
    {
      assert FirstRecurs(s, n);
      FirstLawSum(s, n);
    }
  }

  lemma SecondLawSum(s: nat -> bool, n: nat)
    ensures SecondRecurs(s, n) <==> !SumAt(s, 0x31db, n)
  {
    hide SumAt;
    SumStep(s, 0x31db, n);
    SumStep(s, 0x18ed, n + 1);
    SumStep(s, 0x0c76, n + 2);
    SumStep(s, 0x063b, n + 3);
    SumStep(s, 0x031d, n + 4);
    SumStep(s, 0x018e, n + 5);
    SumStep(s, 0x00c7, n + 6);
    SumStep(s, 0x0063, n + 7);
    SumStep(s, 0x0031, n + 8);
    SumStep(s, 0x0018, n + 9);
    SumStep(s, 0x000c, n + 10);
    SumStep(s, 0x0006, n + 11);
    SumStep(s, 0x0003, n + 12);
    SumStep(s, 0x0001, n + 13);
    SumStep(s, 0, n + 14);
  }

  lemma SecondFollowsLaw(s: nat -> bool)
    requires FollowsSecond(s)
    ensures Follows(s, 0x31db)
  {
    hide SumAt, SecondRecurs;
    forall n: nat
      ensures !SumAt(s, 0x31db, n)
    {
      assert SecondRecurs(s, n);
      SecondLawSum(s, n);
    }
  }

  // ---------- doubling the jump ----------

  lemma FirstSquare1()
    ensures SquareFrom(0x3601, 0x2000, 0x0002, 0, 0, 13) == (0x0002, 0x0004)
  {
  }

  lemma FirstSquare2()
    ensures SquareFrom(0x3601, 0x2000, 0x0004, 0, 0, 13) == (0x0004, 0x0010)
  {
  }

  lemma FirstSquare4()
    ensures SquareFrom(0x3601, 0x2000, 0x0010, 0, 0, 13) == (0x0010, 0x0100)
  {
  }

  lemma FirstSquare8()
    ensures SquareFrom(0x3601, 0x2000, 0x0100, 0, 0, 13) == (0x0100, 0x040e)
  {
  }

  lemma FirstSquare16()
    ensures SquareFrom(0x3601, 0x2000, 0x040e, 0, 0, 13) == (0x040e, 0x1ab7)
  {
  }

  lemma FirstSquare32()
    ensures SquareFrom(0x3601, 0x2000, 0x1ab7, 0, 0, 13) == (0x1ab7, 0x1698)
  {
  }

  lemma FirstSquare64()
    ensures SquareFrom(0x3601, 0x2000, 0x1698, 0, 0, 13) == (0x1698, 0x0fa0)
  {
  }

  lemma FirstSquare128()
    ensures SquareFrom(0x3601, 0x2000, 0x0fa0, 0, 0, 13) == (0x0fa0, 0x1758)
  {
  }

  lemma FirstSquare256()
    ensures SquareFrom(0x3601, 0x2000, 0x1758, 0, 0, 13) == (0x1758, 0x01ad)
  {
  }

  lemma FirstSquare512()
    ensures SquareFrom(0x3601, 0x2000, 0x01ad, 0, 0, 13) == (0x01ad, 0x1a5c)
  {
  }

  lemma FirstSquare1024()
    ensures SquareFrom(0x3601, 0x2000, 0x1a5c, 0, 0, 13) == (0x1a5c, 0x18de)
  {
  }

  lemma FirstSquare2048()
    ensures SquareFrom(0x3601, 0x2000, 0x18de, 0, 0, 13) == (0x18de, 0x12e1)
  {
  }

  lemma FirstSquare4096()
    ensures SquareFrom(0x3601, 0x2000, 0x12e1, 0, 0, 13) == (0x12e1, 0x0002)
  {
  }

  lemma FirstJumps4096(s: nat -> bool)
    requires Follows(s, 0x3601)
    ensures Jumps(s, 4096, 0x12e1)
  {
    hide Follows, Jumps, SquareFrom;
    JumpsByOne(s);
    FirstSquare1();
    JumpTwice(s, 0x3601, 0x2000, 1, 0x0002, 0x0004, 13);
    FirstSquare2();
    JumpTwice(s, 0x3601, 0x2000, 2, 0x0004, 0x0010, 13);
    FirstSquare4();
    JumpTwice(s, 0x3601, 0x2000, 4, 0x0010, 0x0100, 13);
    FirstSquare8();
    JumpTwice(s, 0x3601, 0x2000, 8, 0x0100, 0x040e, 13);
    FirstSquare16();
    JumpTwice(s, 0x3601, 0x2000, 16, 0x040e, 0x1ab7, 13);
    FirstSquare32();
    JumpTwice(s, 0x3601, 0x2000, 32, 0x1ab7, 0x1698, 13);
    FirstSquare64();
    JumpTwice(s, 0x3601, 0x2000, 64, 0x1698, 0x0fa0, 13);
    FirstSquare128();
    JumpTwice(s, 0x3601, 0x2000, 128, 0x0fa0, 0x1758, 13);
    FirstSquare256();
    JumpTwice(s, 0x3601, 0x2000, 256, 0x1758, 0x01ad, 13);
    FirstSquare512();
    JumpTwice(s, 0x3601, 0x2000, 512, 0x01ad, 0x1a5c, 13);
    FirstSquare1024();
    JumpTwice(s, 0x3601, 0x2000, 1024, 0x1a5c, 0x18de, 13);
    FirstSquare2048();
    JumpTwice(s, 0x3601, 0x2000, 2048, 0x18de, 0x12e1, 13);
  }

  lemma FirstJumps8192(s: nat -> bool)
    requires Follows(s, 0x3601)
    ensures Jumps(s, 8192, 0x0002)
  {
    hide Follows, Jumps, SquareFrom;
    FirstJumps4096(s);
    FirstSquare4096();
    JumpTwice(s, 0x3601, 0x2000, 4096, 0x12e1, 0x0002, 13);
  }

  lemma SecondSquare1()
    ensures SquareFrom(0x31db, 0x2000, 0x0002, 0, 0, 13) == (0x0002, 0x0004)
  {
  }

  lemma SecondSquare2()
    ensures SquareFrom(0x31db, 0x2000, 0x0004, 0, 0, 13) == (0x0004, 0x0010)
  {
  }

  lemma SecondSquare4()
    ensures SquareFrom(0x31db, 0x2000, 0x0010, 0, 0, 13) == (0x0010, 0x0100)
  {
  }

  lemma SecondSquare8()
    ensures SquareFrom(0x31db, 0x2000, 0x0100, 0, 0, 13) == (0x0100, 0x1bd9)
  {
  }

  lemma SecondSquare16()
    ensures SquareFrom(0x31db, 0x2000, 0x1bd9, 0, 0, 13) == (0x1bd9, 0x0680)
  {
  }

  lemma SecondSquare32()
    ensures SquareFrom(0x31db, 0x2000, 0x0680, 0, 0, 13) == (0x0680, 0x1c2c)
  {
  }

  lemma SecondSquare64()
    ensures SquareFrom(0x31db, 0x2000, 0x1c2c, 0, 0, 13) == (0x1c2c, 0x1464)
  {
  }

  lemma SecondSquare128()
    ensures SquareFrom(0x31db, 0x2000, 0x1464, 0, 0, 13) == (0x1464, 0x0e68)
  {
  }

  lemma SecondSquare256()
    ensures SquareFrom(0x31db, 0x2000, 0x0e68, 0, 0, 13) == (0x0e68, 0x104d)
  {
  }

  lemma SecondSquare512()
    ensures SquareFrom(0x31db, 0x2000, 0x104d, 0, 0, 13) == (0x104d, 0x08ba)
  {
  }

  lemma SecondSquare1024()
    ensures SquareFrom(0x31db, 0x2000, 0x08ba, 0, 0, 13) == (0x08ba, 0x1d65)
  {
  }

  lemma SecondSquare2048()
    ensures SquareFrom(0x31db, 0x2000, 0x1d65, 0, 0, 13) == (0x1d65, 0x1ffc)
  {
  }

  lemma SecondSquare4096()
    ensures SquareFrom(0x31db, 0x2000, 0x1ffc, 0, 0, 13) == (0x1ffc, 0x0002)
  {
  }

  lemma SecondJumps8192(s: nat -> bool)
    requires Follows(s, 0x31db)
    ensures Jumps(s, 8192, 0x0002)
  {
    hide Follows, Jumps, SquareFrom;
    JumpsByOne(s);
    SecondSquare1();
    JumpTwice(s, 0x31db, 0x2000, 1, 0x0002, 0x0004, 13);
    SecondSquare2();
    JumpTwice(s, 0x31db, 0x2000, 2, 0x0004, 0x0010, 13);
    SecondSquare4();
    JumpTwice(s, 0x31db, 0x2000, 4, 0x0010, 0x0100, 13);
    SecondSquare8();
    JumpTwice(s, 0x31db, 0x2000, 8, 0x0100, 0x1bd9, 13);
    SecondSquare16();
    JumpTwice(s, 0x31db, 0x2000, 16, 0x1bd9, 0x0680, 13);
    SecondSquare32();
    JumpTwice(s, 0x31db, 0x2000, 32, 0x0680, 0x1c2c, 13);
    SecondSquare64();
    JumpTwice(s, 0x31db, 0x2000, 64, 0x1c2c, 0x1464, 13);
    SecondSquare128();
    JumpTwice(s, 0x31db, 0x2000, 128, 0x1464, 0x0e68, 13);
    SecondSquare256();
    JumpTwice(s, 0x31db, 0x2000, 256, 0x0e68, 0x104d, 13);
    SecondSquare512();
    JumpTwice(s, 0x31db, 0x2000, 512, 0x104d, 0x08ba, 13);
    SecondSquare1024();
    JumpTwice(s, 0x31db, 0x2000, 1024, 0x08ba, 0x1d65, 13);
    SecondSquare2048();
    JumpTwice(s, 0x31db, 0x2000, 2048, 0x1d65, 0x1ffc, 13);
    SecondSquare4096();
    JumpTwice(s, 0x31db, 0x2000, 4096, 0x1ffc, 0x0002, 13);
  }

  // ---------- the period ----------

  lemma OneAhead(s: nat -> bool, n: nat)
    requires Jumps(s, 8192, 2)
    ensures s(n + 1 + PERIOD) == s(n + 1)
  {
    JumpsByOne(s);
    hide SumAt;
    assert SumAt(s, 2, n) == s(n + 8192);
    assert SumAt(s, 2, n) == s(n + 1);
  }

  lemma AheadRepeats(s: nat -> bool, n: nat)
    requires Jumps(s, 8192, 2) && n > 0
    ensures Repeats(s, PERIOD, n)
  {
    hide Jumps;
    OneAhead(s, n - 1);
    assert n - 1 + 1 + PERIOD == n + PERIOD;
  }

  lemma FirstHasPeriod(s: nat -> bool)
    requires FollowsFirst(s)
    ensures IsPeriod(s, PERIOD)
  {
    hide Jumps, Follows, FollowsFirst, Repeats;
    FirstFollowsLaw(s);
    FirstJumps8192(s);
    forall n: nat
      ensures Repeats(s, PERIOD, n)
    {
      if n == 0 {
        FirstStartRepeats(s);
      } else {
        AheadRepeats(s, n);
      }
    }
  }

  lemma FirstStartRepeats(s: nat -> bool)
    requires FollowsFirst(s) && Jumps(s, 8192, 2)
    ensures Repeats(s, PERIOD, 0)
  {
    assert FirstRecurs(s, 0) && FirstRecurs(s, PERIOD);
    hide Jumps, FollowsFirst;
    OneAhead(s, 8);
    OneAhead(s, 9);
    OneAhead(s, 11);
    OneAhead(s, 12);
  }

  lemma SecondHasPeriod(s: nat -> bool)
    requires FollowsSecond(s)
    ensures IsPeriod(s, PERIOD)
  {
    hide Jumps, Follows, FollowsSecond, Repeats;
    SecondFollowsLaw(s);
    SecondJumps8192(s);
    forall n: nat
      ensures Repeats(s, PERIOD, n)
    {
      if n == 0 {
        SecondStartRepeats(s);
      } else {
        AheadRepeats(s, n);
      }
    }
  }

  lemma SecondStartRepeats(s: nat -> bool)
    requires FollowsSecond(s) && Jumps(s, 8192, 2)
    ensures Repeats(s, PERIOD, 0)
  {
    assert SecondRecurs(s, 0) && SecondRecurs(s, PERIOD);
    hide Jumps, FollowsSecond;
    OneAhead(s, 0);
    OneAhead(s, 2);
    OneAhead(s, 3);
    OneAhead(s, 5);
    OneAhead(s, 6);
    OneAhead(s, 7);
    OneAhead(s, 11);
    OneAhead(s, 12);
  }
}
