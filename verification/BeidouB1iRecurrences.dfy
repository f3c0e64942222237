/** The two feedback laws of the B1I generator. Every bit sequence that follows one of them comes
    back after 2047 terms: jumping 2, 4, ..., 2048 terms ahead is worked out by squaring, and 2048
    ahead is one ahead. The code of 2046 chips is one chip short of that. */
module BeidouB1iRecurrences {
  import opened ShiftRegisters
  import opened BinaryRecurrences
  import opened Periods
  import B = BeidouB1i

  const PERIOD: nat := 2047

  /** 1 + X + X^7 + X^8 + X^9 + X^10 + X^11, as the register taps it. */
  ghost predicate FirstRecurs(s: nat -> bool, n: nat) {
    s(n + 11) == Xor(Xor(Xor(Xor(Xor(s(n), s(n + 1)), s(n + 2)), s(n + 3)), s(n + 4)), s(n + 10))
  }

  ghost predicate FollowsFirst(s: nat -> bool) {
    forall n: nat :: FirstRecurs(s, n)
  }

  /** 1 + X + X^2 + X^3 + X^4 + X^5 + X^8 + X^9 + X^11. */
  ghost predicate SecondRecurs(s: nat -> bool, n: nat) {
    s(n + 11) ==
    Xor(Xor(Xor(Xor(Xor(Xor(Xor(s(n), s(n + 2)), s(n + 3)), s(n + 6)), s(n + 7)), s(n + 8)), s(n + 9)), s(n + 10))
  }

  ghost predicate FollowsSecond(s: nat -> bool) {
    forall n: nat :: SecondRecurs(s, n)
  }

  lemma FirstLawSum(s: nat -> bool, n: nat)
    ensures FirstRecurs(s, n) <==> !SumAt(s, 0x0c1f, n)
  {
    hide SumAt;
    SumStep(s, 0x0c1f, n);
    SumStep(s, 0x060f, n + 1);
    SumStep(s, 0x0307, n + 2);
    SumStep(s, 0x0183, n + 3);
    SumStep(s, 0x00c1, n + 4);
    SumStep(s, 0x0060, n + 5);
    SumStep(s, 0x0030, n + 6);
    SumStep(s, 0x0018, n + 7);
    SumStep(s, 0x000c, n + 8);
    SumStep(s, 0x0006, n + 9);
    SumStep(s, 0x0003, n + 10);
    SumStep(s, 0x0001, n + 11);
    SumStep(s, 0, n + 12);
  }

  lemma FirstFollowsLaw(s: nat -> bool)
    requires FollowsFirst(s)
    ensures Follows(s, 0x0c1f)
  {
    hide SumAt, FirstRecurs;
    forall n: nat
      ensures !SumAt(s, 0x0c1f, n)
    {
      assert FirstRecurs(s, n);
      FirstLawSum(s, n);
    }
  }

  lemma SecondLawSum(s: nat -> bool, n: nat)
    ensures SecondRecurs(s, n) <==> !SumAt(s, 0x0fcd, n)
  {
    hide SumAt;
    SumStep(s, 0x0fcd, n);
    SumStep(s, 0x07e6, n + 1);
    SumStep(s, 0x03f3, n + 2);
    SumStep(s, 0x01f9, n + 3);
    SumStep(s, 0x00fc, n + 4);
    SumStep(s, 0x007e, n + 5);
    SumStep(s, 0x003f, n + 6);
    SumStep(s, 0x001f, n + 7);
    SumStep(s, 0x000f, n + 8);
    SumStep(s, 0x0007, n + 9);
    SumStep(s, 0x0003, n + 10);
    SumStep(s, 0x0001, n + 11);
    SumStep(s, 0, n + 12);
  }

  lemma SecondFollowsLaw(s: nat -> bool)
    requires FollowsSecond(s)
    ensures Follows(s, 0x0fcd)
  {
    hide SumAt, SecondRecurs;
    forall n: nat
      ensures !SumAt(s, 0x0fcd, n)
    {
      assert SecondRecurs(s, n);
      SecondLawSum(s, n);
    }
  }

  // ---------- doubling the jump ----------

  lemma FirstSquares1()
    ensures SquareFrom(0x0c1f, 0x0800, 0x0002, 0, 0, 11) == (0x0002, 0x0004)
    ensures SquareFrom(0x0c1f, 0x0800, 0x0004, 0, 0, 11) == (0x0004, 0x0010)
    ensures SquareFrom(0x0c1f, 0x0800, 0x0010, 0, 0, 11) == (0x0010, 0x0100)
  {
  }

  lemma FirstSquares2()
    ensures SquareFrom(0x0c1f, 0x0800, 0x0100, 0, 0, 11) == (0x0100, 0x06b5)
    ensures SquareFrom(0x0c1f, 0x0800, 0x06b5, 0, 0, 11) == (0x06b5, 0x04e9)
    ensures SquareFrom(0x0c1f, 0x0800, 0x04e9, 0, 0, 11) == (0x04e9, 0x0372)
  {
  }

  lemma FirstSquares3()
    ensures SquareFrom(0x0c1f, 0x0800, 0x0372, 0, 0, 11) == (0x0372, 0x057a)
    ensures SquareFrom(0x0c1f, 0x0800, 0x057a, 0, 0, 11) == (0x057a, 0x0067)
    ensures SquareFrom(0x0c1f, 0x0800, 0x0067, 0, 0, 11) == (0x0067, 0x0034)
  {
  }

  lemma FirstSquares4()
    ensures SquareFrom(0x0c1f, 0x0800, 0x0034, 0, 0, 11) == (0x0034, 0x0510)
    ensures SquareFrom(0x0c1f, 0x0800, 0x0510, 0, 0, 11) == (0x0510, 0x0002)
  {
  }

  lemma FirstJumps2048(s: nat -> bool)
    requires Follows(s, 0x0c1f)
    ensures Jumps(s, 2048, 0x0002)
  {
    hide *;
    JumpsByOne(s);
    LawsAreLaws();
    FirstSquares1();
    FirstSquares2();
    FirstSquares3();
    FirstSquares4();
    JumpTwice(s, 0x0c1f, 0x0800, 1, 0x0002, 0x0004, 11);
    JumpTwice(s, 0x0c1f, 0x0800, 2, 0x0004, 0x0010, 11);
    JumpTwice(s, 0x0c1f, 0x0800, 4, 0x0010, 0x0100, 11);
    JumpTwice(s, 0x0c1f, 0x0800, 8, 0x0100, 0x06b5, 11);
    JumpTwice(s, 0x0c1f, 0x0800, 16, 0x06b5, 0x04e9, 11);
    JumpTwice(s, 0x0c1f, 0x0800, 32, 0x04e9, 0x0372, 11);
    JumpTwice(s, 0x0c1f, 0x0800, 64, 0x0372, 0x057a, 11);
    JumpTwice(s, 0x0c1f, 0x0800, 128, 0x057a, 0x0067, 11);
    JumpTwice(s, 0x0c1f, 0x0800, 256, 0x0067, 0x0034, 11);
    JumpTwice(s, 0x0c1f, 0x0800, 512, 0x0034, 0x0510, 11);
    JumpTwice(s, 0x0c1f, 0x0800, 1024, 0x0510, 0x0002, 11);
  }

  lemma SecondSquares1()
    ensures SquareFrom(0x0fcd, 0x0800, 0x0002, 0, 0, 11) == (0x0002, 0x0004)
    ensures SquareFrom(0x0fcd, 0x0800, 0x0004, 0, 0, 11) == (0x0004, 0x0010)
    ensures SquareFrom(0x0fcd, 0x0800, 0x0010, 0, 0, 11) == (0x0010, 0x0100)
  {
  }

  lemma SecondSquares2()
    ensures SquareFrom(0x0fcd, 0x0800, 0x0100, 0, 0, 11) == (0x0100, 0x0570)
    ensures SquareFrom(0x0fcd, 0x0800, 0x0570, 0, 0, 11) == (0x0570, 0x062c)
    ensures SquareFrom(0x0fcd, 0x0800, 0x062c, 0, 0, 11) == (0x062c, 0x07cc)
  {
  }

  lemma SecondSquares3()
    ensures SquareFrom(0x0fcd, 0x0800, 0x07cc, 0, 0, 11) == (0x07cc, 0x07b7)
    ensures SquareFrom(0x0fcd, 0x0800, 0x07b7, 0, 0, 11) == (0x07b7, 0x02a5)
    ensures SquareFrom(0x0fcd, 0x0800, 0x02a5, 0, 0, 11) == (0x02a5, 0x00da)
  {
  }

  lemma SecondSquares4()
    ensures SquareFrom(0x0fcd, 0x0800, 0x00da, 0, 0, 11) == (0x00da, 0x004f)
    ensures SquareFrom(0x0fcd, 0x0800, 0x004f, 0, 0, 11) == (0x004f, 0x0002)
  {
  }

  lemma SecondJumps2048(s: nat -> bool)
    requires Follows(s, 0x0fcd)
    ensures Jumps(s, 2048, 0x0002)
  {
    hide *;
    JumpsByOne(s);
    LawsAreLaws();
    SecondSquares1();
    SecondSquares2();
    SecondSquares3();
    SecondSquares4();
    JumpTwice(s, 0x0fcd, 0x0800, 1, 0x0002, 0x0004, 11);
    JumpTwice(s, 0x0fcd, 0x0800, 2, 0x0004, 0x0010, 11);
    JumpTwice(s, 0x0fcd, 0x0800, 4, 0x0010, 0x0100, 11);
    JumpTwice(s, 0x0fcd, 0x0800, 8, 0x0100, 0x0570, 11);
    JumpTwice(s, 0x0fcd, 0x0800, 16, 0x0570, 0x062c, 11);
    JumpTwice(s, 0x0fcd, 0x0800, 32, 0x062c, 0x07cc, 11);
    JumpTwice(s, 0x0fcd, 0x0800, 64, 0x07cc, 0x07b7, 11);
    JumpTwice(s, 0x0fcd, 0x0800, 128, 0x07b7, 0x02a5, 11);
    JumpTwice(s, 0x0fcd, 0x0800, 256, 0x02a5, 0x00da, 11);
    JumpTwice(s, 0x0fcd, 0x0800, 512, 0x00da, 0x004f, 11);
    JumpTwice(s, 0x0fcd, 0x0800, 1024, 0x004f, 0x0002, 11);
  }

  lemma LawsAreLaws()
    ensures IsLaw(0x0c1f, 0x0800) && IsLaw(0x0fcd, 0x0800)
  {
  }

  // ---------- the period ----------

  lemma AheadRepeats(s: nat -> bool, n: nat)
    requires Jumps(s, 2048, 2) && n > 0
    ensures Repeats(s, PERIOD, n)
  {
    JumpsByOne(s);
    hide SumAt;
    assert SumAt(s, 2, n - 1) == s(n - 1 + 2048);
    assert SumAt(s, 2, n - 1) == s(n - 1 + 1);
    assert n - 1 + 2048 == n + PERIOD;
  }

  lemma FirstHasPeriod(s: nat -> bool)
    requires FollowsFirst(s)
    ensures IsPeriod(s, PERIOD)
  {
    hide Jumps, Follows, FollowsFirst, Repeats;
    FirstFollowsLaw(s);
    FirstJumps2048(s);
    forall n: nat
      ensures Repeats(s, PERIOD, n)
    {
      if n == 0 {
        FirstStartRepeats(s);
      } else {
        AheadRepeats(s, n);
      }
    }
  }

  lemma FirstStartRepeats(s: nat -> bool)
    requires FollowsFirst(s) && Jumps(s, 2048, 2)
    ensures Repeats(s, PERIOD, 0)
  {
    assert FirstRecurs(s, 0) && FirstRecurs(s, PERIOD);
    hide Jumps, FollowsFirst;
    AheadRepeats(s, 1);
    AheadRepeats(s, 2);
    AheadRepeats(s, 3);
    AheadRepeats(s, 4);
    AheadRepeats(s, 10);
    AheadRepeats(s, 11);
  }

  lemma SecondHasPeriod(s: nat -> bool)
    requires FollowsSecond(s)
    ensures IsPeriod(s, PERIOD)
  {
    hide Jumps, Follows, FollowsSecond, Repeats;
    SecondFollowsLaw(s);
    SecondJumps2048(s);
    forall n: nat
      ensures Repeats(s, PERIOD, n)
    {
      if n == 0 {
        SecondStartRepeats(s);
      } else {
        AheadRepeats(s, n);
      }
    }
  }

  lemma SecondStartRepeats(s: nat -> bool)
    requires FollowsSecond(s) && Jumps(s, 2048, 2)
    ensures Repeats(s, PERIOD, 0)
  {
    assert SecondRecurs(s, 0) && SecondRecurs(s, PERIOD);
    hide Jumps, FollowsSecond;
    AheadRepeats(s, 2);
    AheadRepeats(s, 3);
    AheadRepeats(s, 6);
    AheadRepeats(s, 7);
    AheadRepeats(s, 8);
    AheadRepeats(s, 9);
    AheadRepeats(s, 10);
    AheadRepeats(s, 11);
  }

  // ---------- the generated code ----------

  lemma Terms(n: nat)
    ensures FirstRecurs(B.G1, n) && SecondRecurs(B.G2, n)
  {
  }

  lemma FollowTheLaws()
    ensures FollowsFirst(B.G1) && FollowsSecond(B.G2)
  {
    forall n: nat
      ensures FirstRecurs(B.G1, n) && SecondRecurs(B.G2, n)
    {
      hide B.G1, B.G2;
      Terms(n);
    }
  }

  lemma FirstTerms(n: nat)
    requires n < 11
    ensures (B.G1(n) <==> n in {1, 3, 5, 7, 9}) && (B.G2(n) <==> n in {1, 3, 5, 7, 9})
  {
  }

  /** Both codes open with 01010101010, follow the laws and so repeat after 2047 terms. */
  lemma CodesFollowTheLaws(n: nat)
    ensures FollowsFirst(B.G1) && FollowsSecond(B.G2)
    ensures n < 11 ==> (B.G1(n) <==> n in {1, 3, 5, 7, 9}) && (B.G2(n) <==> n in {1, 3, 5, 7, 9})
    ensures B.G1(n + PERIOD) == B.G1(n) && B.G2(n + PERIOD) == B.G2(n)
  {
    hide B.G1, B.G2, FollowsFirst, FollowsSecond;
    FollowTheLaws();
    if n < 11 {
      FirstTerms(n);
    }
    FirstHasPeriod(B.G1);
    SecondHasPeriod(B.G2);
    assert Repeats(B.G1, PERIOD, n) && Repeats(B.G2, PERIOD, n);
  }

  // ---------- the stages by satellite ----------

  /** The place of a selection in the signal description: by third stage, then first, then second. */
  function Place(p: B.Selection): int {
    144 * p.third + 12 * p.first + p.second
  }

  /** The pairs and triples of stages that satellites are given. */
  predicate IsGiven(p: B.Selection) {
    var (a, b) := (p.first, p.second);
    match p.third
    case 0 => 1 <= a < b <= 11 && ((a == 2 && b == 7) || (a != 2 && a != 7 && b != 2 && b != 7))
    case 1 =>
      || (a == 2 && b == 7) || (a == 4 && b in {5, 9}) || ((a == 6 || a == 8) && b == 9) || (a == 9 && b in {10, 11})
      || (a == 3 && b in {4, 6, 8, 10, 11}) || (a == 5 && b in {6, 8, 10, 11})
    case 2 => (a == 3 && b == 7) || (a == 5 && b == 7) || (a == 7 && b == 9)
    case 3 => (a == 4 && b in {5, 9}) || (a == 5 && b in {6, 8, 10, 11}) || (a == 6 && b == 9)
    case _ => false
  }

  lemma LowerGiven(index: nat)
    requires index < 21
    ensures IsGiven(B.LowerPhases(index)) && B.LowerPhases(index).third == 0
  {
    hide B.TurnsEarly, B.InRange;
  }

  lemma LowerOrder(index: nat)
    requires index < 20
    ensures Place(B.LowerPhases(index)) < Place(B.LowerPhases(index + 1))
  {
    hide B.TurnsEarly, B.InRange;
  }

  lemma MiddleGiven(index: nat)
    requires 21 <= index < 42
    ensures IsGiven(B.MiddlePhases(index)) && B.MiddlePhases(index).third == (if index < 37 then 0 else 1)
  {
    hide B.TurnsEarly, B.InRange;
  }

  lemma MiddleOrder(index: nat)
    requires 21 <= index < 41
    ensures Place(B.MiddlePhases(index)) < Place(B.MiddlePhases(index + 1))
  {
    hide B.TurnsEarly, B.InRange;
  }

  lemma UpperGiven(index: nat)
    requires 42 <= index < 63
    ensures IsGiven(B.UpperPhases(index))
    ensures B.UpperPhases(index).third == if index < 53 then 1 else if index < 56 then 2 else 3
  {
    hide B.TurnsEarly, B.InRange;
  }

  lemma UpperOrder(index: nat)
    requires 42 <= index < 62
    ensures Place(B.UpperPhases(index)) < Place(B.UpperPhases(index + 1))
  {
    hide B.TurnsEarly, B.InRange;
  }

  lemma BetweenTables()
    ensures Place(B.LowerPhases(20)) < Place(B.MiddlePhases(21))
    ensures Place(B.MiddlePhases(41)) < Place(B.UpperPhases(42))
  {
    hide B.TurnsEarly, B.InRange;
  }

  lemma NextPlace(index: nat)
    requires index < 62
    ensures Place(B.Phases(index)) < Place(B.Phases(index + 1))
  {
    hide B.LowerPhases, B.MiddlePhases, B.UpperPhases, B.TurnsEarly, B.InRange, Place;
    BetweenTables();
    if index < 20 {
      LowerOrder(index);
    } else if 21 <= index < 41 {
      MiddleOrder(index);
    } else if 42 <= index {
      UpperOrder(index);
    }
  }

  lemma {:induction false} PlacesIncrease(i: nat, j: nat)
    requires i < j < 63
    ensures Place(B.Phases(i)) < Place(B.Phases(j))
  {
    hide B.Phases, B.TurnsEarly, B.InRange, Place;
    NextPlace(j - 1);
    if i < j - 1 {
      PlacesIncrease(i, j - 1);
    }
  }

  lemma Given(prn: int)
    requires 1 <= prn <= 63
    ensures IsGiven(B.Phases(prn - 1))
    ensures B.Phases(prn - 1).third == if prn <= 37 then 0 else if prn <= 53 then 1 else if prn <= 56 then 2 else 3
  {
    hide IsGiven, B.LowerPhases, B.MiddlePhases, B.UpperPhases, B.TurnsEarly, B.InRange;
    if prn <= 21 {
      LowerGiven(prn - 1);
    } else if prn <= 42 {
      MiddleGiven(prn - 1);
    } else {
      UpperGiven(prn - 1);
    }
  }

  /** The first 37 satellites are given the pairs of stages other than 2 and 7, and that one pair;
      the others the triples listed; each satellite the next in order. There are as many pairs and
      triples as satellites, so this leaves no choice. */
  lemma StagesAsGiven(prn: int, other: int)
    requires 1 <= prn <= 63
    ensures IsGiven(B.Phases(prn - 1))
    ensures B.Phases(prn - 1).third == if prn <= 37 then 0 else if prn <= 53 then 1 else if prn <= 56 then 2 else 3
    ensures prn < other <= 63 ==> Place(B.Phases(prn - 1)) < Place(B.Phases(other - 1))
  {
    hide IsGiven, B.Phases, B.TurnsEarly, B.InRange, Place;
    Given(prn);
    if prn < other <= 63 {
      PlacesIncrease(prn - 1, other - 1);
    }
  }

  /** The unshifted code of every satellite: the first code added to two or three stages. */
  lemma UnshiftedCode(prn: int, n: nat)
    requires 1 <= prn <= 63 && n < B.LENGTH
    ensures var p := B.Phases(prn - 1);
            && 1 <= p.first <= 11 && 1 <= p.second <= 11 && p.third <= 11
            && B.CodeChip(prn, 0, n)
                 == (var second := B.G2(n + 11 - p.first) != B.G2(n + 11 - p.second);
                     var all := if p.third == 0 then second else second != B.G2(n + 11 - p.third);
                     if B.G1(n) != all then 1 else -1)
  {
    hide B.G1, B.G2, B.Phases;
    UnshiftedReads(B.LENGTH, n);
    B.ChipAt(prn, 0, n, n, n);
  }
}
