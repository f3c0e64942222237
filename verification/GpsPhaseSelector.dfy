/** The phase selector of section 3.3.2.3 of IS-GPS-200: the second code of a satellite is the sum
    of two register stages. The generator reads the second code with a delay instead; for every
    satellite the two are the same, because the sum of two terms of the second law is a later term. */
module GpsPhaseSelector {
  import opened ShiftRegisters
  import opened BinaryRecurrences
  import opened GpsRecurrences
  import opened GpsCaCode

  // ---------- sums of two terms ----------

  lemma AdjacentSquares1()
    ensures SquareFrom(0x0597, 0x0400, 0x0002, 0, 0, 10) == (0x0002, 0x0004)
    ensures SquareFrom(0x0597, 0x0400, 0x0004, 0, 0, 10) == (0x0004, 0x0010)
    ensures SquareFrom(0x0597, 0x0400, 0x0020, 0, 0, 10) == (0x0020, 0x0197)
    ensures SquareFrom(0x0597, 0x0400, 0x032e, 0, 0, 10) == (0x032e, 0x03b5)
    ensures SquareFrom(0x0597, 0x0400, 0x02fd, 0, 0, 10) == (0x02fd, 0x032d)
  {
  }

  lemma AdjacentSquares2()
    ensures SquareFrom(0x0597, 0x0400, 0x03cd, 0, 0, 10) == (0x03cd, 0x0079)
    ensures SquareFrom(0x0597, 0x0400, 0x00f2, 0, 0, 10) == (0x00f2, 0x02cd)
    ensures SquareFrom(0x0597, 0x0400, 0x000d, 0, 0, 10) == (0x000d, 0x0051)
    ensures SquareFrom(0x0597, 0x0400, 0x0051, 0, 0, 10) == (0x0051, 0x02ca)
  {
  }

  lemma AdjacentShifts()
    ensures Below(0x0010, 0x0400) && TimesX(0x0597, 0x0400, 0x0010) == 0x0020
    ensures Below(0x0197, 0x0400) && TimesX(0x0597, 0x0400, 0x0197) == 0x032e
    ensures Below(0x03b5, 0x0400) && TimesX(0x0597, 0x0400, 0x03b5) == 0x02fd
    ensures Below(0x032d, 0x0400) && TimesX(0x0597, 0x0400, 0x032d) == 0x03cd
    ensures Below(0x0079, 0x0400) && TimesX(0x0597, 0x0400, 0x0079) == 0x00f2
    ensures Below(0x02cd, 0x0400) && TimesX(0x0597, 0x0400, 0x02cd) == 0x000d
    ensures Below(0x02ca, 0x0400) && TimesX(0x0597, 0x0400, 0x02ca) == 0x0003
  {
  }

  lemma Adjacent(s: nat -> bool)
    requires Follows(s, 0x0597)
    ensures Jumps(s, 765, 0x0003)
  {
    hide *;
    LawIsLaw();
    JumpsByOne(s);
    AdjacentSquares1();
    AdjacentSquares2();
    AdjacentShifts();
    JumpTwice(s, 0x0597, 0x0400, 1, 0x0002, 0x0004, 10);
    JumpTwice(s, 0x0597, 0x0400, 2, 0x0004, 0x0010, 10);
    JumpNext(s, 0x0597, 0x0400, 4, 0x0010);
    JumpTwice(s, 0x0597, 0x0400, 5, 0x0020, 0x0197, 10);
    JumpNext(s, 0x0597, 0x0400, 10, 0x0197);
    JumpTwice(s, 0x0597, 0x0400, 11, 0x032e, 0x03b5, 10);
    JumpNext(s, 0x0597, 0x0400, 22, 0x03b5);
    JumpTwice(s, 0x0597, 0x0400, 23, 0x02fd, 0x032d, 10);
    JumpNext(s, 0x0597, 0x0400, 46, 0x032d);
    JumpTwice(s, 0x0597, 0x0400, 47, 0x03cd, 0x0079, 10);
    JumpNext(s, 0x0597, 0x0400, 94, 0x0079);
    JumpTwice(s, 0x0597, 0x0400, 95, 0x00f2, 0x02cd, 10);
    JumpNext(s, 0x0597, 0x0400, 190, 0x02cd);
    JumpTwice(s, 0x0597, 0x0400, 191, 0x000d, 0x0051, 10);
    JumpTwice(s, 0x0597, 0x0400, 382, 0x0051, 0x02ca, 10);
    JumpNext(s, 0x0597, 0x0400, 764, 0x02ca);
  }

  lemma ThreeApartSquares1()
    ensures SquareFrom(0x0597, 0x0400, 0x0002, 0, 0, 10) == (0x0002, 0x0004)
    ensures SquareFrom(0x0597, 0x0400, 0x0004, 0, 0, 10) == (0x0004, 0x0010)
    ensures SquareFrom(0x0597, 0x0400, 0x0010, 0, 0, 10) == (0x0010, 0x0100)
  {
  }

  lemma ThreeApartSquares3()
    ensures SquareFrom(0x0597, 0x0400, 0x0100, 0, 0, 10) == (0x0100, 0x03c3)
    ensures SquareFrom(0x0597, 0x0400, 0x0211, 0, 0, 10) == (0x0211, 0x00b4)
  {
  }

  lemma ThreeApartSquares2()
    ensures SquareFrom(0x0597, 0x0400, 0x00b4, 0, 0, 10) == (0x00b4, 0x0112)
    ensures SquareFrom(0x0597, 0x0400, 0x0112, 0, 0, 10) == (0x0112, 0x02c7)
    ensures SquareFrom(0x0597, 0x0400, 0x0019, 0, 0, 10) == (0x0019, 0x0141)
    ensures SquareFrom(0x0597, 0x0400, 0x0141, 0, 0, 10) == (0x0141, 0x0009)
  {
  }

  lemma ThreeApartShifts()
    ensures Below(0x03c3, 0x0400) && TimesX(0x0597, 0x0400, 0x03c3) == 0x0211
    ensures Below(0x02c7, 0x0400) && TimesX(0x0597, 0x0400, 0x02c7) == 0x0019
  {
  }

  lemma ThreeApart(s: nat -> bool)
    requires Follows(s, 0x0597)
    ensures Jumps(s, 548, 0x0009)
  {
    hide *;
    LawIsLaw();
    JumpsByOne(s);
    ThreeApartSquares1();
    ThreeApartSquares2();
    ThreeApartSquares3();
    ThreeApartShifts();
    JumpTwice(s, 0x0597, 0x0400, 1, 0x0002, 0x0004, 10);
    JumpTwice(s, 0x0597, 0x0400, 2, 0x0004, 0x0010, 10);
    JumpTwice(s, 0x0597, 0x0400, 4, 0x0010, 0x0100, 10);
    JumpTwice(s, 0x0597, 0x0400, 8, 0x0100, 0x03c3, 10);
    JumpNext(s, 0x0597, 0x0400, 16, 0x03c3);
    JumpTwice(s, 0x0597, 0x0400, 17, 0x0211, 0x00b4, 10);
    JumpTwice(s, 0x0597, 0x0400, 34, 0x00b4, 0x0112, 10);
    JumpTwice(s, 0x0597, 0x0400, 68, 0x0112, 0x02c7, 10);
    JumpNext(s, 0x0597, 0x0400, 136, 0x02c7);
    JumpTwice(s, 0x0597, 0x0400, 137, 0x0019, 0x0141, 10);
    JumpTwice(s, 0x0597, 0x0400, 274, 0x0141, 0x0009, 10);
  }

  lemma FiveApartSquares1()
    ensures SquareFrom(0x0597, 0x0400, 0x0002, 0, 0, 10) == (0x0002, 0x0004)
    ensures SquareFrom(0x0597, 0x0400, 0x0004, 0, 0, 10) == (0x0004, 0x0010)
    ensures SquareFrom(0x0597, 0x0400, 0x0020, 0, 0, 10) == (0x0020, 0x0197)
    ensures SquareFrom(0x0597, 0x0400, 0x0197, 0, 0, 10) == (0x0197, 0x0343)
  {
  }

  lemma FiveApartSquares2()
    ensures SquareFrom(0x0597, 0x0400, 0x0343, 0, 0, 10) == (0x0343, 0x01b8)
    ensures SquareFrom(0x0597, 0x0400, 0x01b8, 0, 0, 10) == (0x01b8, 0x0281)
    ensures SquareFrom(0x0597, 0x0400, 0x0281, 0, 0, 10) == (0x0281, 0x0021)
  {
  }

  lemma FiveApartShifts()
    ensures Below(0x0010, 0x0400) && TimesX(0x0597, 0x0400, 0x0010) == 0x0020
  {
  }

  lemma FiveApart(s: nat -> bool)
    requires Follows(s, 0x0597)
    ensures Jumps(s, 160, 0x0021)
  {
    hide *;
    LawIsLaw();
    JumpsByOne(s);
    FiveApartSquares1();
    FiveApartSquares2();
    FiveApartShifts();
    JumpTwice(s, 0x0597, 0x0400, 1, 0x0002, 0x0004, 10);
    JumpTwice(s, 0x0597, 0x0400, 2, 0x0004, 0x0010, 10);
    JumpNext(s, 0x0597, 0x0400, 4, 0x0010);
    JumpTwice(s, 0x0597, 0x0400, 5, 0x0020, 0x0197, 10);
    JumpTwice(s, 0x0597, 0x0400, 10, 0x0197, 0x0343, 10);
    JumpTwice(s, 0x0597, 0x0400, 20, 0x0343, 0x01b8, 10);
    JumpTwice(s, 0x0597, 0x0400, 40, 0x01b8, 0x0281, 10);
    JumpTwice(s, 0x0597, 0x0400, 80, 0x0281, 0x0021, 10);
  }

  lemma SevenApartSquares1()
    ensures SquareFrom(0x0597, 0x0400, 0x0002, 0, 0, 10) == (0x0002, 0x0004)
    ensures SquareFrom(0x0597, 0x0400, 0x0008, 0, 0, 10) == (0x0008, 0x0040)
    ensures SquareFrom(0x0597, 0x0400, 0x0040, 0, 0, 10) == (0x0040, 0x03cb)
    ensures SquareFrom(0x0597, 0x0400, 0x0201, 0, 0, 10) == (0x0201, 0x01b4)
    ensures SquareFrom(0x0597, 0x0400, 0x0368, 0, 0, 10) == (0x0368, 0x006a)
  {
  }

  lemma SevenApartSquares2()
    ensures SquareFrom(0x0597, 0x0400, 0x00d4, 0, 0, 10) == (0x00d4, 0x034e)
    ensures SquareFrom(0x0597, 0x0400, 0x034e, 0, 0, 10) == (0x034e, 0x01e9)
    ensures SquareFrom(0x0597, 0x0400, 0x01e9, 0, 0, 10) == (0x01e9, 0x004b)
    ensures SquareFrom(0x0597, 0x0400, 0x0096, 0, 0, 10) == (0x0096, 0x0081)
  {
  }

  lemma SevenApartShifts()
    ensures Below(0x0004, 0x0400) && TimesX(0x0597, 0x0400, 0x0004) == 0x0008
    ensures Below(0x03cb, 0x0400) && TimesX(0x0597, 0x0400, 0x03cb) == 0x0201
    ensures Below(0x01b4, 0x0400) && TimesX(0x0597, 0x0400, 0x01b4) == 0x0368
    ensures Below(0x006a, 0x0400) && TimesX(0x0597, 0x0400, 0x006a) == 0x00d4
    ensures Below(0x004b, 0x0400) && TimesX(0x0597, 0x0400, 0x004b) == 0x0096
  {
  }

  lemma SevenApart(s: nat -> bool)
    requires Follows(s, 0x0597)
    ensures Jumps(s, 882, 0x0081)
  {
    hide *;
    LawIsLaw();
    JumpsByOne(s);
    SevenApartSquares1();
    SevenApartSquares2();
    SevenApartShifts();
    JumpTwice(s, 0x0597, 0x0400, 1, 0x0002, 0x0004, 10);
    JumpNext(s, 0x0597, 0x0400, 2, 0x0004);
    JumpTwice(s, 0x0597, 0x0400, 3, 0x0008, 0x0040, 10);
    JumpTwice(s, 0x0597, 0x0400, 6, 0x0040, 0x03cb, 10);
    JumpNext(s, 0x0597, 0x0400, 12, 0x03cb);
    JumpTwice(s, 0x0597, 0x0400, 13, 0x0201, 0x01b4, 10);
    JumpNext(s, 0x0597, 0x0400, 26, 0x01b4);
    JumpTwice(s, 0x0597, 0x0400, 27, 0x0368, 0x006a, 10);
    JumpNext(s, 0x0597, 0x0400, 54, 0x006a);
    JumpTwice(s, 0x0597, 0x0400, 55, 0x00d4, 0x034e, 10);
    JumpTwice(s, 0x0597, 0x0400, 110, 0x034e, 0x01e9, 10);
    JumpTwice(s, 0x0597, 0x0400, 220, 0x01e9, 0x004b, 10);
    JumpNext(s, 0x0597, 0x0400, 440, 0x004b);
    JumpTwice(s, 0x0597, 0x0400, 441, 0x0096, 0x0081, 10);
  }

  lemma LawIsLaw()
    ensures IsLaw(0x0597, 0x0400)
  {
  }

  // ---------- the offset of a sum of two terms ----------

  /** A sequence of the second law added to itself `apart` terms ahead is itself so many ahead. */
  function Ahead(apart: nat): nat {
    match apart
    case 1 => 765
    case 2 => 507
    case 3 => 548
    case 4 => 1014
    case 5 => 160
    case 7 => 882
    case _ => 1005
  }

  function XPower(k: nat): Mask {
    if k == 0 then 1 else XPower(k - 1) << 1
  }

  lemma XPowers()
    ensures Plus(1, XPower(1)) == 0x0003 && Plus(1, XPower(2)) == 0x0005 && Plus(1, XPower(3)) == 0x0009
    ensures Plus(1, XPower(4)) == 0x0011 && Plus(1, XPower(5)) == 0x0021 && Plus(1, XPower(7)) == 0x0081
    ensures Plus(1, XPower(8)) == 0x0101
  {
    assert XPower(3) == 0x0008 && XPower(5) == 0x0020 && XPower(7) == 0x0080;
  }

  lemma OneTerm(s: nat -> bool, n: nat)
    ensures SumAt(s, 1, n) == s(n)
  {
    assert Bit(true) == 1;
    hide SumAt, Bit;
    BitTerm(s, true, n);
  }

  lemma XPowerNext(k: nat)
    requires 0 < k < 9
    ensures HasRoom(XPower(k - 1)) && XPower(k) == XPower(k - 1) << 1
    ensures XPower(0) == 1
  {
    assert XPower(4) == 0x0010 && XPower(8) == 0x0100;
  }

  lemma ShiftedTerm(s: nat -> bool, p: Mask, q: Mask, n: nat)
    requires HasRoom(p) && q == p << 1
    ensures SumAt(s, q, n) == SumAt(s, p, n + 1)
  {
    hide SumAt;
    SumOfShift(s, p, n);
  }

  lemma {:induction false} TermAhead(s: nat -> bool, k: nat, n: nat)
    requires k < 9
    ensures SumAt(s, XPower(k), n) == s(n + k)
  {
    if k == 0 {
      OneTerm(s, n);
    } else {
      XPowerNext(k);
      hide SumAt, XPower, HasRoom;
      ShiftedTerm(s, XPower(k - 1), XPower(k), n);
      TermAhead(s, k - 1, n + 1);
      assert n + 1 + (k - 1) == n + k;
    }
  }

  lemma TwoTerms(s: nat -> bool, k: nat, d: nat, n: nat)
    requires k < 9 && Jumps(s, d, Plus(1, XPower(k)))
    ensures Xor(s(n), s(n + k)) == s(n + d)
  {
    hide SumAt, Plus, XPower;
    assert SumAt(s, Plus(1, XPower(k)), n) == s(n + d);
    SumOfPlus(s, 1, XPower(k), n);
    TermAhead(s, k, n);
    OneTerm(s, n);
  }

  lemma DoubledSquares()
    ensures SquareFrom(0x0597, 0x0400, 0x0003, 0, 0, 10) == (0x0003, 0x0005)
    ensures SquareFrom(0x0597, 0x0400, 0x0005, 0, 0, 10) == (0x0005, 0x0011)
    ensures SquareFrom(0x0597, 0x0400, 0x0011, 0, 0, 10) == (0x0011, 0x0101)
  {
  }

  lemma EvenApart(s: nat -> bool)
    requires Follows(s, 0x0597)
    ensures Jumps(s, 1530, 0x0005) && Jumps(s, 3060, 0x0011) && Jumps(s, 6120, 0x0101)
  {
    hide *;
    LawIsLaw();
    Adjacent(s);
    DoubledSquares();
    JumpTwice(s, 0x0597, 0x0400, 765, 0x0003, 0x0005, 10);
    JumpTwice(s, 0x0597, 0x0400, 1530, 0x0005, 0x0011, 10);
    JumpTwice(s, 0x0597, 0x0400, 3060, 0x0011, 0x0101, 10);
  }

  lemma {:induction false} RepeatsOften(s: nat -> bool, n: nat, times: nat)
    requires FollowsSecond(s)
    ensures s(n + times * PERIOD) == s(n)
  {
    hide FollowsSecond;
    if times > 0 {
      RepeatsOften(s, n, times - 1);
      SecondRepeats(s, n + (times - 1) * PERIOD);
    }
  }

  lemma OddSum(s: nat -> bool, apart: nat, n: nat)
    requires FollowsSecond(s) && apart in {1, 3, 5, 7}
    ensures Xor(s(n), s(n + apart)) == s(n + Ahead(apart))
  {
    hide FollowsSecond, Follows, Jumps, XPower, Xor;
    SecondFollowsLaw(s);
    XPowers();
    Adjacent(s);
    ThreeApart(s);
    FiveApart(s);
    SevenApart(s);
    TwoTerms(s, apart, Ahead(apart), n);
  }

  lemma EvenSum(s: nat -> bool, apart: nat, n: nat)
    requires FollowsSecond(s) && apart in {2, 4, 8}
    ensures Xor(s(n), s(n + apart)) == s(n + Ahead(apart))
  {
    hide FollowsSecond, Follows, Jumps, XPower, Xor;
    SecondFollowsLaw(s);
    XPowers();
    EvenApart(s);
    var times := if apart == 2 then 1 else if apart == 4 then 2 else 5;
    assert Ahead(apart) + times * PERIOD == if apart == 2 then 1530 else if apart == 4 then 3060 else 6120;
    TwoTerms(s, apart, Ahead(apart) + times * PERIOD, n);
    RepeatsOften(s, n + Ahead(apart), times);
    assert n + Ahead(apart) + times * PERIOD == n + (Ahead(apart) + times * PERIOD);
  }

  // ---------- the phase selector ----------

  /** Both codes open with ten ones and follow the laws of the standard. */
  lemma CodesOfTheStandard(k: nat)
    requires k < 10
    ensures FollowsFirst(G1) && FollowsSecond(G2) && G1(k) && G2(k)
  {
    hide FollowsFirst, FollowsSecond;
    FollowTheLaws();
  }

  /** The stages of table 3-Ia of IS-GPS-200, by PRN. */
  function Stages(prn: int): (nat, nat)
    requires 1 <= prn <= 32
  {
    match prn
    case 1 => (2, 6) case 2 => (3, 7) case 3 => (4, 8) case 4 => (5, 9) case 5 => (1, 9) case 6 => (2, 10)
    case 7 => (1, 8) case 8 => (2, 9) case 9 => (3, 10) case 10 => (2, 3) case 11 => (3, 4) case 12 => (5, 6)
    case 13 => (6, 7) case 14 => (7, 8) case 15 => (8, 9) case 16 => (9, 10) case 17 => (1, 4) case 18 => (2, 5)
    case 19 => (3, 6) case 20 => (4, 7) case 21 => (5, 8) case 22 => (6, 9) case 23 => (1, 3) case 24 => (4, 6)
    case 25 => (5, 7) case 26 => (6, 8) case 27 => (7, 9) case 28 => (8, 10) case 29 => (1, 6) case 30 => (2, 7)
    case 31 => (3, 8) case _ => (4, 9)
  }

  /** Stage 10 holds the present term of the second code, stage `k` the one `10 - k` ahead. */
  predicate StagesFit(prn: int)
    requires 1 <= prn <= 32
  {
    var (a, b) := Stages(prn);
    && 1 <= a < b <= 10
    && b - a in {1, 2, 3, 4, 5, 7, 8}
    && (10 - b) + Ahead(b - a) + DelayOf(prn) == PERIOD
  }

  lemma AllStagesFit(prn: int)
    requires 1 <= prn <= 32
    ensures StagesFit(prn)
  {
  }

  lemma SelectedTerms(prn: int, n: nat)
    requires 1 <= prn <= 32
    ensures var (a, b) := Stages(prn);
            1 <= a < b <= 10 && Xor(G2(n + 10 - a), G2(n + 10 - b)) == G2(n + LENGTH - DelayOf(prn))
  {
    hide G2, Xor, FollowsSecond, FollowsFirst, Ahead, DelayOf, Stages;
    FollowTheLaws();
    AllStagesFit(prn);
    var (a, b) := Stages(prn);
    var m := n + (10 - b);
    if b - a in {1, 3, 5, 7} {
      OddSum(G2, b - a, m);
    } else {
      EvenSum(G2, b - a, m);
    }
    XorOrder(G2(m), G2(m + (b - a)));
  }

  /** For every satellite and every chip, without end: the broadcast code is the first code added
      to the two stages the standard selects for that satellite, 1 for a one and -1 for a zero. */
  lemma CodeIsPhaseSelected(prn: int, n: nat)
    requires 1 <= prn <= 32
    ensures var (a, b) := Stages(prn);
            && 1 <= a < b <= 10
            && BroadcastChip(prn, n) == if G1(n) != (G2(n + 10 - a) != G2(n + 10 - b)) then 1 else -1
  {
    hide G1, G2, DelayOf, Stages;
    SelectedTerms(prn, n);
  }
}
