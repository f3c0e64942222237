/** What the B3I code is for each satellite: where its second register starts, what law that code
    follows, and how the two codes are put together. */
module BeidouB3iCodes {
  import opened ShiftRegisters
  import opened Periods
  import opened BeidouB3iRecurrences
  import B = BeidouB3i

  // ---------- the states by satellite ----------

  /** The number the first `n` bits of a string write, the first one the highest. */
  function Number(state: string, n: nat): (r: nat)
    requires n <= |state|
  {
    if n == 0 then 0 else 2 * Number(state, n - 1) + Digit(state[n - 1])
  }

  function Digit(c: char): nat {
    if c == '1' then 1 else 0
  }

  lemma NumberOfThirteen(state: string)
    requires |state| == 13
    ensures Number(state, 13)
         == 4096 * Digit(state[0]) + 2048 * Digit(state[1]) + 1024 * Digit(state[2]) + 512 * Digit(state[3])
          + 256 * Digit(state[4]) + 128 * Digit(state[5]) + 64 * Digit(state[6]) + 32 * Digit(state[7])
          + 16 * Digit(state[8]) + 8 * Digit(state[9]) + 4 * Digit(state[10]) + 2 * Digit(state[11]) + Digit(state[12])
  {
    hide Digit;
    ThreeMore(state, 0);
    ThreeMore(state, 3);
    ThreeMore(state, 6);
    ThreeMore(state, 9);
    assert Number(state, 13) == 2 * Number(state, 12) + Digit(state[12]);
  }

  lemma ThreeMore(state: string, n: nat)
    requires n + 3 <= |state|
    ensures Number(state, 0) == 0
    ensures Number(state, n + 3)
         == 8 * Number(state, n) + 4 * Digit(state[n]) + 2 * Digit(state[n + 1]) + Digit(state[n + 2])
  {
    hide Digit;
    assert Number(state, n + 2) == 2 * Number(state, n + 1) + Digit(state[n + 1]);
  }

  function Halved(x: nat, times: nat): nat {
    if times == 0 then x else Halved(x / 2, times - 1)
  }

  lemma HalfOfNumber(state: string, n: nat)
    requires 0 < n <= |state|
    ensures Number(state, n) / 2 == Number(state, n - 1)
    ensures Number(state, n) % 2 == Digit(state[n - 1])
  {
  }

  /** Counted from the right, bit `k` of them is bit `k` of the number. */
  lemma {:induction false} NumberBits(state: string, n: nat, k: nat)
    requires k < n <= |state|
    ensures state[n - 1 - k] == '1' <==> Halved(Number(state, n), k) % 2 == 1
  {
    HalfOfNumber(state, n);
    hide Number;
    if k > 0 {
      NumberBits(state, n - 1, k - 1);
      assert n - 1 - 1 - (k - 1) == n - 1 - k;
    }
  }

  function LowerNumber(index: nat): nat
    requires index < 21
  {
    match index
    case 0 => 0x15ff case 1 => 0x1e2b case 2 => 0x178a case 3 => 0x1ffb case 4 => 0x191f case 5 => 0x1264
    case 6 => 0x1fd2 case 7 => 0x1dfd case 8 => 0x1402 case 9 => 0x041b case 10 => 0x1d70 case 11 => 0x059e
    case 12 => 0x0c95 case 13 => 0x0e26 case 14 => 0x1189 case 15 => 0x1c7c case 16 => 0x04c5 case 17 => 0x00ec
    case 18 => 0x1157 case 19 => 0x02de case _ => 0x042d
  }

  lemma LowerNumbers1(index: nat)
    requires index < 7
    ensures Number(B.InitialState(index), 13) == LowerNumber(index)
  {
    hide Number;
    NumberOfThirteen(B.InitialState(index));
  }

  lemma LowerNumbers2(index: nat)
    requires 7 <= index < 14
    ensures Number(B.InitialState(index), 13) == LowerNumber(index)
  {
    hide Number;
    NumberOfThirteen(B.InitialState(index));
  }

  lemma LowerNumbers3(index: nat)
    requires 14 <= index < 21
    ensures Number(B.InitialState(index), 13) == LowerNumber(index)
  {
    hide Number;
    NumberOfThirteen(B.InitialState(index));
  }

  function MiddleNumber(index: nat): nat
    requires 21 <= index < 42
  {
    match index
    case 21 => 0x058a case 22 => 0x02cf case 23 => 0x0662 case 24 => 0x0748 case 25 => 0x0929 case 26 => 0x16d3
    case 27 => 0x15e2 case 28 => 0x02f5 case 29 => 0x0fff case 30 => 0x0d8f case 31 => 0x1589 case 32 => 0x12ab
    case 33 => 0x19a5 case 34 => 0x1a5d case 35 => 0x1f74 case 36 => 0x0567 case 37 => 0x1d10 case 38 => 0x1b90
    case 39 => 0x1ace case 40 => 0x1034 case _ => 0x0bd9
  }

  lemma MiddleNumbers1(index: nat)
    requires 21 <= index < 28
    ensures Number(B.InitialState(index), 13) == MiddleNumber(index)
  {
    hide Number;
    NumberOfThirteen(B.InitialState(index));
  }

  lemma MiddleNumbers2(index: nat)
    requires 28 <= index < 35
    ensures Number(B.InitialState(index), 13) == MiddleNumber(index)
  {
    hide Number;
    NumberOfThirteen(B.InitialState(index));
  }

  lemma MiddleNumbers3(index: nat)
    requires 35 <= index < 42
    ensures Number(B.InitialState(index), 13) == MiddleNumber(index)
  {
    hide Number;
    NumberOfThirteen(B.InitialState(index));
  }

  function UpperNumber(index: nat): nat
    requires 42 <= index < 63
  {
    match index
    case 42 => 0x0dbc case 43 => 0x1a71 case 44 => 0x0722 case 45 => 0x0ac5 case 46 => 0x13e6 case 47 => 0x1f48
    case 48 => 0x0149 case 49 => 0x10ac case 50 => 0x1e4c case 51 => 0x098f case 52 => 0x0018 case 53 => 0x1004
    case 54 => 0x06a6 case 55 => 0x1646 case 56 => 0x0e78 case 57 => 0x05ca case 58 => 0x19f6 case 59 => 0x1245
    case 60 => 0x0e20 case 61 => 0x0642 case _ => 0x044e
  }

  lemma UpperNumbers1(index: nat)
    requires 42 <= index < 49
    ensures Number(B.InitialState(index), 13) == UpperNumber(index)
  {
    hide Number;
    NumberOfThirteen(B.InitialState(index));
  }

  lemma UpperNumbers2(index: nat)
    requires 49 <= index < 56
    ensures Number(B.InitialState(index), 13) == UpperNumber(index)
  {
    hide Number;
    NumberOfThirteen(B.InitialState(index));
  }

  lemma UpperNumbers3(index: nat)
    requires 56 <= index < 63
    ensures Number(B.InitialState(index), 13) == UpperNumber(index)
  {
    hide Number;
    NumberOfThirteen(B.InitialState(index));
  }

  /** The state of the second register a satellite starts from, as a number. */
  function StartNumber(prn: int): nat
    requires 1 <= prn <= 63
  {
    if prn <= 21 then LowerNumber(prn - 1) else if prn <= 42 then MiddleNumber(prn - 1) else UpperNumber(prn - 1)
  }

  lemma StartNumbers(prn: int)
    requires 1 <= prn <= 63
    ensures Number(B.InitialState(prn - 1), 13) == StartNumber(prn)
  {
    hide Number, B.InitialState, LowerNumber, MiddleNumber, UpperNumber;
    if prn <= 7 {
      LowerNumbers1(prn - 1);
    } else if prn <= 14 {
      LowerNumbers2(prn - 1);
    } else if prn <= 21 {
      LowerNumbers3(prn - 1);
    } else if prn <= 28 {
      MiddleNumbers1(prn - 1);
    } else if prn <= 35 {
      MiddleNumbers2(prn - 1);
    } else if prn <= 42 {
      MiddleNumbers3(prn - 1);
    } else if prn <= 49 {
      UpperNumbers1(prn - 1);
    } else if prn <= 56 {
      UpperNumbers2(prn - 1);
    } else {
      UpperNumbers3(prn - 1);
    }
  }

  // ---------- the codes ----------

  lemma SecondOpens(prn: int, n: nat)
    requires 1 <= prn <= 63 && n < 13
    ensures B.G2(prn - 1, n) <==> Halved(StartNumber(prn), n) % 2 == 1
  {
    hide Number, Halved, B.InitialState, StartNumber;
    StartNumbers(prn);
    NumberBits(B.InitialState(prn - 1), 13, n);
  }

  lemma SecondFollows(index: nat)
    requires index < 63
    ensures FollowsSecond(B.Term2(index))
  {
    hide B.InitialState;
    forall n: nat
      ensures SecondRecurs(B.Term2(index), n)
    {
      SecondTermOf(index, n);
    }
  }

  lemma SecondTermOf(index: nat, n: nat)
    requires index < 63
    ensures SecondRecurs(B.Term2(index), n)
  {
    hide B.InitialState;
  }

  /** Every satellite's second code opens with its start state, lowest bit first, follows the
      second law and so repeats after 8191 terms. */
  lemma SecondCodeFollowsTheLaw(prn: int, n: nat)
    requires 1 <= prn <= 63
    ensures FollowsSecond(B.Term2(prn - 1))
    ensures n < 13 ==> (B.G2(prn - 1, n) <==> Halved(StartNumber(prn), n) % 2 == 1)
    ensures B.G2(prn - 1, n + PERIOD) == B.G2(prn - 1, n)
  {
    hide B.G2, Halved, StartNumber, FollowsSecond;
    SecondFollows(prn - 1);
    if n < 13 {
      SecondOpens(prn, n);
    }
    SecondHasPeriod(B.Term2(prn - 1));
    assert Repeats(B.Term2(prn - 1), PERIOD, n);
  }

  /** The unshifted code of every satellite: 1 where the codes differ, -1 where they agree. */
  lemma UnshiftedCode(prn: int, n: nat)
    requires 1 <= prn <= 63 && n < B.LENGTH
    ensures B.CodeChip(prn, 0, n) == if B.G1(n) != B.G2(prn - 1, n) then 1 else -1
  {
    hide B.G1, B.G2;
    UnshiftedReads(B.LENGTH, n);
  }
}
