/** The BeiDou B3I ranging code generator: two 13-stage registers, the first one reset to all
    ones when it reaches a fixed state, the second starting from a per-satellite state. */
module BeidouB3i {
  import opened ShiftRegisters

  const LENGTH: nat := 10230

  /** The second register's initial state for each satellite index, most significant bit first. */
  function InitialState(index: nat): (r: string)
    requires index < 63
    ensures |r| == 13
  {
    match index
    case 0 => "1010111111111"
    case 1 => "1111000101011"
    case 2 => "1011110001010"
    case 3 => "1111111111011"
    case 4 => "1100100011111"
    case 5 => "1001001100100"
    case 6 => "1111111010010"
    case 7 => "1110111111101"
    case 8 => "1010000000010"
    case 9 => "0010000011011"
    case 10 => "1110101110000"
    case 11 => "0010110011110"
    case 12 => "0110010010101"
    case 13 => "0111000100110"
    case 14 => "1000110001001"
    case 15 => "1110001111100"
    case 16 => "0010011000101"
    case 17 => "0000011101100"
    case 18 => "1000101010111"
    case 19 => "0001011011110"
    case 20 => "0010000101101"
    case 21 => "0010110001010"
    case 22 => "0001011001111"
    case 23 => "0011001100010"
    case 24 => "0011101001000"
    case 25 => "0100100101001"
    case 26 => "1011011010011"
    case 27 => "1010111100010"
    case 28 => "0001011110101"
    case 29 => "0111111111111"
    case 30 => "0110110001111"
    case 31 => "1010110001001"
    case 32 => "1001010101011"
    case 33 => "1100110100101"
    case 34 => "1101001011101"
    case 35 => "1111101110100"
    case 36 => "0010101100111"
    case 37 => "1110100010000"
    case 38 => "1101110010000"
    case 39 => "1101011001110"
    case 40 => "1000000110100"
    case 41 => "0101111011001"
    case 42 => "0110110111100"
    case 43 => "1101001110001"
    case 44 => "0011100100010"
    case 45 => "0101011000101"
    case 46 => "1001111100110"
    case 47 => "1111101001000"
    case 48 => "0000101001001"
    case 49 => "1000010101100"
    case 50 => "1111001001100"
    case 51 => "0100110001111"
    case 52 => "0000000011000"
    case 53 => "1000000000100"
    case 54 => "0011010100110"
    case 55 => "1011001000110"
    case 56 => "0111001111000"
    case 57 => "0010111001010"
    case 58 => "1100111110110"
    case 59 => "1001001000101"
    case 60 => "0111000100000"
    case 61 => "0011001000010"
    case _ => "0010001001110"
  }

  /** Bit `k` of a bit string, counted from its right end. */
  predicate BitOf(state: string, k: nat)
    requires k < |state|
  {
    state[|state| - 1 - k] == '1'
  }

  // ---------- the first register ----------

  const ALL_ONES: seq<bool> := [true, true, true, true, true, true, true, true, true, true, true, true, true]
  const RESET_STATE: seq<bool> := [false, false, true, true, true, true, true, true, true, true, true, true, true]

  /** 1 + X + X^3 + X^4 + X^13 */
  function Feedback1(r: seq<bool>): bool
    requires |r| == 13
  {
    Xor(Xor(Xor(r[0], r[9]), r[10]), r[12])
  }

  function Shifted1(r: seq<bool>): (t: seq<bool>)
    requires |r| == 13
    ensures |t| == 13
  {
    r[1..] + [Feedback1(r)]
  }

  /** The first register before chip `n`. */
  function State1(n: nat): (r: seq<bool>)
    ensures |r| == 13
  {
    if n == 0 then ALL_ONES
    else if Shifted1(State1(n - 1)) == RESET_STATE then ALL_ONES
    else Shifted1(State1(n - 1))
  }

  function G1(n: nat): bool {
    State1(n)[0]
  }

  /** The register was reset on its way to chip `n`. */
  predicate ResetBefore(n: nat) {
    n > 0 && Shifted1(State1(n - 1)) == RESET_STATE
  }

  /** The reset state itself is never held: reaching it and the reset are one step. */
  lemma {:induction false} NeverHoldsResetState(n: nat)
    ensures State1(n) != RESET_STATE
  {
    assert ALL_ONES[0] != RESET_STATE[0];
  }

  /** Between resets the register is a window of the code it emits. */
  lemma {:induction false} WindowBetweenResets(n: nat, k: nat)
    requires k < 13
    requires forall j :: n < j <= n + k ==> !ResetBefore(j)
    ensures State1(n)[k] == G1(n + k)
    decreases k
  {
    if k > 0 {
      assert !ResetBefore(n + 1);
      WindowBetweenResets(n + 1, k - 1);
    }
  }

  lemma StateAfter(n: nat)
    requires !ResetBefore(n + 1)
    ensures State1(n + 1)[12] == Xor(Xor(Xor(State1(n)[0], State1(n)[9]), State1(n)[10]), State1(n)[12])
  {
  }

  /** So over any 13 chips without a reset the code obeys the feedback recurrence, and after a
      reset the next chips are ones until the following reset. */
  lemma FirstCodeRecurs(n: nat)
    requires forall j :: n < j <= n + 13 ==> !ResetBefore(j)
    ensures G1(n + 13) == Xor(Xor(Xor(G1(n), G1(n + 9)), G1(n + 10)), G1(n + 12))
  {
    hide State1, ResetBefore, G1;
    WindowBetweenResets(n, 0);
    WindowBetweenResets(n, 9);
    WindowBetweenResets(n, 10);
    WindowBetweenResets(n, 12);
    WindowBetweenResets(n + 1, 12);
    assert !ResetBefore(n + 1);
    StateAfter(n);
    assert n + 1 + 12 == n + 13;
  }

  lemma OnesAfterReset(n: nat, k: nat)
    requires (n == 0 || ResetBefore(n)) && k < 13
    requires forall j :: n < j <= n + k ==> !ResetBefore(j)
    ensures G1(n + k)
  {
    WindowBetweenResets(n, k);
  }

  /** A reset starts the first code over: the code has the period of its first reset. */
  lemma {:induction false} ResetMakesPeriodic(p: nat, n: nat)
    requires ResetBefore(p)
    ensures State1(p + n) == State1(n) && G1(p + n) == G1(n)
  {
    hide Shifted1;
    if n > 0 {
      ResetMakesPeriodic(p, n - 1);
      assert p + n - 1 == p + (n - 1);
    }
  }

  // ---------- the second register ----------

  /** 1 + X + X^5 + X^6 + X^7 + X^9 + X^10 + X^12 + X^13, from the satellite's state */
  function G2(index: nat, n: nat): bool
    requires index < 63
  {
    if n < 13 then BitOf(InitialState(index), n)
    else
      Xor(Xor(Xor(Xor(Xor(Xor(Xor(G2(index, n - 13), G2(index, n - 12)), G2(index, n - 10)), G2(index, n - 9)),
                      G2(index, n - 7)), G2(index, n - 6)), G2(index, n - 5)), G2(index, n - 1))
  }

  function FirstCode(): (r: seq<bool>)
    ensures |r| == LENGTH
  {
    seq(LENGTH, (k: nat) => G1(k))
  }

  function SecondCode(index: nat): (r: seq<bool>)
    requires index < 63
    ensures |r| == LENGTH
  {
    seq(LENGTH, (k: nat) => G2(index, k))
  }

  /** The feedback taps give the next term of the recurrence. */
  lemma NextTerm(r: seq<bool>, index: nat, n: nat)
    requires index < 63 && |r| == 13 && IsWindow(r, Term2(index), n)
    ensures G2(index, n + 13)
         == Xor(Xor(Xor(Xor(Xor(Xor(Xor(r[0], r[1]), r[3]), r[4]), r[6]), r[7]), r[8]), r[12])
  {
  }

  /** One turn of the generator loop moves both registers on by one chip. */
  method StepRegisters(r1: array<bool>, r2: array<bool>, index: nat, ghost n: nat)
    requires r1.Length == r2.Length == 13 && r1 != r2 && index < 63
    requires r1[..] == State1(n) && IsWindow(r2[..], Term2(index), n)
    modifies r1, r2
    ensures r1[..] == State1(n + 1) && IsWindow(r2[..], Term2(index), n + 1)
  {
    hide G2, Feedback1;
    var feedback1 := Xor(Xor(Xor(r1[0], r1[9]), r1[10]), r1[12]);
    var feedback2 := Xor(Xor(Xor(Xor(Xor(Xor(Xor(r2[0], r2[1]), r2[3]), r2[4]), r2[6]), r2[7]), r2[8]), r2[12]);
    FeedbackOf(r1[..]);
    NextTerm(r2[..], index, n);
    ShiftedWindow(r2[..], Term2(index), n);
    ShiftIn(r1, feedback1);
    ShiftIn(r2, feedback2);
    if r1[..] == RESET_STATE {
      SetAll(r1);
    }
  }

  /** The generator loop: the first register follows its reset machine, the second stays a
      window of its recurrence. */
  method GenerateRegisters(index: nat) returns (g1: array<bool>, g2: array<bool>)
    requires index < 63
    ensures fresh(g1) && fresh(g2)
    ensures g1[..] == FirstCode() && g2[..] == SecondCode(index)
  {
    hide G2, State1, InitialState;
    g1, g2 := new bool[LENGTH], new bool[LENGTH];
    var r1 := new bool[13](k => true);
    var state := InitialState(index);
    var r2 := new bool[13](k requires 0 <= k < 13 => state[12 - k] == '1');
    InitialStates(r1[..], r2[..], index);
    for n := 0 to LENGTH
      invariant r1[..] == State1(n) && IsWindow(r2[..], Term2(index), n)
      invariant forall k :: 0 <= k < n ==> g1[k] == G1(k)
      invariant forall k :: 0 <= k < n ==> g2[k] == G2(index, k)
    {
      g1[n] := r1[0];
      g2[n] := r2[0];
      assert g1[n] == r1[..][0] && g2[n] == Term2(index)(n + 0);
      StepRegisters(r1, r2, index, n);
    }
  }

  ghost function Term2(index: nat): nat -> bool
    requires index < 63
  {
    (k: nat) => G2(index, k)
  }

  lemma FeedbackOf(r: seq<bool>)
    requires |r| == 13
    ensures Feedback1(r) == Xor(Xor(Xor(r[0], r[9]), r[10]), r[12])
  {
  }

  lemma InitialStates(r1: seq<bool>, r2: seq<bool>, index: nat)
    requires index < 63 && |r1| == |r2| == 13
    requires forall k :: 0 <= k < 13 ==> r1[k]
    requires forall k :: 0 <= k < 13 ==> r2[k] == (InitialState(index)[12 - k] == '1')
    ensures r1 == State1(0) && IsWindow(r2, Term2(index), 0)
  {
    hide InitialState;
    assert r1 == ALL_ONES;
  }

  method SetAll(register: array<bool>)
    requires register.Length == 13
    modifies register
    ensures register[..] == ALL_ONES
  {
    for k := 0 to 13
      invariant forall j :: 0 <= j < k ==> register[j]
    {
      register[k] := true;
    }
  }

  /** The chip of satellite `prn` at position `i` for a chip shift. */
  function CodeChip(prn: int, chipShift: uint32, i: nat): int
    requires 1 <= prn <= 63 && i < LENGTH
  {
    CombinedChip(FirstCode(), SecondCode(prn - 1), chipShift, i)
  }

  /** `beidou_b3i_code_gen_int`; an unknown satellite leaves the destination as it was. */
  method CodeGenInt(dest: array<int>, prn: int, chipShift: uint32)
    requires dest.Length >= LENGTH
    modifies dest
    ensures !(1 <= prn <= 63) ==> dest[..] == old(dest[..])
    ensures 1 <= prn <= 63 ==> forall i :: 0 <= i < LENGTH ==> dest[i] == CodeChip(prn, chipShift, i)
    ensures forall i :: LENGTH <= i < dest.Length ==> dest[i] == old(dest[i])
  {
    var index := prn - 1;
    if index < 0 || index > 62 {
      return;
    }
    hide G1, G2, CombinedChip;
    var g1, g2 := GenerateRegisters(index);
    WriteCode(dest, g1, g2, chipShift);
  }

  /** For every chip shift that does not overflow 32 bits the code is the unshifted code
      rotated by it. */
  lemma CodeRotates(prn: int, chipShift: uint32, i: nat)
    requires 1 <= prn <= 63 && i < LENGTH && LENGTH + chipShift < WORD
    ensures CodeChip(prn, chipShift, i) == CodeChip(prn, 0, (i + chipShift) % LENGTH)
  {
    hide G1, G2;
    ShiftRotates(FirstCode(), SecondCode(prn - 1), chipShift, i);
  }
}
