/** The BeiDou B1I ranging code generator: two 11-stage registers, the second read through two
    or three phase-selected stages. */
module BeidouB1i {
  import opened ShiftRegisters

  const LENGTH: nat := 2046

  /** The register stages added for one satellite, counted as in the signal description: stage
      p is register bit 11 - p; a third stage of 0 is none. */
  datatype Selection = Selection(first: nat, second: nat, third: nat)

  predicate InRange(s: Selection) {
    1 <= s.first <= 11 && 1 <= s.second <= 11 && s.third <= 11
  }

  /** The registers start as 01010101010. */
  predicate InitialBit(k: nat) {
    k % 2 == 1
  }

  /** 1 + X + X^7 + X^8 + X^9 + X^10 + X^11 */
  function G1(n: nat): bool {
    if n < 11 then InitialBit(n)
    else Xor(Xor(Xor(Xor(Xor(G1(n - 11), G1(n - 10)), G1(n - 9)), G1(n - 8)), G1(n - 7)), G1(n - 1))
  }

  /** 1 + X + X^2 + X^3 + X^4 + X^5 + X^8 + X^9 + X^11 */
  function G2(n: nat): bool {
    if n < 11 then InitialBit(n)
    else
      Xor(Xor(Xor(Xor(Xor(Xor(Xor(G2(n - 11), G2(n - 9)), G2(n - 8)), G2(n - 5)), G2(n - 4)), G2(n - 3)), G2(n - 2)),
          G2(n - 1))
  }

  /** The second code for a selection: the sum of its stages while bit 0 is term `n`. */
  function Selected(p: Selection, n: nat): bool
    requires InRange(p)
  {
    var pair := Xor(G2(n + 11 - p.first), G2(n + 11 - p.second));
    if p.third != 0 then Xor(pair, G2(n + 11 - p.third)) else pair
  }

  /** The first 28 terms of the second recurrence. */
  predicate KnownTerm(n: nat) {
    n !in {0, 2, 4, 6, 8, 10, 13, 15, 17, 18, 21, 22, 23, 25, 27}
  }

  lemma FirstTerms(n: nat)
    requires n < 28
    ensures G2(n) == KnownTerm(n)
    ensures G1(4) == G1(8) && G1(9) == G1(13) && G1(12) == G1(16) && G1(13) == G1(17)
  {
    assert !G2(0) && G2(1) && !G2(2) && G2(3) && !G2(4) && G2(5) && !G2(6) && G2(7) && !G2(8) && G2(9);
    assert !G2(10) && G2(11) && G2(12) && !G2(13) && G2(14) && !G2(15) && G2(16) && !G2(17) && !G2(18);
    assert G2(19) && G2(20) && !G2(21) && !G2(22) && !G2(23) && G2(24) && !G2(25) && G2(26) && !G2(27);
  }

  predicate KnownSelected(p: Selection, n: nat)
    requires InRange(p)
  {
    var pair := Xor(KnownTerm(n + 11 - p.first), KnownTerm(n + 11 - p.second));
    if p.third != 0 then Xor(pair, KnownTerm(n + 11 - p.third)) else pair
  }

  /** Among its known terms, the second code changes over four chips. */
  predicate TurnsEarly(p: Selection)
    requires InRange(p)
  {
    || KnownSelected(p, 4) != KnownSelected(p, 8)
    || KnownSelected(p, 9) != KnownSelected(p, 13)
    || KnownSelected(p, 12) != KnownSelected(p, 16)
    || KnownSelected(p, 13) != KnownSelected(p, 17)
  }

  /** The three phase tables, read at one satellite index; every satellite's second code turns early. */
  function LowerPhases(index: nat): (r: Selection)
    requires index < 21
    ensures InRange(r) && TurnsEarly(r)
  {
    match index
    case 0 => Selection(1, 3, 0)
    case 1 => Selection(1, 4, 0)
    case 2 => Selection(1, 5, 0)
    case 3 => Selection(1, 6, 0)
    case 4 => Selection(1, 8, 0)
    case 5 => Selection(1, 9, 0)
    case 6 => Selection(1, 10, 0)
    case 7 => Selection(1, 11, 0)
    case 8 => Selection(2, 7, 0)
    case 9 => Selection(3, 4, 0)
    case 10 => Selection(3, 5, 0)
    case 11 => Selection(3, 6, 0)
    case 12 => Selection(3, 8, 0)
    case 13 => Selection(3, 9, 0)
    case 14 => Selection(3, 10, 0)
    case 15 => Selection(3, 11, 0)
    case 16 => Selection(4, 5, 0)
    case 17 => Selection(4, 6, 0)
    case 18 => Selection(4, 8, 0)
    case 19 => Selection(4, 9, 0)
    case _ => Selection(4, 10, 0)
  }

  function MiddlePhases(index: nat): (r: Selection)
    requires 21 <= index < 42
    ensures InRange(r) && TurnsEarly(r)
  {
    match index
    case 21 => Selection(4, 11, 0)
    case 22 => Selection(5, 6, 0)
    case 23 => Selection(5, 8, 0)
    case 24 => Selection(5, 9, 0)
    case 25 => Selection(5, 10, 0)
    case 26 => Selection(5, 11, 0)
    case 27 => Selection(6, 8, 0)
    case 28 => Selection(6, 9, 0)
    case 29 => Selection(6, 10, 0)
    case 30 => Selection(6, 11, 0)
    case 31 => Selection(8, 9, 0)
    case 32 => Selection(8, 10, 0)
    case 33 => Selection(8, 11, 0)
    case 34 => Selection(9, 10, 0)
    case 35 => Selection(9, 11, 0)
    case 36 => Selection(10, 11, 0)
    case 37 => Selection(2, 7, 1)
    case 38 => Selection(3, 4, 1)
    case 39 => Selection(3, 6, 1)
    case 40 => Selection(3, 8, 1)
    case _ => Selection(3, 10, 1)
  }

  function UpperPhases(index: nat): (r: Selection)
    requires 42 <= index < 63
    ensures InRange(r) && TurnsEarly(r)
  {
    match index
    case 42 => Selection(3, 11, 1)
    case 43 => Selection(4, 5, 1)
    case 44 => Selection(4, 9, 1)
    case 45 => Selection(5, 6, 1)
    case 46 => Selection(5, 8, 1)
    case 47 => Selection(5, 10, 1)
    case 48 => Selection(5, 11, 1)
    case 49 => Selection(6, 9, 1)
    case 50 => Selection(8, 9, 1)
    case 51 => Selection(9, 10, 1)
    case 52 => Selection(9, 11, 1)
    case 53 => Selection(3, 7, 2)
    case 54 => Selection(5, 7, 2)
    case 55 => Selection(7, 9, 2)
    case 56 => Selection(4, 5, 3)
    case 57 => Selection(4, 9, 3)
    case 58 => Selection(5, 6, 3)
    case 59 => Selection(5, 8, 3)
    case 60 => Selection(5, 10, 3)
    case 61 => Selection(5, 11, 3)
    case _ => Selection(6, 9, 3)
  }

  function Phases(index: nat): (r: Selection)
    requires index < 63
    ensures InRange(r) && TurnsEarly(r)
  {
    hide TurnsEarly;
    if index < 21 then LowerPhases(index) else if index < 42 then MiddlePhases(index) else UpperPhases(index)
  }

  function FirstCode(): (r: seq<bool>)
    ensures |r| == LENGTH
  {
    seq(LENGTH, (k: nat) => G1(k))
  }

  function SecondCode(index: nat): (r: seq<bool>)
    requires index < 63
    ensures |r| == LENGTH
  {
    seq(LENGTH, (k: nat) => Selected(Phases(index), k))
  }

  method InitialRegister() returns (register: array<bool>)
    ensures fresh(register) && register.Length == 11
    ensures forall k :: 0 <= k < 11 ==> register[k] == InitialBit(k)
  {
    register := new bool[11](k => k % 2 == 1);
  }

  /** One turn of the generator loop moves both registers on by one term. */
  method StepRegisters(r1: array<bool>, r2: array<bool>, ghost n: nat)
    requires r1.Length == r2.Length == 11 && r1 != r2
    requires IsWindow(r1[..], G1, n) && IsWindow(r2[..], G2, n)
    modifies r1, r2
    ensures IsWindow(r1[..], G1, n + 1) && IsWindow(r2[..], G2, n + 1)
  {
    hide G1, G2;
    var feedback1 := Xor(Xor(Xor(Xor(Xor(r1[0], r1[1]), r1[2]), r1[3]), r1[4]), r1[10]);
    var feedback2 :=
      Xor(Xor(Xor(Xor(Xor(Xor(Xor(r2[0], r2[2]), r2[3]), r2[6]), r2[7]), r2[8]), r2[9]), r2[10]);
    NextTerms(r1[..], r2[..], n);
    ShiftedWindow(r1[..], G1, n);
    ShiftedWindow(r2[..], G2, n);
    ShiftIn(r1, feedback1);
    ShiftIn(r2, feedback2);
  }

  /** The generator loop: each register stays a window of its recurrence. */
  method GenerateRegisters(index: nat) returns (g1: array<bool>, g2: array<bool>)
    requires index < 63
    ensures fresh(g1) && fresh(g2)
    ensures g1[..] == FirstCode() && g2[..] == SecondCode(index)
  {
    hide G1, G2, Selected, SelectStages, Phases, FirstCode, SecondCode, IsWindow;
    g1, g2 := new bool[LENGTH], new bool[LENGTH];
    var r1 := InitialRegister();
    var r2 := InitialRegister();
    InitialWindows(r1[..], r2[..]);
    for n := 0 to LENGTH
      invariant IsWindow(r1[..], G1, n) && IsWindow(r2[..], G2, n)
      invariant forall k :: 0 <= k < n ==> g1[k] == G1(k)
      invariant forall k :: 0 <= k < n ==> g2[k] == Selected(Phases(index), k)
    {
      WindowStart(r1[..], n);
      g1[n] := r1[0];
      g2[n] := SelectStages(r2[..], Phases(index), n);
      StepRegisters(r1, r2, n);
    }
    CodesComplete(g1[..], g2[..], index);
  }

  lemma WindowStart(register: seq<bool>, n: nat)
    requires |register| > 0 && IsWindow(register, G1, n)
    ensures register[0] == G1(n)
  {
    assert register[0] == G1(n + 0);
  }

  lemma CodesComplete(g1: seq<bool>, g2: seq<bool>, index: nat)
    requires index < 63 && |g1| == |g2| == LENGTH
    requires forall k :: 0 <= k < LENGTH ==> g1[k] == G1(k) && g2[k] == Selected(Phases(index), k)
    ensures g1 == FirstCode() && g2 == SecondCode(index)
  {
    hide G1, Selected, Phases;
  }

  lemma InitialWindows(r1: seq<bool>, r2: seq<bool>)
    requires |r1| == |r2| == 11
    requires forall k :: 0 <= k < 11 ==> r1[k] == r2[k] == InitialBit(k)
    ensures IsWindow(r1, G1, 0) && IsWindow(r2, G2, 0)
  {
  }

  /** Reading the selected stages of the register reads the selected terms. */
  function SelectStages(register: seq<bool>, p: Selection, ghost n: nat): (r: bool)
    requires |register| == 11 && InRange(p) && IsWindow(register, G2, n)
    ensures r == Selected(p, n)
  {
    hide IsWindow;
    WindowTerm(register, n, 11 - p.first);
    WindowTerm(register, n, 11 - p.second);
    if p.third != 0 then
      WindowTerm(register, n, 11 - p.third);
      Xor(Xor(register[11 - p.first], register[11 - p.second]), register[11 - p.third])
    else Xor(register[11 - p.first], register[11 - p.second])
  }

  lemma WindowTerm(register: seq<bool>, n: nat, k: nat)
    requires k < |register| && IsWindow(register, G2, n)
    ensures register[k] == G2(n + k)
  {
  }

  /** The feedback taps give the next term of each recurrence. */
  lemma NextTerms(r1: seq<bool>, r2: seq<bool>, n: nat)
    requires |r1| == |r2| == 11 && IsWindow(r1, G1, n) && IsWindow(r2, G2, n)
    ensures G1(n + 11) == Xor(Xor(Xor(Xor(Xor(r1[0], r1[1]), r1[2]), r1[3]), r1[4]), r1[10])
    ensures G2(n + 11)
         == Xor(Xor(Xor(Xor(Xor(Xor(Xor(r2[0], r2[2]), r2[3]), r2[6]), r2[7]), r2[8]), r2[9]), r2[10])
  {
  }

  /** The chip of satellite `prn` at position `i` for a chip shift. */
  function CodeChip(prn: int, chipShift: uint32, i: nat): int
    requires 1 <= prn <= 63 && i < LENGTH
  {
    CombinedChip(FirstCode(), SecondCode(prn - 1), chipShift, i)
  }

  /** `beidou_b1i_code_gen_int`; an unknown satellite leaves the destination as it was. */
  method CodeGenInt(dest: array<int>, prn: int, chipShift: uint32)
    requires dest.Length >= LENGTH
    modifies dest
    ensures !(1 <= prn <= 63) ==> dest[..] == old(dest[..])
    ensures 1 <= prn <= 63 ==> forall i :: 0 <= i < LENGTH ==> dest[i] == CodeChip(prn, chipShift, i)
    ensures forall i :: LENGTH <= i < dest.Length ==> dest[i] == old(dest[i])
  {
    var index := prn - 1;
    if index < 0 || index > 62 {
      return;
    }
    hide G1, G2, Selected, CombinedChip, Phases;
    var g1, g2 := GenerateRegisters(index);
    WriteCode(dest, g1, g2, chipShift);
  }

  /** For every chip shift that does not overflow 32 bits the code is the unshifted code
      rotated by it. */
  lemma CodeRotates(prn: int, chipShift: uint32, i: nat)
    requires 1 <= prn <= 63 && i < LENGTH && LENGTH + chipShift < WORD
    ensures CodeChip(prn, chipShift, i) == CodeChip(prn, 0, (i + chipShift) % LENGTH)
  {
    hide G1, G2, Selected, Phases;
    ShiftRotates(FirstCode(), SecondCode(prn - 1), chipShift, i);
  }

  // ---------- when the shift overflows 32 bits ----------

  /** The second code changes over four chips at position `x`, where the first does not. */
  predicate TurnsAt(p: Selection, x: nat)
    requires InRange(p)
  {
    Selected(p, x) != Selected(p, x + 4) && G1(x) == G1(x + 4)
  }

  lemma SelectedIsKnown(p: Selection, n: nat)
    requires InRange(p) && n < 18
    ensures Selected(p, n) == KnownSelected(p, n)
  {
    hide G1, G2, KnownTerm;
    FirstTerms(n + 11 - p.first);
    FirstTerms(n + 11 - p.second);
    if p.third != 0 {
      FirstTerms(n + 11 - p.third);
    }
  }

  lemma EarlyTurn(prn: int) returns (x: nat)
    requires 1 <= prn <= 63
    ensures x <= 13 && TurnsAt(Phases(prn - 1), x)
  {
    hide G1, G2, Phases, Selected, KnownSelected;
    var p := Phases(prn - 1);
    FirstTerms(0);
    x := if KnownSelected(p, 4) != KnownSelected(p, 8) then 4
         else if KnownSelected(p, 9) != KnownSelected(p, 13) then 9
         else if KnownSelected(p, 12) != KnownSelected(p, 16) then 12
         else 13;
    SelectedIsKnown(p, x);
    SelectedIsKnown(p, x + 4);
  }

  /** 2^32 leaves the remainder 4. */
  lemma WordRemainder(x: nat)
    requires x < 2042
    ensures (WORD + x) % LENGTH == x + 4
    ensures (WORD - LENGTH + x) % LENGTH == x + 4
  {
    assert WORD + x == 2099202 * LENGTH + (x + 4);
    assert WORD - LENGTH + x == 2099201 * LENGTH + (x + 4);
    ModUnique(WORD + x, 2099202, x + 4, LENGTH);
    ModUnique(WORD - LENGTH + x, 2099201, x + 4, LENGTH);
  }

  /** So some chip disagrees with the rotated unshifted code. */
  lemma OverflowMisplaces(prn: int, chipShift: uint32, x: nat) returns (i: nat)
    requires 1 <= prn <= 63 && LENGTH + chipShift >= WORD
    requires x <= 13 && TurnsAt(Phases(prn - 1), x)
    ensures i < LENGTH && CodeChip(prn, chipShift, i) != CodeChip(prn, 0, (i + chipShift) % LENGTH)
  {
    hide G1, G2, Phases, Selected, CodeChip, Position, Delay;
    var j := LENGTH + chipShift - WORD;
    i := if j <= x then x - j else x + LENGTH - j;
    WordRemainder(x);
    OverflowedReads(LENGTH, 4, chipShift, x, i);
    UnshiftedReads(LENGTH, x + 4);
    ChipAt(prn, chipShift, i, Position(LENGTH, chipShift, i), x);
    ChipAt(prn, 0, x + 4, x + 4, x + 4);
  }

  lemma ChipAt(prn: int, chipShift: uint32, i: nat, a: nat, b: nat)
    requires 1 <= prn <= 63 && i < LENGTH
    requires Position(LENGTH, chipShift, i) == a && Delay(LENGTH, chipShift, i) == b
    ensures CodeChip(prn, chipShift, i) == Chip(Xor(G1(a), Selected(Phases(prn - 1), b)))
  {
    hide G1, Phases, Selected, Position, Delay;
  }

  /** For every satellite and every chip shift: the code is the unshifted code rotated by the
      shift exactly when the shifted length does not overflow 32 bits. */
  lemma RotatesIffNoOverflow(prn: int, chipShift: uint32)
    requires 1 <= prn <= 63
    ensures (forall i: nat :: i < LENGTH ==>
               CodeChip(prn, chipShift, i) == CodeChip(prn, 0, (i + chipShift) % LENGTH))
       <==> LENGTH + chipShift < WORD
  {
    hide CodeChip, TurnsAt, Phases;
    if LENGTH + chipShift < WORD {
      forall i: nat | i < LENGTH
        ensures CodeChip(prn, chipShift, i) == CodeChip(prn, 0, (i + chipShift) % LENGTH)
      {
        CodeRotates(prn, chipShift, i);
      }
    } else {
      var x := EarlyTurn(prn);
      var i := OverflowMisplaces(prn, chipShift, x);
    }
  }
}
