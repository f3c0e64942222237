/** The GPS L1 C/A code as the PRN vector measurements generate it: the two shift registers of
    section 3.3.2.3 of IS-GPS-200, the second code read with the satellite's delay. */
module GpsCaCode {
  import opened Wrappers
  import opened ShiftRegisters
  import opened GpsRecurrences

  const LENGTH: nat := 1023

  /** The delay of the second code in chips, by PRN. */
  function DelayOf(prn: int): (r: nat)
    requires 1 <= prn <= 32
    ensures 5 <= r <= 862
  {
    match prn
    case 1 => 5 case 2 => 6 case 3 => 7 case 4 => 8 case 5 => 17 case 6 => 18 case 7 => 139 case 8 => 140
    case 9 => 141 case 10 => 251 case 11 => 252 case 12 => 254 case 13 => 255 case 14 => 256
    case 15 => 257 case 16 => 258 case 17 => 469 case 18 => 470 case 19 => 471 case 20 => 472
    case 21 => 473 case 22 => 474 case 23 => 509 case 24 => 512 case 25 => 513 case 26 => 514
    case 27 => 515 case 28 => 516 case 29 => 859 case 30 => 860 case 31 => 861 case _ => 862
  }

  /** G1: 1 + X^3 + X^10, started from all ones. */
  function G1(n: nat): bool {
    if n < 10 then true else Xor(G1(n - 3), G1(n - 10))
  }

  /** G2: 1 + X^2 + X^3 + X^6 + X^8 + X^9 + X^10, started from all ones. */
  function G2(n: nat): bool {
    if n < 10 then true
    else Xor(Xor(Xor(Xor(Xor(G2(n - 2), G2(n - 3)), G2(n - 6)), G2(n - 8)), G2(n - 9)), G2(n - 10))
  }

  /** The register taps give the next term of each recurrence. */
  lemma NextTerms(r1: seq<bool>, r2: seq<bool>, n: nat)
    requires |r1| == |r2| == 10 && IsWindow(r1, G1, n) && IsWindow(r2, G2, n)
    ensures G1(n + 10) == Xor(r1[7], r1[0])
    ensures G2(n + 10) == Xor(Xor(Xor(Xor(Xor(r2[8], r2[7]), r2[4]), r2[2]), r2[1]), r2[0])
  {
  }

  method StepRegisters(r1: array<bool>, r2: array<bool>, ghost n: nat)
    requires r1.Length == r2.Length == 10 && r1 != r2
    requires IsWindow(r1[..], G1, n) && IsWindow(r2[..], G2, n)
    modifies r1, r2
    ensures IsWindow(r1[..], G1, n + 1) && IsWindow(r2[..], G2, n + 1)
  {
    hide G1, G2;
    var feedback1 := Xor(r1[7], r1[0]);
    var feedback2 := Xor(Xor(Xor(Xor(Xor(r2[8], r2[7]), r2[4]), r2[2]), r2[1]), r2[0]);
    NextTerms(r1[..], r2[..], n);
    ShiftedWindow(r1[..], G1, n);
    ShiftedWindow(r2[..], G2, n);
    ShiftIn(r1, feedback1);
    ShiftIn(r2, feedback2);
  }

  lemma InitialWindows(r1: seq<bool>, r2: seq<bool>)
    requires |r1| == |r2| == 10
    requires forall k :: 0 <= k < 10 ==> r1[k] && r2[k]
    ensures IsWindow(r1, G1, 0) && IsWindow(r2, G2, 0)
  {
  }

  lemma WindowStart(register: seq<bool>, s: nat -> bool, n: nat)
    requires |register| > 0 && IsWindow(register, s, n)
    ensures register[0] == s(n)
  {
    assert register[0] == s(n + 0);
  }

  method GenerateRegisters() returns (g1: array<bool>, g2: array<bool>)
    ensures fresh(g1) && fresh(g2) && g1.Length == g2.Length == LENGTH
    ensures forall k :: 0 <= k < LENGTH ==> g1[k] == G1(k)
    ensures forall k :: 0 <= k < LENGTH ==> g2[k] == G2(k)
  {
    hide *;
    g1, g2 := new bool[LENGTH], new bool[LENGTH];
    var r1 := new bool[10](k => true);
    var r2 := new bool[10](k => true);
    InitialWindows(r1[..], r2[..]);
    for n := 0 to LENGTH
      invariant IsWindow(r1[..], G1, n) && IsWindow(r2[..], G2, n)
      invariant forall k :: 0 <= k < n ==> g1[k] == G1(k)
      invariant forall k :: 0 <= k < n ==> g2[k] == G2(k)
    {
      WindowStart(r1[..], G1, n);
      WindowStart(r2[..], G2, n);
      g1[n] := r1[0];
      g2[n] := r2[0];
      StepRegisters(r1, r2, n);
    }
  }

  /** Where chip `i` reads the second code. */
  function DelayedIndex(delay: nat, i: nat): (r: nat)
    requires 0 < delay < LENGTH && i <= LENGTH
    ensures r < LENGTH
  {
    if i < delay then LENGTH + i - delay else i - delay
  }

  lemma NextDelayedIndex(delay: nat, i: nat)
    requires 0 < delay < LENGTH && i < LENGTH
    ensures (DelayedIndex(delay, i) + 1) % LENGTH == DelayedIndex(delay, i + 1)
  {
  }

  /** The code of satellite `prn` at chip `n` since the start, as it is broadcast without end. */
  function BroadcastChip(prn: int, n: nat): int
    requires 1 <= prn <= 32
  {
    Chip(Xor(G1(n), G2(n + LENGTH - DelayOf(prn))))
  }

  /** The final loop: the second code is read with a running delay, taken cyclically. */
  method Combine(g1: seq<bool>, g2: seq<bool>, behind: nat) returns (chips: seq<int>)
    requires |g1| == |g2| == LENGTH && 0 < behind < LENGTH
    ensures |chips| == LENGTH
    ensures forall i :: 0 <= i < LENGTH ==> chips[i] == Chip(Xor(g1[i], g2[DelayedIndex(behind, i)]))
  {
    hide DelayedIndex, Xor, Chip;
    var code := new int[LENGTH](_ => 0);
    var delay := LENGTH - behind;
    FirstDelayedIndex(behind);
    for i := 0 to LENGTH
      invariant delay == DelayedIndex(behind, i)
      invariant forall k :: 0 <= k < i ==> code[k] == Chip(Xor(g1[k], g2[DelayedIndex(behind, k)]))
    {
      code[i] := Chip(Xor(g1[i], g2[delay]));
      NextDelayedIndex(behind, i);
      delay := (delay + 1) % LENGTH;
    }
    chips := code[..];
  }

  /** `gps_l1_ca_code`; `None` is the error for a PRN outside 1..32. */
  method Code(prn: int) returns (code: Option<seq<int>>)
    ensures code.Some? <==> 1 <= prn <= 32
    ensures code.Some? ==> |code.value| == LENGTH
    ensures code.Some? ==> forall i :: 0 <= i < LENGTH ==> code.value[i] == BroadcastChip(prn, i)
  {
    if !(1 <= prn <= 32) {
      return None;
    }
    hide G1, G2, DelayOf, DelayedIndex, BroadcastChip, Xor, Chip;
    var g1, g2 := GenerateRegisters();
    var chips := Combine(g1[..], g2[..], DelayOf(prn));
    forall i | 0 <= i < LENGTH
      ensures chips[i] == BroadcastChip(prn, i)
    {
      DelayedChip(prn, i);
    }
    code := Some(chips);
  }

  lemma FirstDelayedIndex(delay: nat)
    requires 0 < delay < LENGTH
    ensures DelayedIndex(delay, 0) == LENGTH - delay
  {
  }

  lemma FollowTheLaws()
    ensures FollowsFirst(G1) && FollowsSecond(G2)
  {
    forall n: nat
      ensures FirstRecurs(G1, n) && SecondRecurs(G2, n)
    {
      hide G1, G2;
      Terms(n);
    }
  }

  lemma Terms(n: nat)
    ensures G1(n + 10) == Xor(G1(n + 7), G1(n))
    ensures G2(n + 10) == Xor(Xor(Xor(Xor(Xor(G2(n + 8), G2(n + 7)), G2(n + 4)), G2(n + 2)), G2(n + 1)), G2(n))
  {
  }

  /** Reading the second code cyclically, within the one period generated, is reading it on: the
      second code repeats exactly at its length. */
  lemma DelayedChip(prn: int, i: nat)
    requires 1 <= prn <= 32 && i < LENGTH
    ensures BroadcastChip(prn, i) == Chip(Xor(G1(i), G2(DelayedIndex(DelayOf(prn), i))))
  {
    hide G1, G2, DelayOf, Chip, Xor, FollowsSecond;
    if DelayOf(prn) <= i {
      FollowTheLaws();
      SecondRepeats(G2, i - DelayOf(prn));
    }
  }

  /** Repeating the generated code gives the broadcast code: chip `n` of it is entry `n % 1023`. */
  lemma {:induction false} BroadcastRepeats(prn: int, n: nat)
    requires 1 <= prn <= 32
    ensures BroadcastChip(prn, n) == BroadcastChip(prn, n % LENGTH)
  {
    hide G1, G2, DelayOf, Chip, Xor, FollowsFirst, FollowsSecond;
    if n >= LENGTH {
      FollowTheLaws();
      FirstRepeats(G1, n - LENGTH);
      SecondRepeats(G2, n - DelayOf(prn));
      assert n % LENGTH == (n - LENGTH) % LENGTH;
      BroadcastRepeats(prn, n - LENGTH);
    }
  }
}
