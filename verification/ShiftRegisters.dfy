/** Shift registers as the code generators use them: a register is shifted in place and takes
    its feedback at the top, so it is always a window onto one recurring bit sequence. */
module ShiftRegisters {

  function Xor(a: bool, b: bool): bool {
    a != b
  }

  function Chip(b: bool): int {
    if b then 1 else -1
  }

  /** The values of the 32-bit unsigned C++ type. */
  const WORD: nat := 0x1_0000_0000

  type uint32 = x: int | 0 <= x < 0x1_0000_0000

  function AddWord(a: uint32, b: uint32): uint32 {
    (a + b) % WORD
  }

  /** The register holds terms `n`, `n + 1`, ... of the sequence. */
  ghost predicate IsWindow(register: seq<bool>, s: nat -> bool, n: nat) {
    forall k :: 0 <= k < |register| ==> register[k] == s(n + k)
  }

  /** The shift loop: every stage takes its upper neighbour, the top one the feedback. */
  method ShiftIn(register: array<bool>, feedback: bool)
    requires register.Length > 0
    modifies register
    ensures register[..] == old(register[..])[1..] + [feedback]
  {
    for k := 0 to register.Length - 1
      invariant forall j :: 0 <= j < k ==> register[j] == old(register[j + 1])
      invariant forall j :: k <= j < register.Length ==> register[j] == old(register[j])
    {
      register[k] := register[k + 1];
    }
    register[register.Length - 1] := feedback;
  }

  /** A register that shifts in the next term stays a window. */
  lemma ShiftedWindow(register: seq<bool>, s: nat -> bool, n: nat)
    requires |register| > 0 && IsWindow(register, s, n)
    ensures IsWindow(register[1..] + [s(n + |register|)], s, n + 1)
  {
  }

  // ---------- reading two generated codes together ----------

  /** Where the final loop of a BeiDou generator reads the first code for position `i`: at a
      32-bit sum. */
  function Position(length: nat, chipShift: uint32, i: nat): (r: nat)
    requires 0 < length < WORD && i < length
    ensures r < length
  {
    AddWord(i, chipShift) % length
  }

  /** Where it reads the second code: at a delay that starts at another 32-bit sum and counts on. */
  function Delay(length: nat, chipShift: uint32, i: nat): (r: nat)
    requires 0 < length < WORD
    ensures r < length
  {
    (AddWord(length, chipShift) % length + i) % length
  }

  function CombinedChip(g1: seq<bool>, g2: seq<bool>, chipShift: uint32, i: nat): int
    requires 0 < |g1| == |g2| < WORD && i < |g1|
  {
    Chip(Xor(g1[Position(|g1|, chipShift, i)], g2[Delay(|g1|, chipShift, i)]))
  }

  /** That loop, with its running delay; positions beyond the code are left alone. */
  method WriteCode(dest: array<int>, g1: array<bool>, g2: array<bool>, chipShift: uint32)
    requires 0 < g1.Length == g2.Length < WORD && dest.Length >= g1.Length
    modifies dest
    ensures forall i :: 0 <= i < g1.Length ==> dest[i] == CombinedChip(g1[..], g2[..], chipShift, i)
    ensures forall i :: g1.Length <= i < dest.Length ==> dest[i] == old(dest[i])
  {
    var length: uint32 := g1.Length;
    var delay := AddWord(length, chipShift) % length;
    DelayStarts(length, chipShift);
    hide AddWord, Delay;
    for i := 0 to g1.Length
      invariant delay == Delay(length, chipShift, i)
      invariant forall k :: 0 <= k < i ==> dest[k] == CombinedChip(g1[..], g2[..], chipShift, k)
      invariant forall k :: g1.Length <= k < dest.Length ==> dest[k] == old(dest[k])
    {
      var aux := Xor(g1[AddWord(i, chipShift) % length], g2[delay]);
      dest[i] := Chip(aux);
      DelayGoesOn(length, chipShift, i);
      delay := delay + 1;
      delay := delay % length;
    }
  }

  lemma DelayStarts(length: nat, chipShift: uint32)
    requires 0 < length < WORD
    ensures Delay(length, chipShift, 0) == AddWord(length, chipShift) % length
  {
    ModOfSum(AddWord(length, chipShift), 0, length);
  }

  lemma DelayGoesOn(length: nat, chipShift: uint32, i: nat)
    requires 0 < length < WORD
    ensures (Delay(length, chipShift, i) + 1) % length == Delay(length, chipShift, i + 1)
  {
    ModOfSum(AddWord(length, chipShift) % length + i, 1, length);
  }

  lemma ModOfSum(a: nat, b: nat, m: nat)
    requires m > 0
    ensures (a % m + b) % m == (a + b) % m
    ensures (m + a) % m == a % m
  {
    var q := a / m;
    assert a == q * m + a % m;
    ModShift(a % m + b, q, m);
    ModShift(a, 1, m);
  }

  lemma {:induction false} ModShift(x: nat, q: nat, m: nat)
    requires m > 0
    ensures (x + q * m) % m == x % m
  {
    if q > 0 {
      ModShift(x, q - 1, m);
      ModOneMore(x + (q - 1) * m, m);
      assert x + q * m == x + (q - 1) * m + m;
    }
  }

  lemma ModOneMore(y: nat, m: nat)
    requires m > 0
    ensures (y + m) % m == y % m
  {
    var q, r := y / m, y % m;
    assert y + m == (q + 1) * m + r;
    ModUnique(y + m, q + 1, r, m);
  }

  lemma ModUnique(x: nat, q: nat, r: nat, m: nat)
    requires m > 0 && x == q * m + r && r < m
    ensures x % m == r
  {
    var q', r' := x / m, x % m;
    var d := q' - q;
    assert d * m == r - r' by {
      assert x == q' * m + r';
      assert d * m == q' * m - q * m;
    }
    SmallMultiple(d, m);
  }

  lemma AtLeastOnce(d: int, m: int)
    requires d >= 1 && m > 0
    ensures d * m >= m
  {
    assert (d - 1) * m >= 0;
  }

  lemma SmallMultiple(d: int, m: int)
    requires m > 0 && -m < d * m < m
    ensures d == 0
  {
    if d >= 1 {
      AtLeastOnce(d, m);
    } else if d <= -1 {
      AtLeastOnce(-d, m);
    }
  }

  /** For every chip shift that does not overflow 32 bits, the code is the unshifted code
      rotated by it. */
  lemma ShiftRotates(g1: seq<bool>, g2: seq<bool>, chipShift: uint32, i: nat)
    requires 0 < |g1| == |g2| && i < |g1| && |g1| + chipShift < WORD
    ensures CombinedChip(g1, g2, chipShift, i) == CombinedChip(g1, g2, 0, (i + chipShift) % |g1|)
  {
    var m := |g1|;
    var j := (i + chipShift) % m;
    ModOfSum(m + chipShift, i, m);
    ModOfSum(chipShift + i, 0, m);
    ModOfSum(m, j, m);
    assert AddWord(m, chipShift) == m + chipShift && AddWord(i, chipShift) == i + chipShift;
    assert AddWord(m, 0) == m && AddWord(j, 0) == j;
    assert ((m + chipShift) % m + i) % m == (m + (chipShift + i)) % m;
  }

  /** Reading unshifted codes: each position reads itself. */
  lemma UnshiftedReads(length: nat, y: nat)
    requires y < length < WORD
    ensures Position(length, 0, y) == y && Delay(length, 0, y) == y
  {
    ModUnique(y, 0, y, length);
    ModUnique(length, 1, 0, length);
    assert AddWord(y, 0) == y && AddWord(length, 0) == length;
  }

  /** Where both codes are read once the shift overflows 32 bits. A sum that wraps loses `slip`
      chips: the second code is read that much too early already before the sum of position and
      shift wraps as well, from there on both of them are. */
  lemma OverflowedReads(length: nat, slip: nat, chipShift: uint32, x: nat, i: nat)
    requires i < length < WORD && x + slip < length && length + chipShift >= WORD
    requires (WORD + x) % length == x + slip && (WORD - length + x) % length == x + slip
    requires i + chipShift == WORD + x || i + chipShift == WORD - length + x
    ensures Position(length, chipShift, i) == if i + chipShift >= WORD then x else x + slip
    ensures Delay(length, chipShift, i) == x
    ensures (i + chipShift) % length == x + slip
  {
    var j := length + chipShift - WORD;
    assert AddWord(length, chipShift) == j;
    ModUnique(j, 0, j, length);
    ModUnique(x, 0, x, length);
    if i + chipShift >= WORD {
      assert AddWord(i, chipShift) == x && j + i == length + x;
      ModUnique(j + i, 1, x, length);
    } else {
      assert AddWord(i, chipShift) == i + chipShift && j + i == x;
    }
  }
}
