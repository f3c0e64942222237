/** Jumping ahead in a recurring bit sequence. A polynomial over two elements is a bit mask: bit
    `i` stands for the term `i` ahead. If every term `d` ahead is the sum of the terms in a mask,
    the term `2 * d` ahead is the sum of those in its square, reduced by the feedback law. */
module BinaryRecurrences {
  import opened ShiftRegisters

  type Mask = bv16

  predicate Odd(p: Mask) {
    p & 1 == 1
  }

  function Half(p: Mask): Mask {
    p >> 1
  }

  predicate Below(p: Mask, top: Mask) {
    p < top
  }

  function Plus(p: Mask, q: Mask): Mask {
    p ^ q
  }

  lemma HalfIsSmaller(p: Mask)
    ensures p != 0 ==> Half(p) < p
    ensures Half(0) == 0 && !Odd(0)
  {
  }

  lemma PlusParts(p: Mask, q: Mask)
    ensures Half(Plus(p, q)) == Plus(Half(p), Half(q))
    ensures Odd(Plus(p, q)) == Xor(Odd(p), Odd(q))
    ensures Plus(0, q) == q
  {
  }

  // ---------- sums of terms ----------

  function SumAt(s: nat -> bool, p: Mask, n: nat): bool
    decreases p
  {
    HalfIsSmaller(p);
    if p == 0 then false else Xor(Odd(p) && s(n), SumAt(s, Half(p), n + 1))
  }

  /** Every term `d` ahead is the sum in the mask. */
  ghost predicate Jumps(s: nat -> bool, d: nat, p: Mask) {
    forall n: nat :: SumAt(s, p, n) == s(n + d)
  }

  /** The feedback law: the terms in the mask always add up to zero. */
  ghost predicate Follows(s: nat -> bool, law: Mask) {
    forall n: nat :: !SumAt(s, law, n)
  }

  lemma SumStep(s: nat -> bool, p: Mask, n: nat)
    ensures SumAt(s, p, n) == Xor(Odd(p) && s(n), SumAt(s, Half(p), n + 1))
    ensures !SumAt(s, 0, n)
  {
    hide Odd, Half;
    HalfIsSmaller(p);
  }

  lemma {:induction false} SumOfPlus(s: nat -> bool, p: Mask, q: Mask, n: nat)
    ensures SumAt(s, Plus(p, q), n) == Xor(SumAt(s, p, n), SumAt(s, q, n))
    decreases p
  {
    hide SumAt, Odd, Half, Plus;
    HalfIsSmaller(p);
    PlusParts(p, q);
    SumStep(s, p, n);
    if p != 0 {
      SumOfPlus(s, Half(p), Half(q), n + 1);
      SumStep(s, q, n);
      SumStep(s, Plus(p, q), n);
    }
  }

  // ---------- jumping twice ----------

  /** The sum at twice the offsets. */
  function SumAtTwice(s: nat -> bool, p: Mask, n: nat): bool
    decreases p
  {
    HalfIsSmaller(p);
    if p == 0 then false else Xor(Odd(p) && s(n), SumAtTwice(s, Half(p), n + 2))
  }

  /** The sum of the sums of `p`, taken at every offset of `q`. */
  function SumOfSums(s: nat -> bool, p: Mask, q: Mask, n: nat): bool
    decreases q
  {
    HalfIsSmaller(q);
    if q == 0 then false else Xor(Odd(q) && SumAt(s, p, n), SumOfSums(s, p, Half(q), n + 1))
  }

  lemma TwiceStep(s: nat -> bool, p: Mask, n: nat)
    ensures SumAtTwice(s, p, n) == Xor(Odd(p) && s(n), SumAtTwice(s, Half(p), n + 2))
    ensures !SumAtTwice(s, 0, n)
  {
    hide Odd, Half;
    HalfIsSmaller(p);
  }

  lemma {:induction false} SumJumps(s: nat -> bool, d: nat, p: Mask, q: Mask, n: nat)
    requires Jumps(s, d, p)
    ensures SumAt(s, q, n + d) == SumOfSums(s, p, q, n)
    decreases q
  {
    hide Odd, Half;
    HalfIsSmaller(q);
    if q != 0 {
      SumJumps(s, d, p, Half(q), n + 1);
      assert SumAt(s, p, n) == s(n + d);
      assert n + 1 + d == n + d + 1;
    }
  }

  /** Taking the lowest term of `p` out of all the sums. */
  lemma {:induction false} SumOfLongerSums(s: nat -> bool, p: Mask, q: Mask, n: nat)
    ensures SumOfSums(s, p, q, n) == Xor(Odd(p) && SumAt(s, q, n), SumOfSums(s, Half(p), q, n + 1))
    decreases q
  {
    hide Odd, Half;
    HalfIsSmaller(q);
    if q != 0 {
      SumOfLongerSums(s, p, Half(q), n + 1);
      SumStep(s, p, n);
    }
  }

  /** Mixed terms come in equal pairs and cancel: only the diagonal is left. */
  lemma {:induction false} Diagonal(s: nat -> bool, p: Mask, n: nat)
    ensures SumOfSums(s, p, p, n) == SumAtTwice(s, p, n)
    decreases p
  {
    hide Odd, Half;
    HalfIsSmaller(p);
    if p != 0 {
      Diagonal(s, Half(p), n + 2);
      SumOfLongerSums(s, p, Half(p), n + 1);
      assert n + 1 + 1 == n + 2;
    }
  }

  // ---------- reduction by the law ----------

  /** The highest bit of the law is `top`, and there is room to shift it once more. */
  predicate IsLaw(law: Mask, top: Mask) {
    1 < top <= 0x4000 && top & (top - 1) == 0 && law & top == top && law < top << 1
  }

  function TimesX(law: Mask, top: Mask, p: Mask): Mask {
    if (p << 1) & top == top then (p << 1) ^ law else p << 1
  }

  function Bit(b: bool): Mask {
    if b then 1 else 0
  }

  /** The bit just below `top`. */
  predicate Leads(top: Mask, p: Mask) {
    (p << 1) & top == top
  }

  function Appended(top: Mask, p: Mask, done: Mask): Mask {
    (done << 1) ^ if (p << 1) & top == top then 1 else 0
  }

  /** Each bit appended to a mask doubles the degrees of those above it. */
  function SquareAppended(law: Mask, top: Mask, p: Mask, square: Mask): Mask {
    TimesX(law, top, TimesX(law, top, square)) ^ if (p << 1) & top == top then 1 else 0
  }

  predicate HasRoom(p: Mask) {
    p < 0x8000
  }

  /** Squares a mask bit by bit, the highest of `k` bits below `top` first: `done` collects the
      bits taken from `p`, and `square` is their square. */
  function SquareFrom(law: Mask, top: Mask, p: Mask, done: Mask, square: Mask, k: nat): (Mask, Mask)
    decreases k
  {
    if k == 0 || done >= 0x8000 then (done, square)
    else SquareFrom(law, top, p << 1, Appended(top, p, done), SquareAppended(law, top, p, square), k - 1)
  }

  ghost predicate Squares(s: nat -> bool, p: Mask, q: Mask) {
    forall n: nat :: SumAt(s, q, n) == SumAtTwice(s, p, n)
  }

  lemma TimesXBounded(law: Mask, top: Mask, p: Mask)
    requires IsLaw(law, top) && Below(p, top)
    ensures Below(TimesX(law, top, p), top)
  {
  }

  lemma AppendedParts(top: Mask, p: Mask, done: Mask)
    requires HasRoom(done)
    ensures Half(Appended(top, p, done)) == done && Odd(Appended(top, p, done)) == Leads(top, p)
  {
  }

  lemma SquareAppendedParts(law: Mask, top: Mask, p: Mask, square: Mask)
    ensures SquareAppended(law, top, p, square)
         == Plus(TimesX(law, top, TimesX(law, top, square)), Bit(Leads(top, p)))
  {
    hide TimesX;
  }

  lemma BitBounded(law: Mask, top: Mask, p: Mask, bit: bool)
    requires IsLaw(law, top) && Below(p, top)
    ensures Below(Plus(p, Bit(bit)), top)
  {
  }

  lemma ShiftParts(p: Mask)
    requires p < 0x8000
    ensures Half(p << 1) == p && !Odd(p << 1)
  {
  }

  lemma SumOfShift(s: nat -> bool, p: Mask, n: nat)
    requires p < 0x8000
    ensures SumAt(s, p << 1, n) == SumAt(s, p, n + 1)
  {
    ShiftParts(p);
    hide SumAt, Odd, Half;
    SumStep(s, p << 1, n);
  }

  lemma SumOfTimesX(s: nat -> bool, law: Mask, top: Mask, p: Mask, n: nat)
    requires IsLaw(law, top) && Follows(s, law) && Below(p, top)
    ensures SumAt(s, TimesX(law, top, p), n) == SumAt(s, p, n + 1)
  {
    hide SumAt;
    SumOfShift(s, p, n);
    SumOfPlus(s, p << 1, law, n);
    assert !SumAt(s, law, n);
  }

  lemma BitTerm(s: nat -> bool, bit: bool, n: nat)
    ensures SumAt(s, Bit(bit), n) == (bit && s(n))
  {
    assert Odd(1) && Half(1) == 0;
    hide SumAt, Odd, Half;
    SumStep(s, 1, n);
    SumStep(s, 0, n);
    SumStep(s, 0, n + 1);
  }

  lemma SquareTerm(s: nat -> bool, law: Mask, top: Mask, p: Mask, done: Mask, square: Mask, n: nat)
    requires IsLaw(law, top) && Follows(s, law) && Below(square, top) && HasRoom(done)
    requires SumAt(s, square, n + 2) == SumAtTwice(s, done, n + 2)
    ensures Below(SquareAppended(law, top, p, square), top)
    ensures SumAt(s, SquareAppended(law, top, p, square), n) == SumAtTwice(s, Appended(top, p, done), n)
  {
    hide *;
    var once := TimesX(law, top, square);
    var twice := TimesX(law, top, once);
    var bit := Leads(top, p);
    SquareAppendedParts(law, top, p, square);
    TimesXBounded(law, top, square);
    TimesXBounded(law, top, once);
    BitBounded(law, top, twice, bit);
    SumOfTimesX(s, law, top, square, n + 1);
    SumOfTimesX(s, law, top, once, n);
    SumOfPlus(s, twice, Bit(bit), n);
    BitTerm(s, bit, n);
    TwiceStep(s, Appended(top, p, done), n);
    AppendedParts(top, p, done);
    assert n + 1 + 1 == n + 2;
    XorOrder(SumAt(s, twice, n), SumAt(s, Bit(bit), n));
  }

  lemma XorOrder(a: bool, b: bool)
    ensures Xor(a, b) == Xor(b, a)
  {
  }

  lemma SquareStep(s: nat -> bool, law: Mask, top: Mask, p: Mask, done: Mask, square: Mask)
    requires IsLaw(law, top) && Follows(s, law) && Squares(s, done, square) && Below(square, top) && HasRoom(done)
    ensures Below(SquareAppended(law, top, p, square), top)
    ensures Squares(s, Appended(top, p, done), SquareAppended(law, top, p, square))
  {
    hide IsLaw, Follows, SumAt, SumAtTwice, Below, HasRoom, Appended, SquareAppended;
    assert SumAt(s, square, 2) == SumAtTwice(s, done, 2);
    SquareTerm(s, law, top, p, done, square, 0);
    forall n: nat
      ensures SumAt(s, SquareAppended(law, top, p, square), n) == SumAtTwice(s, Appended(top, p, done), n)
    {
      assert SumAt(s, square, n + 2) == SumAtTwice(s, done, n + 2);
      SquareTerm(s, law, top, p, done, square, n);
    }
  }

  lemma {:induction false} SquareFromSquares(s: nat -> bool, law: Mask, top: Mask, p: Mask, done: Mask,
                                             square: Mask, k: nat)
    requires IsLaw(law, top) && Follows(s, law) && Squares(s, done, square) && Below(square, top)
    ensures var (r, q) := SquareFrom(law, top, p, done, square, k); Squares(s, r, q)
    decreases k
  {
    hide IsLaw, Follows, Squares, Below, Appended, SquareAppended;
    if k > 0 && done < 0x8000 {
      SquareStep(s, law, top, p, done, square);
      SquareFromSquares(s, law, top, p << 1, Appended(top, p, done), SquareAppended(law, top, p, square), k - 1);
    }
  }

  /** Bit by bit squaring, reduced by the law, gives the same sums as twice the offsets. */
  lemma SquareOf(s: nat -> bool, law: Mask, top: Mask, p: Mask, q: Mask, k: nat)
    requires IsLaw(law, top) && Follows(s, law) && SquareFrom(law, top, p, 0, 0, k) == (p, q)
    ensures Squares(s, p, q)
  {
    hide SquareFrom, IsLaw, Follows, Below;
    ZeroSquares(s, law, top);
    SquareFromSquares(s, law, top, p, 0, 0, k);
  }

  lemma ZeroSquares(s: nat -> bool, law: Mask, top: Mask)
    requires IsLaw(law, top)
    ensures Squares(s, 0, 0) && Below(0, top)
  {
  }

  lemma SquaredJump(s: nat -> bool, d: nat, p: Mask, q: Mask)
    requires Jumps(s, d, p) && Squares(s, p, q)
    ensures Jumps(s, 2 * d, q)
  {
    hide SumAt, SumAtTwice;
    forall n: nat
      ensures SumAt(s, q, n) == s(n + 2 * d)
    {
      SumJumps(s, d, p, p, n);
      Diagonal(s, p, n);
      assert SumAt(s, q, n) == SumAtTwice(s, p, n);
      assert SumAt(s, p, n + d) == s(n + d + d);
      assert n + d + d == n + 2 * d;
    }
  }

  /** Squaring the mask doubles the jump. */
  lemma JumpTwice(s: nat -> bool, law: Mask, top: Mask, d: nat, p: Mask, q: Mask, k: nat)
    requires IsLaw(law, top) && Follows(s, law) && Jumps(s, d, p)
    requires SquareFrom(law, top, p, 0, 0, k) == (p, q)
    ensures Jumps(s, 2 * d, q)
  {
    hide *;
    SquareOf(s, law, top, p, q, k);
    SquaredJump(s, d, p, q);
  }

  /** Multiplying the mask by X jumps one term further. */
  lemma JumpNext(s: nat -> bool, law: Mask, top: Mask, d: nat, p: Mask)
    requires IsLaw(law, top) && Follows(s, law) && Below(p, top) && Jumps(s, d, p)
    ensures Jumps(s, d + 1, TimesX(law, top, p))
  {
    hide SumAt, TimesX, IsLaw, Below, Follows;
    forall n: nat
      ensures SumAt(s, TimesX(law, top, p), n) == s(n + (d + 1))
    {
      SumOfTimesX(s, law, top, p, n);
      assert SumAt(s, p, n + 1) == s(n + 1 + d);
      assert n + 1 + d == n + (d + 1);
    }
  }

  lemma JumpsByOne(s: nat -> bool)
    ensures Jumps(s, 1, 2)
  {
    assert Half(2) == 1 && !Odd(2) && Odd(1) && Half(1) == 0;
    hide SumAt, Odd, Half;
    forall n: nat
      ensures SumAt(s, 2, n) == s(n + 1)
    {
      SumStep(s, 2, n);
      SumStep(s, 1, n + 1);
      SumStep(s, 0, n + 2);
    }
  }
}
