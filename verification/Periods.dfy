/** Periods of a bit sequence: one that has a prime period and a shorter one is constant. */
module Periods {
  import opened ShiftRegisters

  ghost predicate Repeats(s: nat -> bool, d: nat, n: nat) {
    s(n + d) == s(n)
  }

  ghost predicate IsPeriod(s: nat -> bool, d: nat) {
    forall n: nat :: Repeats(s, d, n)
  }

  predicate Divides(d: nat, p: nat)
    requires d > 0
  {
    p % d == 0
  }

  ghost predicate IsPrime(p: nat) {
    p > 1 && forall d: nat :: 1 < d < p ==> !Divides(d, p)
  }

  lemma {:induction false} MultipleOfPeriod(s: nat -> bool, d: nat, q: nat)
    requires IsPeriod(s, d)
    ensures IsPeriod(s, q * d)
  {
    if q > 0 {
      MultipleOfPeriod(s, d, q - 1);
      forall n: nat
        ensures Repeats(s, q * d, n)
      {
        assert Repeats(s, (q - 1) * d, n) && Repeats(s, d, n + (q - 1) * d);
        assert n + (q - 1) * d + d == n + q * d;
      }
    }
  }

  lemma RemainderIsPeriod(s: nat -> bool, p: nat, d: nat)
    requires IsPeriod(s, p) && IsPeriod(s, d) && d > 0
    ensures IsPeriod(s, p % d)
  {
    var q, r := p / d, p % d;
    assert p == q * d + r;
    MultipleOfPeriod(s, d, q);
    DifferenceOfPeriods(s, p, q * d, r);
  }

  lemma DifferenceOfPeriods(s: nat -> bool, p: nat, m: nat, r: nat)
    requires IsPeriod(s, p) && IsPeriod(s, m) && p == m + r
    ensures IsPeriod(s, r)
  {
    forall n: nat
      ensures Repeats(s, r, n)
    {
      assert Repeats(s, m, n + r) && Repeats(s, p, n);
      assert n + r + m == n + p;
    }
  }

  /** Taking remainders brings any shorter period down to 1. */
  lemma {:induction false} PrimePeriod(s: nat -> bool, p: nat, d: nat)
    requires IsPrime(p) && 0 < d < p
    requires IsPeriod(s, p) && IsPeriod(s, d)
    ensures IsPeriod(s, 1)
    decreases d
  {
    if d > 1 {
      assert !Divides(d, p);
      RemainderIsPeriod(s, p, d);
      PrimePeriod(s, p, p % d);
    }
  }

  lemma NoSmallDivisor()
    ensures forall d :: 1 < d <= 90 ==> 8191 % d != 0
  {
  }

  lemma QuotientDivides(p: nat, d: nat)
    requires 0 < d <= p && Divides(d, p)
    ensures p / d > 0 && p == (p / d) * d && Divides(p / d, p)
  {
    var q := p / d;
    assert p == q * d;
    ModShift(0, d, q);
    assert 0 + d * q == p;
  }

  /** 2^13 - 1 is a Mersenne prime. */
  lemma MersennePrime()
    ensures IsPrime(8191)
  {
    NoSmallDivisor();
    forall d: nat | 1 < d < 8191
      ensures !Divides(d, 8191)
    {
      if d > 90 && Divides(d, 8191) {
        QuotientDivides(8191, d);
        QuotientIsSmall(d);
      }
    }
  }

  lemma LargeProduct(q: int, d: int)
    ensures q >= 91 && d >= 91 ==> q * d >= 91 * 91
  {
    assert q * d == (q - 91) * (d - 91) + 91 * q + 91 * d - 91 * 91;
    ProductOfNonnegatives(q - 91, d - 91);
  }

  lemma ProductOfNonnegatives(x: int, y: int)
    ensures x >= 0 && y >= 0 ==> x * y >= 0
  {
  }

  lemma QuotientIsSmall(d: nat)
    requires 90 < d <= 8191
    ensures 1 <= 8191 / d <= 90
  {
    var q, r := 8191 / d, 8191 % d;
    assert 8191 == q * d + r;
    LargeProduct(q, d);
  }
}
