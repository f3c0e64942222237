/** When the B3I generator resets its first register, and what follows for the code: the reset
    state first turns up after 8189 chips, because 8191 is prime. */
module BeidouB3iPeriod {
  import opened ShiftRegisters
  import opened Periods
  import opened BeidouB3iRecurrences
  import B = BeidouB3i

  const FIRST_RESET: nat := 8189

  /** What the first register would emit without its reset. */
  function Unreset(n: nat): bool {
    if n < 13 then true
    else Xor(Xor(Xor(Unreset(n - 13), Unreset(n - 4)), Unreset(n - 3)), Unreset(n - 1))
  }

  lemma UnresetTerm(n: nat)
    ensures FirstRecurs(Unreset, n)
  {
  }

  lemma UnresetFollows()
    ensures FollowsFirst(Unreset)
  {
    forall n: nat
      ensures FirstRecurs(Unreset, n)
    {
      UnresetTerm(n);
    }
  }

  /** A sequence of the first law that opens with thirteen ones. */
  ghost predicate IsFirstCode(s: nat -> bool) {
    FollowsFirst(s) && forall k: nat :: k < 13 ==> s(k)
  }

  lemma UnresetIsFirstCode()
    ensures IsFirstCode(Unreset)
  {
    UnresetFollows();
  }

  lemma TermRepeats(s: nat -> bool, n: nat)
    requires IsFirstCode(s)
    ensures s(n + PERIOD) == s(n)
  {
    hide FirstRecurs;
    FirstHasPeriod(s);
    assert Repeats(s, PERIOD, n);
  }

  lemma OpensPeriod(s: nat -> bool, k: nat)
    requires IsFirstCode(s) && k < 13
    ensures s(FIRST_RESET + 2 + k)
  {
    TermRepeats(s, k);
    assert FIRST_RESET + 2 + k == k + PERIOD;
  }

  /** The two terms before the thirteen ones that open a period are zeros. */
  lemma BeforeThePeriod(s: nat -> bool)
    requires IsFirstCode(s)
    ensures !s(FIRST_RESET) && !s(FIRST_RESET + 1)
  {
    assert FirstRecurs(s, FIRST_RESET + 1) && FirstRecurs(s, FIRST_RESET);
    hide FollowsFirst;
    OpensPeriod(s, 7);
    OpensPeriod(s, 8);
    OpensPeriod(s, 9);
    OpensPeriod(s, 10);
    OpensPeriod(s, 11);
    OpensPeriod(s, 12);
  }

  /** So the reset state is what the register holds after 8189 steps without reset. */
  lemma ResetStateAt(s: nat -> bool, k: nat)
    requires IsFirstCode(s) && k < 13
    ensures s(FIRST_RESET + k) == B.RESET_STATE[k]
  {
    hide IsFirstCode;
    BeforeThePeriod(s);
    if k >= 2 {
      OpensPeriod(s, k - 2);
      assert FIRST_RESET + 2 + (k - 2) == FIRST_RESET + k;
    }
  }

  /** Two equal windows agree from there on. */
  lemma {:induction false} EqualWindows(s: nat -> bool, a: nat, b: nat, n: nat)
    requires FollowsFirst(s)
    requires forall k: nat :: k < 13 ==> AgreeAt(s, a, b, k)
    ensures AgreeAt(s, a, b, n)
  {
    if n >= 13 {
      var m := n - 13;
      EqualWindows(s, a, b, m);
      EqualWindows(s, a, b, m + 9);
      EqualWindows(s, a, b, m + 10);
      EqualWindows(s, a, b, m + 12);
      NextAgrees(s, a, b, m);
    }
  }

  ghost predicate AgreeAt(s: nat -> bool, a: nat, b: nat, n: nat) {
    s(a + n) == s(b + n)
  }

  lemma NextAgrees(s: nat -> bool, a: nat, b: nat, m: nat)
    requires FollowsFirst(s)
    requires AgreeAt(s, a, b, m) && AgreeAt(s, a, b, m + 9) && AgreeAt(s, a, b, m + 10) && AgreeAt(s, a, b, m + 12)
    ensures AgreeAt(s, a, b, m + 13)
  {
    assert FirstRecurs(s, a + m) && FirstRecurs(s, b + m);
  }

  /** Nor does it turn up before: the distance would be a second period, and with the prime
      period 8191 the sequence would be constant. */
  lemma NoEarlierResetState(s: nat -> bool, j: nat)
    requires IsFirstCode(s) && j < FIRST_RESET
    ensures !IsWindow(B.RESET_STATE, s, j)
  {
    hide IsPeriod, IsPrime, FollowsFirst;
    if IsWindow(B.RESET_STATE, s, j) {
      FirstHasPeriod(s);
      WindowsGivePeriod(s, j);
      MersennePrime();
      PrimePeriod(s, PERIOD, FIRST_RESET - j);
      NotConstant(s);
    }
  }

  lemma NotConstant(s: nat -> bool)
    requires IsFirstCode(s)
    ensures !IsPeriod(s, 1)
  {
    assert FirstRecurs(s, 0);
    assert !Repeats(s, 1, 12);
  }

  lemma WindowsGivePeriod(s: nat -> bool, j: nat)
    requires IsFirstCode(s) && j < FIRST_RESET && IsWindow(B.RESET_STATE, s, j)
    ensures IsPeriod(s, FIRST_RESET - j)
  {
    hide FirstRecurs;
    forall k: nat | k < 13
      ensures AgreeAt(s, j, FIRST_RESET, k)
    {
      ResetStateAt(s, k);
      assert B.RESET_STATE[k] == s(j + k);
    }
    var d := FIRST_RESET - j;
    forall n: nat
      ensures Repeats(s, d, n)
    {
      EqualWindows(s, j, FIRST_RESET, n + PERIOD - j);
      TermRepeats(s, n);
      TermRepeats(s, n + d);
      assert j + (n + PERIOD - j) == n + PERIOD;
      assert FIRST_RESET + (n + PERIOD - j) == n + d + PERIOD;
    }
  }

  /** Until the first reset the register is a window of the unreset sequence. */
  lemma {:induction false} WindowUntilReset(n: nat)
    requires n < FIRST_RESET
    ensures IsWindow(B.State1(n), Unreset, n)
    ensures n > 0 ==> !B.ResetBefore(n)
  {
    hide Unreset, B.State1, B.Shifted1, B.ResetBefore, IsWindow, IsFirstCode;
    if n == 0 {
      StartIsWindow();
    } else {
      WindowUntilReset(n - 1);
      ShiftedIsWindow(n - 1);
      UnresetIsFirstCode();
      NoEarlierResetState(Unreset, n);
      UnlessReset(n);
    }
  }

  lemma StartIsWindow()
    ensures IsWindow(B.State1(0), Unreset, 0)
  {
    hide Unreset;
    UnresetIsFirstCode();
  }

  lemma UnlessReset(n: nat)
    requires n > 0 && B.Shifted1(B.State1(n - 1)) != B.RESET_STATE
    ensures !B.ResetBefore(n) && B.State1(n) == B.Shifted1(B.State1(n - 1))
  {
    hide B.Shifted1;
  }

  lemma ShiftedIsWindow(n: nat)
    requires IsWindow(B.State1(n), Unreset, n)
    ensures IsWindow(B.Shifted1(B.State1(n)), Unreset, n + 1)
  {
    hide Unreset, B.State1, B.Feedback1;
    var r := B.State1(n);
    UnresetTerm(n);
    B.FeedbackOf(r);
    assert r[0] == Unreset(n + 0);
    ShiftedWindow(r, Unreset, n);
  }

  /** The first reset comes after exactly 8189 chips. */
  lemma FirstReset()
    ensures B.ResetBefore(FIRST_RESET)
    ensures forall n :: 0 < n < FIRST_RESET ==> !B.ResetBefore(n)
  {
    hide Unreset, B.State1, B.Shifted1, B.ResetBefore;
    forall n | 0 < n < FIRST_RESET
      ensures !B.ResetBefore(n)
    {
      WindowUntilReset(n);
    }
    WindowUntilReset(FIRST_RESET - 1);
    ShiftedIsWindow(FIRST_RESET - 1);
    ReachesReset();
  }

  lemma ReachesReset()
    requires IsWindow(B.Shifted1(B.State1(FIRST_RESET - 1)), Unreset, FIRST_RESET)
    ensures B.ResetBefore(FIRST_RESET)
  {
    hide Unreset, B.State1, B.Shifted1, IsFirstCode;
    UnresetIsFirstCode();
    var r := B.Shifted1(B.State1(FIRST_RESET - 1));
    forall k: nat | k < 13
      ensures r[k] == B.RESET_STATE[k]
    {
      ResetStateAt(Unreset, k);
      assert r[k] == Unreset(FIRST_RESET + k);
    }
    assert r == B.RESET_STATE;
  }

  /** So the first code repeats after 8189 chips, and within them it is the unreset sequence. */
  lemma FirstCodePeriod(n: nat)
    ensures B.G1(FIRST_RESET + n) == B.G1(n)
    ensures n < FIRST_RESET ==> B.G1(n) == Unreset(n)
  {
    hide Unreset, B.State1, B.ResetBefore;
    FirstReset();
    B.ResetMakesPeriodic(FIRST_RESET, n);
    if n < FIRST_RESET {
      WindowUntilReset(n);
      assert B.State1(n)[0] == Unreset(n + 0);
    }
  }
}
