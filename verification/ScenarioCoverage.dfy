/** The audit of a live session's operator events: one pass over the event log sets nine latches,
    each of which says that a certain scenario occurs somewhere in the log. */
module ScenarioCoverage {
  import opened Wrappers

  datatype Kind =
    | JammerOn | JammerOff | JammerMoved
    | BladeRFOn | BladeRFOff
    | LcmvOn | LcmvOff
    | OtherEvent

  datatype Event = Event(kind: Kind, epoch: real)

  datatype Switch = Unknown | On | Off

  datatype Coverage = Coverage(
    bladeRFBaselineLcmvOffJammerOff: bool,
    lcmvOnBladeRFOnJammerOff: bool,
    jammerOnDuringLcmv: bool,
    jammerOffDuringLcmv: bool,
    lcmvOffAfterJammerCycle: bool,
    lcmvReenabledWithBladeRFOnJammerOff: bool,
    jammerReenabledAfterLcmvRearm: bool,
    bladeRFOnWhileLcmvOn: bool,
    jammerMovedWhileLcmvOn: bool)

  // ---------- what the latches mean ----------

  ghost predicate KindAt(events: seq<Event>, k: int, kind: Kind) {
    0 <= k < |events| && events[k].kind == kind
  }

  /** Event `k` is of the kind and no event of the other kind lies between it and position `n`. */
  ghost predicate InForceSince(events: seq<Event>, n: nat, kind: Kind, other: Kind, k: nat) {
    k < n && KindAt(events, k, kind) && forall j :: k < j < n ==> !KindAt(events, j, other)
  }

  /** Before position `n` the last event of the two kinds is of the first. */
  ghost predicate InForce(events: seq<Event>, n: nat, kind: Kind, other: Kind) {
    exists k: nat :: InForceSince(events, n, kind, other, k)
  }

  ghost predicate LcmvIsOn(events: seq<Event>, n: nat) {
    InForce(events, n, LcmvOn, LcmvOff)
  }

  ghost predicate BladeRFOnJammerOff(events: seq<Event>, n: nat) {
    InForce(events, n, BladeRFOn, BladeRFOff) && InForce(events, n, JammerOff, JammerOn)
  }

  ghost predicate UnderLcmv(events: seq<Event>, i: nat, kind: Kind) {
    KindAt(events, i, kind) && LcmvIsOn(events, i)
  }

  /** One of the first `n` events is of the kind and comes while the beamformer is on. */
  ghost predicate SeenUnderLcmv(events: seq<Event>, n: nat, kind: Kind) {
    exists i: nat :: i < n && UnderLcmv(events, i, kind)
  }

  /** After one of the first `n` events the bladeRF is on, the jammer off and the beamformer off. */
  ghost predicate BaselineSeen(events: seq<Event>, n: nat) {
    exists m: nat :: 0 < m <= n && BladeRFOnJammerOff(events, m) && !LcmvIsOn(events, m)
  }

  ghost predicate PreserveSeen(events: seq<Event>, n: nat) {
    exists m: nat :: 0 < m <= n && BladeRFOnJammerOff(events, m) && LcmvIsOn(events, m)
  }

  ghost predicate LcmvOnBefore(events: seq<Event>, n: nat) {
    exists a: nat :: a < n && KindAt(events, a, LcmvOn)
  }

  /** Event `b` turns the beamformer on, and not for the first time. */
  ghost predicate IsRearm(events: seq<Event>, b: nat) {
    KindAt(events, b, LcmvOn) && LcmvOnBefore(events, b)
  }

  ghost predicate RearmedBefore(events: seq<Event>, n: nat) {
    exists b: nat :: b < n && IsRearm(events, b)
  }

  ghost predicate ReenabledSeen(events: seq<Event>, n: nat) {
    exists m: nat :: 0 < m <= n && RearmedBefore(events, m) && BladeRFOnJammerOff(events, m) && LcmvIsOn(events, m)
  }

  /** A jammer-on under the beamformer is followed by a jammer-off under it. */
  ghost predicate CycleSeen(events: seq<Event>, n: nat) {
    exists j: nat :: j < n && UnderLcmv(events, j, JammerOff) && SeenUnderLcmv(events, j, JammerOn)
  }

  /** ... and later by an lcmv-off. */
  ghost predicate OffAfterCycleSeen(events: seq<Event>, n: nat) {
    exists k: nat :: k < n && KindAt(events, k, LcmvOff) && CycleSeen(events, k)
  }

  /** Event `b` is the last lcmv-on before `n`. */
  ghost predicate IsLastLcmvOn(events: seq<Event>, n: nat, b: nat) {
    b < n && KindAt(events, b, LcmvOn) && forall j :: b < j < n ==> !KindAt(events, j, LcmvOn)
  }

  /** A jammer-on under the beamformer, not stamped earlier than the last lcmv-on before it,
      which is not the first one. */
  ghost predicate IsReenabledJammer(events: seq<Event>, i: nat) {
    && UnderLcmv(events, i, JammerOn)
    && exists b: nat :: IsLastLcmvOn(events, i, b) && IsRearm(events, b) && events[i].epoch >= events[b].epoch
  }

  ghost predicate ReenabledJammerSeen(events: seq<Event>, n: nat) {
    exists i: nat :: i < n && IsReenabledJammer(events, i)
  }

  ghost predicate Covers(c: Coverage, events: seq<Event>, n: nat) {
    && (c.bladeRFBaselineLcmvOffJammerOff <==> BaselineSeen(events, n))
    && (c.lcmvOnBladeRFOnJammerOff <==> PreserveSeen(events, n))
    && (c.jammerOnDuringLcmv <==> SeenUnderLcmv(events, n, JammerOn))
    && (c.jammerOffDuringLcmv <==> SeenUnderLcmv(events, n, JammerOff))
    && (c.lcmvOffAfterJammerCycle <==> OffAfterCycleSeen(events, n))
    && (c.lcmvReenabledWithBladeRFOnJammerOff <==> ReenabledSeen(events, n))
    && (c.jammerReenabledAfterLcmvRearm <==> ReenabledJammerSeen(events, n))
    && (c.bladeRFOnWhileLcmvOn <==> SeenUnderLcmv(events, n, BladeRFOn))
    && (c.jammerMovedWhileLcmvOn <==> SeenUnderLcmv(events, n, JammerMoved))
  }

  // ---------- one more event ----------

  lemma InForceNext(events: seq<Event>, n: nat, kind: Kind, other: Kind)
    requires n < |events| && kind != other
    ensures InForce(events, n + 1, kind, other) <==>
            events[n].kind == kind || (InForce(events, n, kind, other) && events[n].kind != other)
  {
    if events[n].kind == kind {
      assert InForceSince(events, n + 1, kind, other, n);
    } else if InForce(events, n + 1, kind, other) {
      var k: nat :| InForceSince(events, n + 1, kind, other, k);
      InForceSinceNext(events, n, kind, other, k);
    } else if InForce(events, n, kind, other) {
      var k: nat :| InForceSince(events, n, kind, other, k);
      InForceSinceNext(events, n, kind, other, k);
    }
  }

  lemma InForceSinceNext(events: seq<Event>, n: nat, kind: Kind, other: Kind, k: nat)
    requires n < |events| && events[n].kind != kind
    ensures InForceSince(events, n + 1, kind, other, k) <==>
            InForceSince(events, n, kind, other, k) && events[n].kind != other
  {
    assert KindAt(events, n, other) <==> events[n].kind == other;
  }

  lemma SeenNext(events: seq<Event>, n: nat, kind: Kind)
    requires n < |events|
    ensures SeenUnderLcmv(events, n + 1, kind) <==> SeenUnderLcmv(events, n, kind) || UnderLcmv(events, n, kind)
  {
    hide UnderLcmv;
  }

  lemma CycleNext(events: seq<Event>, n: nat)
    requires n < |events|
    ensures CycleSeen(events, n + 1) <==>
            CycleSeen(events, n) || (UnderLcmv(events, n, JammerOff) && SeenUnderLcmv(events, n, JammerOn))
    ensures OffAfterCycleSeen(events, n + 1) <==>
            OffAfterCycleSeen(events, n) || (events[n].kind == LcmvOff && CycleSeen(events, n))
  {
    hide UnderLcmv, SeenUnderLcmv;
    assert KindAt(events, n, LcmvOff) <==> events[n].kind == LcmvOff;
    OffNext(events, n);
  }

  lemma OffNext(events: seq<Event>, n: nat)
    requires n < |events|
    ensures OffAfterCycleSeen(events, n + 1) <==>
            OffAfterCycleSeen(events, n) || (KindAt(events, n, LcmvOff) && CycleSeen(events, n))
  {
    hide CycleSeen, KindAt;
  }

  lemma RearmedNext(events: seq<Event>, n: nat)
    requires n < |events|
    ensures LcmvOnBefore(events, n + 1) <==> LcmvOnBefore(events, n) || events[n].kind == LcmvOn
    ensures RearmedBefore(events, n + 1) <==>
            RearmedBefore(events, n) || (events[n].kind == LcmvOn && LcmvOnBefore(events, n))
  {
    assert KindAt(events, n, LcmvOn) <==> events[n].kind == LcmvOn;
    assert IsRearm(events, n) <==> events[n].kind == LcmvOn && LcmvOnBefore(events, n);
  }

  lemma StatesNext(events: seq<Event>, n: nat)
    ensures BaselineSeen(events, n + 1) <==>
            BaselineSeen(events, n) || (BladeRFOnJammerOff(events, n + 1) && !LcmvIsOn(events, n + 1))
    ensures PreserveSeen(events, n + 1) <==>
            PreserveSeen(events, n) || (BladeRFOnJammerOff(events, n + 1) && LcmvIsOn(events, n + 1))
    ensures ReenabledSeen(events, n + 1) <==>
            ReenabledSeen(events, n)
            || (RearmedBefore(events, n + 1) && BladeRFOnJammerOff(events, n + 1) && LcmvIsOn(events, n + 1))
  {
    hide BladeRFOnJammerOff, LcmvIsOn, RearmedBefore;
  }

  lemma ReenabledJammerNext(events: seq<Event>, n: nat)
    ensures ReenabledJammerSeen(events, n + 1) <==> ReenabledJammerSeen(events, n) || IsReenabledJammer(events, n)
  {
    hide IsReenabledJammer;
  }

  // ---------- the stamp of the last re-arming ----------

  /** What `second_lcmv_on_epoch` holds: the stamp of the last lcmv-on, from the second one on. */
  ghost predicate HoldsRearmEpoch(epoch: Option<real>, events: seq<Event>, n: nat) {
    && (epoch.Some? <==> RearmedBefore(events, n))
    && (epoch.Some? ==>
          exists b: nat :: IsLastLcmvOn(events, n, b) && IsRearm(events, b) && epoch.value == events[b].epoch)
  }

  lemma RearmEpochKept(epoch: Option<real>, events: seq<Event>, n: nat)
    requires n < |events| && HoldsRearmEpoch(epoch, events, n) && events[n].kind != LcmvOn
    ensures HoldsRearmEpoch(epoch, events, n + 1)
  {
    hide LcmvOnBefore, RearmedBefore, IsRearm;
    RearmedNext(events, n);
    if epoch.Some? {
      var b: nat :| IsLastLcmvOn(events, n, b) && IsRearm(events, b) && epoch.value == events[b].epoch;
      assert IsLastLcmvOn(events, n + 1, b);
    }
  }

  lemma RearmEpochNext(epoch: Option<real>, events: seq<Event>, n: nat)
    requires n < |events| && HoldsRearmEpoch(epoch, events, n) && events[n].kind == LcmvOn
    ensures LcmvOnBefore(events, n) ==> HoldsRearmEpoch(Some(events[n].epoch), events, n + 1)
    ensures !LcmvOnBefore(events, n) ==> HoldsRearmEpoch(epoch, events, n + 1)
  {
    hide LcmvOnBefore, RearmedBefore;
    RearmedNext(events, n);
    if LcmvOnBefore(events, n) {
      assert IsLastLcmvOn(events, n + 1, n) && IsRearm(events, n);
    } else {
      NoRearmYet(events, n);
    }
  }

  lemma NoRearmYet(events: seq<Event>, n: nat)
    requires !LcmvOnBefore(events, n)
    ensures !RearmedBefore(events, n)
  {
  }

  lemma ReenabledJammerTest(epoch: Option<real>, events: seq<Event>, n: nat)
    requires n < |events| && HoldsRearmEpoch(epoch, events, n)
    ensures IsReenabledJammer(events, n) <==>
            UnderLcmv(events, n, JammerOn) && epoch.Some? && events[n].epoch >= epoch.value
  {
    hide UnderLcmv, LcmvOnBefore;
    if epoch.Some? {
      var b: nat :| IsLastLcmvOn(events, n, b) && IsRearm(events, b) && epoch.value == events[b].epoch;
      forall c: nat | IsLastLcmvOn(events, n, c)
        ensures c == b
      {
        OneLastLcmvOn(events, n, b, c);
      }
    }
  }

  lemma OneLastLcmvOn(events: seq<Event>, n: nat, b: nat, c: nat)
    requires IsLastLcmvOn(events, n, b) && IsLastLcmvOn(events, n, c)
    ensures b == c
  {
  }

  // ---------- the pass ----------

  lemma NothingYet(events: seq<Event>)
    ensures !InForce(events, 0, JammerOff, JammerOn) && !InForce(events, 0, BladeRFOn, BladeRFOff)
    ensures !LcmvIsOn(events, 0) && !CycleSeen(events, 0) && !LcmvOnBefore(events, 0) && !RearmedBefore(events, 0)
    ensures HoldsRearmEpoch(None, events, 0)
    ensures !BaselineSeen(events, 0) && !PreserveSeen(events, 0) && !ReenabledSeen(events, 0)
    ensures !OffAfterCycleSeen(events, 0) && !ReenabledJammerSeen(events, 0)
    ensures forall kind :: !SeenUnderLcmv(events, 0, kind)
  {
  }

  lemma SwitchesNext(events: seq<Event>, n: nat, kind: Kind)
    requires n < |events| && kind == events[n].kind
    ensures InForce(events, n + 1, JammerOff, JammerOn) <==>
            kind == JammerOff || (InForce(events, n, JammerOff, JammerOn) && kind != JammerOn)
    ensures InForce(events, n + 1, BladeRFOn, BladeRFOff) <==>
            kind == BladeRFOn || (InForce(events, n, BladeRFOn, BladeRFOff) && kind != BladeRFOff)
    ensures LcmvIsOn(events, n + 1) <==>
            kind == LcmvOn || (LcmvIsOn(events, n) && kind != LcmvOff)
    ensures BladeRFOnJammerOff(events, n + 1) <==>
            InForce(events, n + 1, BladeRFOn, BladeRFOff) && InForce(events, n + 1, JammerOff, JammerOn)
  {
    hide InForce;
    InForceNext(events, n, JammerOff, JammerOn);
    InForceNext(events, n, BladeRFOn, BladeRFOff);
    InForceNext(events, n, LcmvOn, LcmvOff);
  }

  /** What event `n` adds to each latch that looks at single events. */
  lemma LatchesNext(events: seq<Event>, n: nat, kind: Kind)
    requires n < |events| && kind == events[n].kind
    ensures SeenUnderLcmv(events, n + 1, JammerOn) <==>
            SeenUnderLcmv(events, n, JammerOn) || (kind == JammerOn && LcmvIsOn(events, n))
    ensures SeenUnderLcmv(events, n + 1, JammerOff) <==>
            SeenUnderLcmv(events, n, JammerOff) || (kind == JammerOff && LcmvIsOn(events, n))
    ensures SeenUnderLcmv(events, n + 1, BladeRFOn) <==>
            SeenUnderLcmv(events, n, BladeRFOn) || (kind == BladeRFOn && LcmvIsOn(events, n))
    ensures SeenUnderLcmv(events, n + 1, JammerMoved) <==>
            SeenUnderLcmv(events, n, JammerMoved) || (kind == JammerMoved && LcmvIsOn(events, n))
    ensures CycleSeen(events, n + 1) <==>
            CycleSeen(events, n)
            || (kind == JammerOff && LcmvIsOn(events, n) && SeenUnderLcmv(events, n, JammerOn))
    ensures OffAfterCycleSeen(events, n + 1) <==>
            OffAfterCycleSeen(events, n) || (kind == LcmvOff && CycleSeen(events, n))
    ensures ReenabledJammerSeen(events, n + 1) <==> ReenabledJammerSeen(events, n) || IsReenabledJammer(events, n)
    ensures UnderLcmv(events, n, JammerOn) <==> kind == JammerOn && LcmvIsOn(events, n)
  {
    hide LcmvIsOn, SeenUnderLcmv, CycleSeen, OffAfterCycleSeen, ReenabledJammerSeen, IsReenabledJammer;
    SeenNext(events, n, JammerOn);
    SeenNext(events, n, JammerOff);
    SeenNext(events, n, BladeRFOn);
    SeenNext(events, n, JammerMoved);
    CycleNext(events, n);
    ReenabledJammerNext(events, n);
  }

  /** The variables of the pass. */
  datatype Tally = Tally(
    jammer: Switch,
    bladeRF: Switch,
    lcmv: Switch,
    jammerCycleSeen: bool,
    lcmvOnCount: nat,
    secondLcmvOnEpoch: Option<real>,
    coverage: Coverage)

  const NOTHING_COVERED :=
    Coverage(false, false, false, false, false, false, false, false, false)

  const START := Tally(Unknown, Unknown, Off, false, 0, None, NOTHING_COVERED)

  function Reenabled(t: Tally, event: Event): bool {
    && event.kind == JammerOn && t.lcmv == On
    && t.secondLcmvOnEpoch.Some? && event.epoch >= t.secondLcmvOnEpoch.value
  }

  /** What an event itself makes of each variable. */
  function Switched(t: Tally, event: Event): Tally {
    var (kind, c, underLcmv) := (event.kind, t.coverage, t.lcmv == On);
    var lcmvOnCount := if kind == LcmvOn then t.lcmvOnCount + 1 else t.lcmvOnCount;
    Tally(
      if kind == JammerOn then On else if kind == JammerOff then Off else t.jammer,
      if kind == BladeRFOn then On else if kind == BladeRFOff then Off else t.bladeRF,
      if kind == LcmvOn then On else if kind == LcmvOff then Off else t.lcmv,
      t.jammerCycleSeen || (kind == JammerOff && underLcmv && c.jammerOnDuringLcmv),
      lcmvOnCount,
      if kind == LcmvOn && lcmvOnCount >= 2 then Some(event.epoch) else t.secondLcmvOnEpoch,
      c.(jammerOnDuringLcmv := c.jammerOnDuringLcmv || (kind == JammerOn && underLcmv),
         jammerOffDuringLcmv := c.jammerOffDuringLcmv || (kind == JammerOff && underLcmv),
         lcmvOffAfterJammerCycle := c.lcmvOffAfterJammerCycle || (kind == LcmvOff && t.jammerCycleSeen),
         jammerReenabledAfterLcmvRearm := c.jammerReenabledAfterLcmvRearm || Reenabled(t, event),
         bladeRFOnWhileLcmvOn := c.bladeRFOnWhileLcmvOn || (kind == BladeRFOn && underLcmv),
         jammerMovedWhileLcmvOn := c.jammerMovedWhileLcmvOn || (kind == JammerMoved && underLcmv)))
  }

  /** What the state after the event adds. */
  function Settled(t: Tally): Tally {
    var (c, ready) := (t.coverage, t.bladeRF == On && t.jammer == Off);
    t.(coverage :=
         c.(bladeRFBaselineLcmvOffJammerOff := c.bladeRFBaselineLcmvOffJammerOff || (ready && t.lcmv == Off),
            lcmvOnBladeRFOnJammerOff := c.lcmvOnBladeRFOnJammerOff || (ready && t.lcmv == On),
            lcmvReenabledWithBladeRFOnJammerOff :=
              c.lcmvReenabledWithBladeRFOnJammerOff || (t.lcmvOnCount >= 2 && ready && t.lcmv == On)))
  }

  function Noted(t: Tally, event: Event): Tally {
    Settled(Switched(t, event))
  }

  ghost predicate TracksSwitches(t: Tally, events: seq<Event>, n: nat) {
    && (t.jammer == Off <==> InForce(events, n, JammerOff, JammerOn))
    && (t.bladeRF == On <==> InForce(events, n, BladeRFOn, BladeRFOff))
    && t.lcmv == (if LcmvIsOn(events, n) then On else Off)
  }

  ghost predicate TracksHistory(t: Tally, events: seq<Event>, n: nat) {
    && (t.jammerCycleSeen <==> CycleSeen(events, n))
    && (t.lcmvOnCount >= 1 <==> LcmvOnBefore(events, n))
    && (t.lcmvOnCount >= 2 <==> RearmedBefore(events, n))
    && HoldsRearmEpoch(t.secondLcmvOnEpoch, events, n)
  }

  ghost predicate Tracks(t: Tally, events: seq<Event>, n: nat) {
    TracksSwitches(t, events, n) && TracksHistory(t, events, n) && Covers(t.coverage, events, n)
  }

  lemma TracksStart(events: seq<Event>)
    ensures Tracks(START, events, 0)
  {
    hide HoldsRearmEpoch, InForce, LcmvIsOn, CycleSeen, LcmvOnBefore, RearmedBefore, BaselineSeen, PreserveSeen,
      ReenabledSeen, OffAfterCycleSeen, ReenabledJammerSeen, SeenUnderLcmv;
    NothingYet(events);
  }

  lemma TracksOn(t: Tally, events: seq<Event>, n: nat)
    requires n < |events| && Tracks(t, events, n)
    ensures Tracks(Noted(t, events[n]), events, n + 1)
  {
    hide TracksSwitches, TracksHistory, Covers, Noted;
    SwitchesTracked(t, events, n);
    HistoryTracked(t, events, n);
    CoverageTracked(t, events, n);
  }

  lemma SwitchesTracked(t: Tally, events: seq<Event>, n: nat)
    requires n < |events| && TracksSwitches(t, events, n)
    ensures TracksSwitches(Noted(t, events[n]), events, n + 1)
  {
    hide InForce, LcmvIsOn;
    SwitchesNext(events, n, events[n].kind);
  }

  lemma HistoryTracked(t: Tally, events: seq<Event>, n: nat)
    requires n < |events| && Tracks(t, events, n)
    ensures TracksHistory(Noted(t, events[n]), events, n + 1)
  {
    hide InForce, LcmvIsOn, CycleSeen, LcmvOnBefore, RearmedBefore, HoldsRearmEpoch, BaselineSeen, PreserveSeen,
      ReenabledSeen, OffAfterCycleSeen, ReenabledJammerSeen, SeenUnderLcmv, UnderLcmv, IsReenabledJammer;
    LatchesNext(events, n, events[n].kind);
    RearmedNext(events, n);
    if events[n].kind == LcmvOn {
      RearmEpochNext(t.secondLcmvOnEpoch, events, n);
    } else {
      RearmEpochKept(t.secondLcmvOnEpoch, events, n);
    }
  }

  /** The latches set by single events and those set by the states after them. */
  ghost predicate CoversEvents(c: Coverage, events: seq<Event>, n: nat) {
    && (c.jammerOnDuringLcmv <==> SeenUnderLcmv(events, n, JammerOn))
    && (c.jammerOffDuringLcmv <==> SeenUnderLcmv(events, n, JammerOff))
    && (c.lcmvOffAfterJammerCycle <==> OffAfterCycleSeen(events, n))
    && (c.jammerReenabledAfterLcmvRearm <==> ReenabledJammerSeen(events, n))
    && (c.bladeRFOnWhileLcmvOn <==> SeenUnderLcmv(events, n, BladeRFOn))
    && (c.jammerMovedWhileLcmvOn <==> SeenUnderLcmv(events, n, JammerMoved))
  }

  ghost predicate CoversStates(c: Coverage, events: seq<Event>, n: nat) {
    && (c.bladeRFBaselineLcmvOffJammerOff <==> BaselineSeen(events, n))
    && (c.lcmvOnBladeRFOnJammerOff <==> PreserveSeen(events, n))
    && (c.lcmvReenabledWithBladeRFOnJammerOff <==> ReenabledSeen(events, n))
  }

  lemma CoversParts(c: Coverage, events: seq<Event>, n: nat)
    ensures Covers(c, events, n) <==> CoversEvents(c, events, n) && CoversStates(c, events, n)
  {
    hide BaselineSeen, PreserveSeen, ReenabledSeen, OffAfterCycleSeen, ReenabledJammerSeen, SeenUnderLcmv;
  }

  lemma EventLatchesTracked(t: Tally, events: seq<Event>, n: nat)
    requires n < |events| && TracksSwitches(t, events, n) && TracksHistory(t, events, n)
    requires CoversEvents(t.coverage, events, n)
    ensures CoversEvents(Switched(t, events[n]).coverage, events, n + 1)
  {
    hide InForce, LcmvIsOn, CycleSeen, LcmvOnBefore, RearmedBefore, HoldsRearmEpoch, OffAfterCycleSeen,
      ReenabledJammerSeen, SeenUnderLcmv, UnderLcmv, IsReenabledJammer;
    LatchesNext(events, n, events[n].kind);
    ReenabledJammerTest(t.secondLcmvOnEpoch, events, n);
  }

  lemma StateLatchesTracked(t: Tally, events: seq<Event>, n: nat)
    requires TracksSwitches(t, events, n + 1) && TracksHistory(t, events, n + 1)
    requires CoversStates(t.coverage, events, n)
    ensures CoversStates(Settled(t).coverage, events, n + 1)
    ensures CoversEvents(Settled(t).coverage, events, n + 1) == CoversEvents(t.coverage, events, n + 1)
  {
    StatesNext(events, n);
    ReadyParts(events, n + 1);
    hide InForce, LcmvIsOn, CycleSeen, LcmvOnBefore, RearmedBefore, HoldsRearmEpoch, BaselineSeen, PreserveSeen,
      ReenabledSeen, OffAfterCycleSeen, ReenabledJammerSeen, SeenUnderLcmv, BladeRFOnJammerOff;
  }

  lemma ReadyParts(events: seq<Event>, n: nat)
    ensures BladeRFOnJammerOff(events, n) <==>
            InForce(events, n, BladeRFOn, BladeRFOff) && InForce(events, n, JammerOff, JammerOn)
  {
  }

  lemma SettledKeeps(t: Tally, events: seq<Event>, n: nat)
    ensures TracksSwitches(Settled(t), events, n) == TracksSwitches(t, events, n)
    ensures TracksHistory(Settled(t), events, n) == TracksHistory(t, events, n)
  {
    hide InForce, LcmvIsOn, CycleSeen, LcmvOnBefore, RearmedBefore, HoldsRearmEpoch;
  }

  lemma SwitchedKeepsStates(t: Tally, event: Event, events: seq<Event>, n: nat)
    ensures CoversStates(Switched(t, event).coverage, events, n) == CoversStates(t.coverage, events, n)
  {
    hide BaselineSeen, PreserveSeen, ReenabledSeen;
  }

  lemma CoverageTracked(t: Tally, events: seq<Event>, n: nat)
    requires n < |events| && Tracks(t, events, n)
    ensures Covers(Noted(t, events[n]).coverage, events, n + 1)
  {
    hide TracksSwitches, TracksHistory, Covers, CoversEvents, CoversStates, Switched, Settled;
    var next := Switched(t, events[n]);
    CoversParts(t.coverage, events, n);
    SwitchesTracked(t, events, n);
    HistoryTracked(t, events, n);
    SettledKeeps(next, events, n + 1);
    EventLatchesTracked(t, events, n);
    SwitchedKeepsStates(t, events[n], events, n);
    StateLatchesTracked(next, events, n);
    CoversParts(Settled(next).coverage, events, n + 1);
  }

  method NoteJammerOn(t: Tally, event: Event) returns (next: Tally)
    requires event.kind.JammerOn?
    ensures next == Switched(t, event)
  {
    next := t.(jammer := On);
    if t.lcmv == On {
      next := next.(coverage := next.coverage.(jammerOnDuringLcmv := true));
      if t.secondLcmvOnEpoch.Some? && event.epoch >= t.secondLcmvOnEpoch.value {
        next := next.(coverage := next.coverage.(jammerReenabledAfterLcmvRearm := true));
      }
    }
  }

  method NoteJammerOff(t: Tally, event: Event) returns (next: Tally)
    requires event.kind.JammerOff?
    ensures next == Switched(t, event)
  {
    next := t.(jammer := Off);
    if t.lcmv == On {
      next := next.(coverage := next.coverage.(jammerOffDuringLcmv := true));
      if next.coverage.jammerOnDuringLcmv {
        next := next.(jammerCycleSeen := true);
      }
    }
  }

  method NoteJammerMoved(t: Tally, event: Event) returns (next: Tally)
    requires event.kind.JammerMoved?
    ensures next == Switched(t, event)
  {
    next := t;
    if t.lcmv == On {
      next := next.(coverage := next.coverage.(jammerMovedWhileLcmvOn := true));
    }
  }

  method NoteBladeRF(t: Tally, event: Event) returns (next: Tally)
    requires event.kind.BladeRFOn? || event.kind.BladeRFOff?
    ensures next == Switched(t, event)
  {
    next := t;
    if event.kind == BladeRFOn {
      next := next.(bladeRF := On);
      if t.lcmv == On {
        next := next.(coverage := next.coverage.(bladeRFOnWhileLcmvOn := true));
      }
    } else {
      next := next.(bladeRF := Off);
    }
  }

  method NoteLcmv(t: Tally, event: Event) returns (next: Tally)
    requires event.kind.LcmvOn? || event.kind.LcmvOff?
    ensures next == Switched(t, event)
  {
    next := t;
    if event.kind == LcmvOn {
      next := next.(lcmv := On, lcmvOnCount := next.lcmvOnCount + 1);
      if next.lcmvOnCount >= 2 {
        next := next.(secondLcmvOnEpoch := Some(event.epoch));
      }
    } else {
      next := next.(lcmv := Off);
      if t.jammerCycleSeen {
        next := next.(coverage := next.coverage.(lcmvOffAfterJammerCycle := true));
      }
    }
  }

  /** The branches on the kind of event. */
  method NoteKind(t: Tally, event: Event) returns (next: Tally)
    ensures next == Switched(t, event)
  {
    match event.kind {
      case JammerOn => next := NoteJammerOn(t, event);
      case JammerOff => next := NoteJammerOff(t, event);
      case JammerMoved => next := NoteJammerMoved(t, event);
      case BladeRFOn | BladeRFOff => next := NoteBladeRF(t, event);
      case LcmvOn | LcmvOff => next := NoteLcmv(t, event);
      case OtherEvent => next := t;
    }
  }

  /** One turn of the loop. */
  method Note(t: Tally, event: Event) returns (next: Tally)
    ensures next == Noted(t, event)
  {
    hide Switched;
    next := NoteKind(t, event);
    var coverage := next.coverage;
    var baseline := next.bladeRF == On && next.jammer == Off && next.lcmv == Off;
    var lcmvPreserve := next.bladeRF == On && next.jammer == Off && next.lcmv == On;
    next := next.(coverage := coverage.(
      bladeRFBaselineLcmvOffJammerOff := coverage.bladeRFBaselineLcmvOffJammerOff || baseline,
      lcmvOnBladeRFOnJammerOff := coverage.lcmvOnBladeRFOnJammerOff || lcmvPreserve,
      lcmvReenabledWithBladeRFOnJammerOff :=
        coverage.lcmvReenabledWithBladeRFOnJammerOff || (next.lcmvOnCount >= 2 && lcmvPreserve)));
  }

  /** `scenario_coverage`. */
  method Audit(events: seq<Event>) returns (coverage: Coverage)
    ensures Covers(coverage, events, |events|)
  {
    hide Covers, TracksSwitches, TracksHistory, Noted;
    var tally := START;
    TracksStart(events);
    for n := 0 to |events|
      invariant Tracks(tally, events, n)
    {
      TracksOn(tally, events, n);
      tally := Note(tally, events[n]);
    }
    coverage := tally.coverage;
  }

  // ---------- what the audit tells ----------

  /** Every latch that is set stays set when events are appended. */
  lemma LatchesStay(events: seq<Event>, more: seq<Event>, c: Coverage, later: Coverage)
    requires Covers(c, events, |events|) && Covers(later, events + more, |events + more|)
    ensures c.bladeRFBaselineLcmvOffJammerOff ==> later.bladeRFBaselineLcmvOffJammerOff
    ensures c.lcmvOnBladeRFOnJammerOff ==> later.lcmvOnBladeRFOnJammerOff
    ensures c.jammerOnDuringLcmv ==> later.jammerOnDuringLcmv
    ensures c.jammerOffDuringLcmv ==> later.jammerOffDuringLcmv
    ensures c.lcmvOffAfterJammerCycle ==> later.lcmvOffAfterJammerCycle
    ensures c.lcmvReenabledWithBladeRFOnJammerOff ==> later.lcmvReenabledWithBladeRFOnJammerOff
    ensures c.jammerReenabledAfterLcmvRearm ==> later.jammerReenabledAfterLcmvRearm
    ensures c.bladeRFOnWhileLcmvOn ==> later.bladeRFOnWhileLcmvOn
    ensures c.jammerMovedWhileLcmvOn ==> later.jammerMovedWhileLcmvOn
  {
    hide BaselineSeen, PreserveSeen, SeenUnderLcmv, OffAfterCycleSeen, ReenabledSeen, ReenabledJammerSeen;
    StatesStay(events, more);
    forall kind | SeenUnderLcmv(events, |events|, kind)
      ensures SeenUnderLcmv(events + more, |events + more|, kind)
    {
      SeenStays(events, more, |events|, |events + more|, kind);
    }
    if OffAfterCycleSeen(events, |events|) {
      CycleStays(events, more);
    }
    if ReenabledJammerSeen(events, |events|) {
      ReenabledJammerStays(events, more);
    }
  }

  lemma SameKinds(events: seq<Event>, more: seq<Event>, k: int, kind: Kind)
    requires k < |events|
    ensures KindAt(events + more, k, kind) <==> KindAt(events, k, kind)
  {
  }

  lemma SameForce(events: seq<Event>, more: seq<Event>, n: nat, kind: Kind, other: Kind)
    requires n <= |events|
    ensures InForce(events + more, n, kind, other) <==> InForce(events, n, kind, other)
  {
    hide InForceSince;
    forall k: nat
      ensures InForceSince(events + more, n, kind, other, k) <==> InForceSince(events, n, kind, other, k)
    {
      SameForceSince(events, more, n, kind, other, k);
    }
  }

  lemma SameForceSince(events: seq<Event>, more: seq<Event>, n: nat, kind: Kind, other: Kind, k: nat)
    requires n <= |events|
    ensures InForceSince(events + more, n, kind, other, k) <==> InForceSince(events, n, kind, other, k)
  {
    hide KindAt;
    if k < n {
      SameKinds(events, more, k, kind);
      forall j | k < j < n
        ensures KindAt(events + more, j, other) <==> KindAt(events, j, other)
      {
        SameKinds(events, more, j, other);
      }
    }
  }

  lemma SameUnderLcmv(events: seq<Event>, more: seq<Event>, i: nat, kind: Kind)
    requires i < |events|
    ensures UnderLcmv(events + more, i, kind) <==> UnderLcmv(events, i, kind)
  {
    hide KindAt, InForce;
    SameKinds(events, more, i, kind);
    SameForce(events, more, i, LcmvOn, LcmvOff);
  }

  lemma SameStates(events: seq<Event>, more: seq<Event>, m: nat)
    requires m <= |events|
    ensures BladeRFOnJammerOff(events + more, m) <==> BladeRFOnJammerOff(events, m)
    ensures LcmvIsOn(events + more, m) <==> LcmvIsOn(events, m)
  {
    hide InForce;
    SameForce(events, more, m, BladeRFOn, BladeRFOff);
    SameForce(events, more, m, JammerOff, JammerOn);
    SameForce(events, more, m, LcmvOn, LcmvOff);
  }

  lemma SameRearm(events: seq<Event>, more: seq<Event>, b: nat)
    requires b < |events|
    ensures IsRearm(events + more, b) <==> IsRearm(events, b)
  {
    forall a: nat | a <= b
      ensures KindAt(events + more, a, LcmvOn) <==> KindAt(events, a, LcmvOn)
    {
      SameKinds(events, more, a, LcmvOn);
    }
    hide KindAt;
  }

  lemma RearmStays(events: seq<Event>, more: seq<Event>, m: nat)
    requires m <= |events| && RearmedBefore(events, m)
    ensures RearmedBefore(events + more, m)
  {
    hide IsRearm;
    var b: nat :| b < m && IsRearm(events, b);
    SameRearm(events, more, b);
  }

  lemma StatesStay(events: seq<Event>, more: seq<Event>)
    ensures BaselineSeen(events, |events|) ==> BaselineSeen(events + more, |events + more|)
    ensures PreserveSeen(events, |events|) ==> PreserveSeen(events + more, |events + more|)
    ensures ReenabledSeen(events, |events|) ==> ReenabledSeen(events + more, |events + more|)
  {
    hide BladeRFOnJammerOff, LcmvIsOn, RearmedBefore;
    forall m: nat | m <= |events|
      ensures BladeRFOnJammerOff(events + more, m) <==> BladeRFOnJammerOff(events, m)
      ensures LcmvIsOn(events + more, m) <==> LcmvIsOn(events, m)
      ensures RearmedBefore(events, m) ==> RearmedBefore(events + more, m)
    {
      SameStates(events, more, m);
      if RearmedBefore(events, m) {
        RearmStays(events, more, m);
      }
    }
  }

  lemma SeenStays(events: seq<Event>, more: seq<Event>, n: nat, n': nat, kind: Kind)
    requires n <= |events| && n <= n' && SeenUnderLcmv(events, n, kind)
    ensures SeenUnderLcmv(events + more, n', kind)
  {
    hide UnderLcmv;
    var i: nat :| i < n && UnderLcmv(events, i, kind);
    SameUnderLcmv(events, more, i, kind);
  }

  lemma CycleStays(events: seq<Event>, more: seq<Event>)
    requires OffAfterCycleSeen(events, |events|)
    ensures OffAfterCycleSeen(events + more, |events + more|)
  {
    hide UnderLcmv, SeenUnderLcmv;
    var k: nat :| k < |events| && KindAt(events, k, LcmvOff) && CycleSeen(events, k);
    var j: nat :| j < k && UnderLcmv(events, j, JammerOff) && SeenUnderLcmv(events, j, JammerOn);
    SeenStays(events, more, j, j, JammerOn);
    SameUnderLcmv(events, more, j, JammerOff);
    assert CycleSeen(events + more, k);
    SameKinds(events, more, k, LcmvOff);
  }

  lemma ReenabledJammerStays(events: seq<Event>, more: seq<Event>)
    requires ReenabledJammerSeen(events, |events|)
    ensures ReenabledJammerSeen(events + more, |events + more|)
  {
    hide UnderLcmv, IsRearm;
    var i: nat :| i < |events| && IsReenabledJammer(events, i);
    var b: nat :| IsLastLcmvOn(events, i, b) && IsRearm(events, b) && events[i].epoch >= events[b].epoch;
    SameUnderLcmv(events, more, i, JammerOn);
    SameRearm(events, more, b);
    SameLastLcmvOn(events, more, i, b);
    assert IsReenabledJammer(events + more, i);
  }

  lemma SameLastLcmvOn(events: seq<Event>, more: seq<Event>, n: nat, b: nat)
    requires n <= |events| && IsLastLcmvOn(events, n, b)
    ensures IsLastLcmvOn(events + more, n, b)
  {
    hide KindAt;
    SameKinds(events, more, b, LcmvOn);
    forall j | b < j < n
      ensures !KindAt(events + more, j, LcmvOn)
    {
      SameKinds(events, more, j, LcmvOn);
    }
  }

  ghost predicate SortedByTime(events: seq<Event>) {
    forall i, j :: 0 <= i < j < |events| ==> events[i].epoch <= events[j].epoch
  }

  /** In a log sorted by time the stamps play no part: the latch says that the jammer comes on
      under a beamformer that was turned on at least twice before. */
  lemma ReenabledJammerInSortedLog(events: seq<Event>, n: nat)
    requires SortedByTime(events)
    ensures ReenabledJammerSeen(events, n) <==>
            exists i: nat :: i < n && UnderLcmv(events, i, JammerOn) && RearmedBefore(events, i)
  {
    hide UnderLcmv, RearmedBefore, IsReenabledJammer;
    forall i: nat
      ensures IsReenabledJammer(events, i) <==> UnderLcmv(events, i, JammerOn) && RearmedBefore(events, i)
    {
      ReenabledJammerWhenSorted(events, i);
    }
  }

  lemma ReenabledJammerWhenSorted(events: seq<Event>, i: nat)
    requires SortedByTime(events)
    ensures IsReenabledJammer(events, i) <==> UnderLcmv(events, i, JammerOn) && RearmedBefore(events, i)
  {
    hide LcmvIsOn, LcmvOnBefore;
    if UnderLcmv(events, i, JammerOn) && RearmedBefore(events, i) {
      var b: nat :| b < i && IsRearm(events, b);
      var last := LastRearm(events, i, b);
      assert events[last].epoch <= events[i].epoch;
    }
  }

  lemma {:induction false} LastRearm(events: seq<Event>, n: nat, b: nat) returns (last: nat)
    requires b < n <= |events| && IsRearm(events, b)
    ensures IsLastLcmvOn(events, n, last) && IsRearm(events, last)
    decreases n - b
  {
    if IsLastLcmvOn(events, n, b) {
      last := b;
    } else {
      var j :| b < j < n && KindAt(events, j, LcmvOn);
      assert LcmvOnBefore(events, j);
      last := LastRearm(events, n, j);
    }
  }
}
