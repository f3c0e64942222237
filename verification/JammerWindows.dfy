/** Two readings of the jammer markers in an operator log: the audit pairs them into windows, the
    run summary merges them with the spatial snapshots in one two-pointer pass. */
module JammerWindows {
  import opened Wrappers
  import opened ScenarioCoverage

  ghost predicate IsSwitch(events: seq<Event>, k: int) {
    KindAt(events, k, JammerOn) || KindAt(events, k, JammerOff)
  }

  // ---------- the two-pointer merge ----------

  datatype Marker = Marker(time: real, on: bool)

  /** The jammer markers among the operator events, in order. */
  function Markers(events: seq<Event>): (markers: seq<Marker>)
    ensures |markers| <= |events|
  {
    if events == [] then []
    else
      var event := events[|events| - 1];
      var before := Markers(events[..|events| - 1]);
      if event.kind == JammerOn then before + [Marker(event.epoch, true)]
      else if event.kind == JammerOff then before + [Marker(event.epoch, false)]
      else before
  }

  ghost predicate SortedMarkers(markers: seq<Marker>) {
    forall i, j :: 0 <= i < j < |markers| ==> markers[i].time <= markers[j].time
  }

  lemma {:induction false} MarkersUpTo(events: seq<Event>, t: real)
    requires forall k :: 0 <= k < |events| ==> events[k].epoch <= t
    ensures forall m :: 0 <= m < |Markers(events)| ==> Markers(events)[m].time <= t
  {
    if events != [] {
      MarkersUpTo(events[..|events| - 1], t);
    }
  }

  /** The markers of a log sorted by time are sorted, so the merges may be used on them. */
  lemma {:induction false} MarkersSorted(events: seq<Event>)
    requires SortedByTime(events)
    ensures SortedMarkers(Markers(events))
  {
    if events != [] {
      var before := events[..|events| - 1];
      MarkersSorted(before);
      MarkersUpTo(before, events[|events| - 1].epoch);
    }
  }

  ghost predicate IsLastUpTo(markers: seq<Marker>, t: real, k: nat) {
    k < |markers| && markers[k].time <= t && forall j :: k < j < |markers| ==> markers[j].time > t
  }

  /** What the markers say at time `t`: the state of the last marker at or before it. */
  function JammerAt(markers: seq<Marker>, t: real): (state: Option<bool>)
    ensures state == None <==> forall k :: 0 <= k < |markers| ==> markers[k].time > t
    ensures forall on :: state == Some(on) <==> exists k: nat :: IsLastUpTo(markers, t, k) && markers[k].on == on
  {
    if markers == [] then None
    else
      var last := |markers| - 1;
      if markers[last].time <= t then
        assert IsLastUpTo(markers, t, last);
        Some(markers[last].on)
      else
        var before := markers[..last];
        assert forall k: nat :: IsLastUpTo(markers, t, k) <==> IsLastUpTo(before, t, k);
        JammerAt(before, t)
  }

  /** The first `taken` markers are those up to time `t`, and `state` is what the last one set. */
  ghost predicate Merged(markers: seq<Marker>, taken: nat, state: Option<bool>, t: real) {
    && taken <= |markers|
    && (forall k :: 0 <= k < taken ==> markers[k].time <= t)
    && state == (if taken == 0 then None else Some(markers[taken - 1].on))
  }

  lemma MergedGivesState(markers: seq<Marker>, taken: nat, state: Option<bool>, t: real)
    requires SortedMarkers(markers) && Merged(markers, taken, state, t)
    requires taken < |markers| ==> markers[taken].time > t
    ensures state == JammerAt(markers, t)
  {
    forall k | taken <= k < |markers|
      ensures markers[k].time > t
    {
    }
    if taken > 0 {
      assert IsLastUpTo(markers, t, taken - 1);
    }
  }

  /** What the merges read of a spatial snapshot; missing or non-numeric fields are `None`. */
  datatype Snapshot = Snapshot(
    time: real,
    estimateAvailable: bool,
    suppression: Option<real>,
    powerBefore: Option<real>,
    powerAfter: Option<real>,
    totalPower: Option<real>,
    lcmvApplied: bool,
    healthyBaseline: Option<real>)

  ghost predicate SortedSnapshots(snapshots: seq<Snapshot>) {
    forall i, j :: 0 <= i < j < |snapshots| ==> snapshots[i].time <= snapshots[j].time
  }

  datatype Estimate = Estimate(suppression: real, before: real, after: real)

  /** The runtime estimate of a snapshot taken while the jammer is marked on. */
  function MarkedEstimate(jammer: Option<bool>, s: Snapshot): Option<Estimate> {
    if jammer == Some(true) && s.estimateAvailable
       && s.suppression.Some? && s.powerBefore.Some? && s.powerAfter.Some?
       && s.powerBefore.value > 0.0 && s.powerAfter.value >= 0.0
    then Some(Estimate(s.suppression.value, s.powerBefore.value, s.powerAfter.value))
    else None
  }

  datatype PowerList = BaselineOff | JammerOnLcmvOff | Excess

  datatype Power = Power(list: PowerList, value: real)

  /** The list the fall-back puts a snapshot's power on, if any, and the value it puts there. */
  function MarkedPower(jammer: Option<bool>, s: Snapshot): Option<Power> {
    if jammer == None || s.totalPower == None then None
    else if !jammer.value then (if s.lcmvApplied then None else Some(Power(BaselineOff, s.totalPower.value)))
    else if !s.lcmvApplied then Some(Power(JammerOnLcmvOff, s.totalPower.value))
    else if s.healthyBaseline.Some? && s.totalPower.value > s.healthyBaseline.value
    then Some(Power(Excess, s.totalPower.value - s.healthyBaseline.value))
    else None
  }

  /** The estimates of the first `n` snapshots, each read under the marker state of its own time. */
  function Estimates(markers: seq<Marker>, snapshots: seq<Snapshot>, n: nat): seq<Estimate>
    requires n <= |snapshots|
  {
    if n == 0 then []
    else
      var s := snapshots[n - 1];
      Estimates(markers, snapshots, n - 1) +
      match MarkedEstimate(JammerAt(markers, s.time), s)
      case Some(e) => [e]
      case None => []
  }

  /** The values on one of the lists after `n` snapshots, each under the state of its own time. */
  function OnList(list: PowerList, markers: seq<Marker>, snapshots: seq<Snapshot>, n: nat): seq<real>
    requires n <= |snapshots|
  {
    if n == 0 then []
    else
      var before := OnList(list, markers, snapshots, n - 1);
      var s := snapshots[n - 1];
      match MarkedPower(JammerAt(markers, s.time), s)
      case Some(power) => if power.list == list then before + [power.value] else before
      case None => before
  }

  lemma MergeStarts(markers: seq<Marker>, snapshots: seq<Snapshot>)
    ensures |snapshots| > 0 ==> Merged(markers, 0, None, snapshots[0].time)
  {
  }

  lemma MergeGoesOn(markers: seq<Marker>, taken: nat, state: Option<bool>, snapshots: seq<Snapshot>, n: nat)
    requires SortedSnapshots(snapshots) && n < |snapshots| && Merged(markers, taken, state, snapshots[n].time)
    ensures n + 1 < |snapshots| ==> Merged(markers, taken, state, snapshots[n + 1].time)
  {
  }

  /** The inner loop of both merges: take every marker up to time `t`. */
  method TakeMarkers(markers: seq<Marker>, index: nat, state: Option<bool>, t: real)
    returns (markerIndex: nat, jammerOn: Option<bool>)
    requires SortedMarkers(markers) && Merged(markers, index, state, t)
    ensures Merged(markers, markerIndex, jammerOn, t) && jammerOn == JammerAt(markers, t)
  {
    hide JammerAt, SortedMarkers;
    markerIndex, jammerOn := index, state;
    while markerIndex < |markers| && markers[markerIndex].time <= t
      invariant Merged(markers, markerIndex, jammerOn, t)
    {
      jammerOn := Some(markers[markerIndex].on);
      markerIndex := markerIndex + 1;
    }
    MergedGivesState(markers, markerIndex, jammerOn, t);
  }

  /** The first merge: runtime estimates inside the marked jammer windows. */
  method CollectEstimates(markers: seq<Marker>, snapshots: seq<Snapshot>) returns (estimates: seq<Estimate>)
    requires SortedMarkers(markers) && SortedSnapshots(snapshots)
    ensures estimates == Estimates(markers, snapshots, |snapshots|)
  {
    hide JammerAt, Merged, SortedMarkers, SortedSnapshots;
    estimates := [];
    var markerIndex: nat := 0;
    var jammerOn: Option<bool> := None;
    MergeStarts(markers, snapshots);
    for n := 0 to |snapshots|
      invariant n < |snapshots| ==> Merged(markers, markerIndex, jammerOn, snapshots[n].time)
      invariant estimates == Estimates(markers, snapshots, n)
    {
      var s := snapshots[n];
      markerIndex, jammerOn := TakeMarkers(markers, markerIndex, jammerOn, s.time);
      MergeGoesOn(markers, markerIndex, jammerOn, snapshots, n);
      if jammerOn == Some(true) && s.estimateAvailable {
        if s.suppression.Some? && s.powerBefore.Some? && s.powerAfter.Some?
           && s.powerBefore.value > 0.0 && s.powerAfter.value >= 0.0
        {
          estimates := estimates + [Estimate(s.suppression.value, s.powerBefore.value, s.powerAfter.value)];
        }
      }
    }
  }

  function Appended(list: PowerList, values: seq<real>, power: Option<Power>): seq<real> {
    if power.Some? && power.value.list == list then values + [power.value.value] else values
  }

  lemma OnListNext(list: PowerList, markers: seq<Marker>, snapshots: seq<Snapshot>, n: nat)
    requires n < |snapshots|
    ensures OnList(list, markers, snapshots, n + 1)
         == Appended(list, OnList(list, markers, snapshots, n),
                     MarkedPower(JammerAt(markers, snapshots[n].time), snapshots[n]))
  {
    hide JammerAt, MarkedPower;
  }

  lemma NothingOnList(list: PowerList, markers: seq<Marker>, snapshots: seq<Snapshot>)
    ensures OnList(list, markers, snapshots, 0) == []
  {
  }

  /** The branches of the second merge for one snapshot. */
  method AppendPower(jammerOn: Option<bool>, s: Snapshot, baselineOff: seq<real>, jammerOnLcmvOff: seq<real>,
                     excess: seq<real>)
    returns (baselineOff': seq<real>, jammerOnLcmvOff': seq<real>, excess': seq<real>)
    ensures baselineOff' == Appended(BaselineOff, baselineOff, MarkedPower(jammerOn, s))
    ensures jammerOnLcmvOff' == Appended(JammerOnLcmvOff, jammerOnLcmvOff, MarkedPower(jammerOn, s))
    ensures excess' == Appended(Excess, excess, MarkedPower(jammerOn, s))
  {
    baselineOff', jammerOnLcmvOff', excess' := baselineOff, jammerOnLcmvOff, excess;
    if jammerOn.Some? && s.totalPower.Some? {
      var total := s.totalPower.value;
      if !jammerOn.value && !s.lcmvApplied {
        baselineOff' := baselineOff + [total];
      } else if jammerOn.value && !s.lcmvApplied {
        jammerOnLcmvOff' := jammerOnLcmvOff + [total];
      } else if jammerOn.value && s.lcmvApplied {
        if s.healthyBaseline.Some? && total > s.healthyBaseline.value {
          excess' := excess + [total - s.healthyBaseline.value];
        }
      }
    }
  }

  /** The second merge: total powers sorted by marker state and applied method. */
  method CollectPowers(markers: seq<Marker>, snapshots: seq<Snapshot>)
    returns (baselineOff: seq<real>, jammerOnLcmvOff: seq<real>, excess: seq<real>)
    requires SortedMarkers(markers) && SortedSnapshots(snapshots)
    ensures baselineOff == OnList(BaselineOff, markers, snapshots, |snapshots|)
    ensures jammerOnLcmvOff == OnList(JammerOnLcmvOff, markers, snapshots, |snapshots|)
    ensures excess == OnList(Excess, markers, snapshots, |snapshots|)
  {
    hide JammerAt, Merged, SortedMarkers, SortedSnapshots, OnList, Appended, MarkedPower;
    baselineOff, jammerOnLcmvOff, excess := [], [], [];
    NothingOnList(BaselineOff, markers, snapshots);
    NothingOnList(JammerOnLcmvOff, markers, snapshots);
    NothingOnList(Excess, markers, snapshots);
    var markerIndex: nat := 0;
    var jammerOn: Option<bool> := None;
    MergeStarts(markers, snapshots);
    for n := 0 to |snapshots|
      invariant n < |snapshots| ==> Merged(markers, markerIndex, jammerOn, snapshots[n].time)
      invariant baselineOff == OnList(BaselineOff, markers, snapshots, n)
      invariant jammerOnLcmvOff == OnList(JammerOnLcmvOff, markers, snapshots, n)
      invariant excess == OnList(Excess, markers, snapshots, n)
    {
      var s := snapshots[n];
      markerIndex, jammerOn := TakeMarkers(markers, markerIndex, jammerOn, s.time);
      MergeGoesOn(markers, markerIndex, jammerOn, snapshots, n);
      OnListNext(BaselineOff, markers, snapshots, n);
      OnListNext(JammerOnLcmvOff, markers, snapshots, n);
      OnListNext(Excess, markers, snapshots, n);
      baselineOff, jammerOnLcmvOff, excess := AppendPower(jammerOn, s, baselineOff, jammerOnLcmvOff, excess);
    }
  }

  // ---------- what is on the lists ----------

  /** The last marker up to the time switches the jammer on, or off. */
  ghost predicate MarkedAs(markers: seq<Marker>, t: real, on: bool) {
    exists k: nat :: IsLastUpTo(markers, t, k) && markers[k].on == on
  }

  /** `positions` are, in order, those of the first `n` snapshots that are wanted. */
  ghost predicate Picks(wanted: Snapshot -> bool, snapshots: seq<Snapshot>, n: nat, positions: seq<nat>) {
    && n <= |snapshots|
    && (forall k :: 0 <= k < |positions| ==> positions[k] < n && wanted(snapshots[positions[k]]))
    && (forall k, l :: 0 <= k < l < |positions| ==> positions[k] < positions[l])
    && (forall m: nat :: m < n && wanted(snapshots[m]) ==> m in positions)
  }

  lemma PicksNext(wanted: Snapshot -> bool, snapshots: seq<Snapshot>, n: nat, positions: seq<nat>)
    requires Picks(wanted, snapshots, n, positions) && n < |snapshots|
    ensures wanted(snapshots[n]) ==> Picks(wanted, snapshots, n + 1, positions + [n])
    ensures !wanted(snapshots[n]) ==> Picks(wanted, snapshots, n + 1, positions)
  {
  }

  /** A snapshot under a jammer-on whose estimate is available and whole, with a power to compare. */
  ghost predicate HasEstimate(markers: seq<Marker>, s: Snapshot) {
    && MarkedAs(markers, s.time, true) && s.estimateAvailable
    && s.suppression.Some? && s.powerBefore.Some? && s.powerAfter.Some?
    && s.powerBefore.value > 0.0 && s.powerAfter.value >= 0.0
  }

  predicate IsEstimateOf(e: Estimate, s: Snapshot) {
    s.suppression == Some(e.suppression) && s.powerBefore == Some(e.before) && s.powerAfter == Some(e.after)
  }

  lemma EstimateRead(markers: seq<Marker>, s: Snapshot)
    ensures var e := MarkedEstimate(JammerAt(markers, s.time), s);
            if HasEstimate(markers, s) then e.Some? && IsEstimateOf(e.value, s) else e.None?
  {
    hide JammerAt;
    assert JammerAt(markers, s.time) == Some(true) <==> MarkedAs(markers, s.time, true);
    hide IsLastUpTo;
  }

  /** The estimates are those of exactly the snapshots that have one, in order. */
  lemma {:induction false} EstimatesAreOf(markers: seq<Marker>, snapshots: seq<Snapshot>, n: nat)
    returns (positions: seq<nat>)
    requires n <= |snapshots|
    ensures Picks(s => HasEstimate(markers, s), snapshots, n, positions)
    ensures |Estimates(markers, snapshots, n)| == |positions|
    ensures forall k :: 0 <= k < |positions| && positions[k] < n ==>
              IsEstimateOf(Estimates(markers, snapshots, n)[k], snapshots[positions[k]])
  {
    hide Picks, JammerAt, MarkedEstimate, HasEstimate, IsEstimateOf;
    if n == 0 {
      positions := [];
      PicksNothing(s => HasEstimate(markers, s), snapshots);
    } else {
      positions := EstimatesAreOf(markers, snapshots, n - 1);
      PicksNext(s => HasEstimate(markers, s), snapshots, n - 1, positions);
      PicksBelow(s => HasEstimate(markers, s), snapshots, n - 1, positions);
      EstimateRead(markers, snapshots[n - 1]);
      if HasEstimate(markers, snapshots[n - 1]) {
        positions := positions + [n - 1];
      }
    }
  }

  lemma PicksNothing(wanted: Snapshot -> bool, snapshots: seq<Snapshot>)
    ensures Picks(wanted, snapshots, 0, [])
  {
  }

  /** Total powers without the beamformer go on the list of their jammer state; with it, and the
      jammer on, what exceeds the healthy baseline does. */
  ghost predicate BelongsOn(list: PowerList, markers: seq<Marker>, s: Snapshot) {
    s.totalPower.Some? &&
    match list
    case BaselineOff => MarkedAs(markers, s.time, false) && !s.lcmvApplied
    case JammerOnLcmvOff => MarkedAs(markers, s.time, true) && !s.lcmvApplied
    case Excess =>
      && MarkedAs(markers, s.time, true) && s.lcmvApplied
      && s.healthyBaseline.Some? && s.totalPower.value > s.healthyBaseline.value
  }

  function ValueFor(list: PowerList, s: Snapshot): real {
    if s.totalPower.None? then 0.0
    else if list == Excess && s.healthyBaseline.Some? then s.totalPower.value - s.healthyBaseline.value
    else s.totalPower.value
  }

  lemma PowerRead(list: PowerList, markers: seq<Marker>, s: Snapshot, values: seq<real>)
    ensures Appended(list, values, MarkedPower(JammerAt(markers, s.time), s))
         == if BelongsOn(list, markers, s) then values + [ValueFor(list, s)] else values
  {
    hide JammerAt;
    assert JammerAt(markers, s.time) == Some(true) <==> MarkedAs(markers, s.time, true);
    assert JammerAt(markers, s.time) == Some(false) <==> MarkedAs(markers, s.time, false);
    hide MarkedAs;
  }

  /** Each list holds the powers of exactly the snapshots that belong on it, in order. */
  lemma {:induction false} ListsAreOf(list: PowerList, markers: seq<Marker>, snapshots: seq<Snapshot>, n: nat)
    returns (positions: seq<nat>)
    requires n <= |snapshots|
    ensures Picks(s => BelongsOn(list, markers, s), snapshots, n, positions)
    ensures |OnList(list, markers, snapshots, n)| == |positions|
    ensures forall k :: 0 <= k < |positions| && positions[k] < n ==>
              OnList(list, markers, snapshots, n)[k] == ValueFor(list, snapshots[positions[k]])
  {
    hide Picks, JammerAt, OnList, Appended, MarkedPower, BelongsOn, ValueFor;
    if n == 0 {
      positions := [];
      PicksNothing(s => BelongsOn(list, markers, s), snapshots);
      NothingOnList(list, markers, snapshots);
    } else {
      positions := ListsAreOf(list, markers, snapshots, n - 1);
      PicksNext(s => BelongsOn(list, markers, s), snapshots, n - 1, positions);
      PicksBelow(s => BelongsOn(list, markers, s), snapshots, n - 1, positions);
      OnListNext(list, markers, snapshots, n - 1);
      PowerRead(list, markers, snapshots[n - 1], OnList(list, markers, snapshots, n - 1));
      if BelongsOn(list, markers, snapshots[n - 1]) {
        positions := positions + [n - 1];
      }
    }
  }

  lemma PicksBelow(wanted: Snapshot -> bool, snapshots: seq<Snapshot>, n: nat, positions: seq<nat>)
    requires Picks(wanted, snapshots, n, positions)
    ensures forall k :: 0 <= k < |positions| ==> positions[k] < n
  {
  }

  // ---------- pairing into windows ----------

  datatype JammerWindow = JammerWindow(start: real, stop: real)

  /** The first jammer marker at position `i` or later, or the end of the log. */
  function NextSwitch(events: seq<Event>, i: nat): (j: nat)
    requires i <= |events|
    ensures i <= j <= |events|
    ensures j < |events| ==> IsSwitch(events, j)
    ensures forall k :: i <= k < j ==> !IsSwitch(events, k)
    decreases |events| - i
  {
    if i == |events| || events[i].kind == JammerOn || events[i].kind == JammerOff then i
    else NextSwitch(events, i + 1)
  }

  /** The positions of the jammer-on markers among the first `n` events, in order. */
  function JammerOns(events: seq<Event>, n: nat): (ons: seq<nat>)
    requires n <= |events|
    ensures forall w :: 0 <= w < |ons| ==> ons[w] < n && KindAt(events, ons[w], JammerOn)
    ensures forall w, v :: 0 <= w < v < |ons| ==> ons[w] < ons[v]
    ensures forall k: nat :: k < n && KindAt(events, k, JammerOn) ==> k in ons
  {
    if n == 0 then []
    else if events[n - 1].kind == JammerOn then JammerOns(events, n - 1) + [n - 1]
    else JammerOns(events, n - 1)
  }

  /** The window of the jammer-on at `i`: up to the next jammer marker, or to the end of evidence. */
  function WindowOf(events: seq<Event>, i: nat, evidenceEnd: real): JammerWindow
    requires i < |events|
  {
    var j := NextSwitch(events, i + 1);
    JammerWindow(events[i].epoch, if j < |events| then events[j].epoch else evidenceEnd)
  }

  ghost predicate ArePaired(windows: seq<JammerWindow>, events: seq<Event>, evidenceEnd: real) {
    var ons := JammerOns(events, |events|);
    |windows| == |ons| && forall w :: 0 <= w < |ons| ==> windows[w] == WindowOf(events, ons[w], evidenceEnd)
  }

  /** The windows closed so far: all but that of the jammer-on still open, if there is one. */
  ghost predicate PairedSoFar(windows: seq<JammerWindow>, open: Option<real>, events: seq<Event>, n: nat, end: real)
    requires n <= |events|
  {
    var ons := JammerOns(events, n);
    && |ons| == (if open.Some? then |windows| + 1 else |windows|)
    && (forall w :: 0 <= w < |windows| ==> windows[w] == WindowOf(events, ons[w], end))
    && (open.Some? ==> open.value == events[ons[|windows|]].epoch && NextSwitch(events, ons[|windows|] + 1) >= n)
  }

  /** The pairing loop of `summarize_jammer_windows`. */
  method PairWindows(events: seq<Event>, evidenceEnd: real) returns (windows: seq<JammerWindow>)
    ensures ArePaired(windows, events, evidenceEnd)
  {
    hide PairedSoFar, ArePaired;
    windows := [];
    var open: Option<real> := None;
    NothingOpen(events, evidenceEnd);
    for n := 0 to |events|
      invariant PairedSoFar(windows, open, events, n, evidenceEnd)
    {
      PairingGoesOn(windows, open, events, n, evidenceEnd);
      var event := events[n];
      if event.kind == JammerOn {
        if open.Some? {
          windows := windows + [JammerWindow(open.value, event.epoch)];
        }
        open := Some(event.epoch);
      } else if event.kind == JammerOff && open.Some? {
        windows := windows + [JammerWindow(open.value, event.epoch)];
        open := None;
      }
    }
    if open.Some? {
      LastWindow(windows, open, events, evidenceEnd);
      windows := windows + [JammerWindow(open.value, evidenceEnd)];
    } else {
      NoLastWindow(windows, events, evidenceEnd);
    }
  }

  lemma NothingOpen(events: seq<Event>, end: real)
    ensures PairedSoFar([], None, events, 0, end)
  {
  }

  ghost function ClosedAt(windows: seq<JammerWindow>, open: Option<real>, epoch: real): seq<JammerWindow> {
    if open.Some? then windows + [JammerWindow(open.value, epoch)] else windows
  }

  lemma PairingGoesOn(windows: seq<JammerWindow>, open: Option<real>, events: seq<Event>, n: nat, end: real)
    requires n < |events| && PairedSoFar(windows, open, events, n, end)
    ensures events[n].kind == JammerOn ==>
              PairedSoFar(ClosedAt(windows, open, events[n].epoch), Some(events[n].epoch), events, n + 1, end)
    ensures events[n].kind == JammerOff ==>
              PairedSoFar(ClosedAt(windows, open, events[n].epoch), None, events, n + 1, end)
    ensures events[n].kind != JammerOn && events[n].kind != JammerOff ==>
              PairedSoFar(windows, open, events, n + 1, end)
  {
    hide PairedSoFar, ClosedAt;
    if events[n].kind == JammerOn || events[n].kind == JammerOff {
      MarkerCloses(windows, open, events, n, end);
      if events[n].kind == JammerOn {
        MarkerOpens(ClosedAt(windows, open, events[n].epoch), events, n, end);
      } else {
        NoMarkerOpens(ClosedAt(windows, open, events[n].epoch), None, events, n, end);
      }
    } else {
      NoMarkerOpens(windows, open, events, n, end);
    }
  }

  /** A jammer marker gives the open window its end. */
  lemma MarkerCloses(windows: seq<JammerWindow>, open: Option<real>, events: seq<Event>, n: nat, end: real)
    requires n < |events| && PairedSoFar(windows, open, events, n, end) && IsSwitch(events, n)
    ensures PairedSoFar(ClosedAt(windows, open, events[n].epoch), None, events, n, end)
  {
    hide JammerOns, NextSwitch;
    if open.Some? {
      var i := JammerOns(events, n)[|windows|];
      assert NextSwitch(events, i + 1) == n;
      assert WindowOf(events, i, end) == JammerWindow(open.value, events[n].epoch);
    }
  }

  lemma MarkerOpens(windows: seq<JammerWindow>, events: seq<Event>, n: nat, end: real)
    requires n < |events| && PairedSoFar(windows, None, events, n, end) && events[n].kind == JammerOn
    ensures PairedSoFar(windows, Some(events[n].epoch), events, n + 1, end)
  {
    hide NextSwitch, WindowOf;
    assert JammerOns(events, n + 1) == JammerOns(events, n) + [n];
  }

  lemma NoMarkerOpens(windows: seq<JammerWindow>, open: Option<real>, events: seq<Event>, n: nat, end: real)
    requires n < |events| && PairedSoFar(windows, open, events, n, end) && events[n].kind != JammerOn
    requires open.Some? ==> events[n].kind != JammerOff
    ensures PairedSoFar(windows, open, events, n + 1, end)
  {
    hide NextSwitch, WindowOf;
    assert JammerOns(events, n + 1) == JammerOns(events, n);
    assert open.Some? ==> !IsSwitch(events, n);
  }

  lemma LastWindow(windows: seq<JammerWindow>, open: Option<real>, events: seq<Event>, end: real)
    requires PairedSoFar(windows, open, events, |events|, end) && open.Some?
    ensures ArePaired(windows + [JammerWindow(open.value, end)], events, end)
  {
  }

  lemma NoLastWindow(windows: seq<JammerWindow>, events: seq<Event>, end: real)
    requires PairedSoFar(windows, None, events, |events|, end)
    ensures ArePaired(windows, events, end)
  {
  }

  /** The end of evidence: the latest epoch of any record, 0 when there is none. */
  function Latest(epochs: seq<real>): (r: real)
    ensures forall k :: 0 <= k < |epochs| ==> epochs[k] <= r
    ensures if epochs == [] then r == 0.0 else r in epochs
  {
    if |epochs| == 0 then 0.0
    else if |epochs| == 1 then epochs[0]
    else
      var rest := Latest(epochs[1..]);
      if epochs[0] >= rest then epochs[0] else rest
  }

  function AllEpochs(events: seq<Event>, tracking: seq<real>, gnss: seq<real>): (epochs: seq<real>)
    ensures |epochs| == |events| + |tracking| + |gnss|
    ensures forall k :: 0 <= k < |events| ==> epochs[k] == events[k].epoch
    ensures epochs[|events|..] == tracking + gnss
  {
    seq(|events|, k requires 0 <= k < |events| => events[k].epoch) + tracking + gnss
  }

  /** No event, tracking record or navigation snapshot lies beyond it, and it is the epoch of one
      of them, or 0 when there is none. */
  function EvidenceEnd(events: seq<Event>, tracking: seq<real>, gnss: seq<real>): (r: real)
    ensures forall k :: 0 <= k < |events| ==> events[k].epoch <= r
    ensures forall k :: 0 <= k < |tracking| ==> tracking[k] <= r
    ensures forall k :: 0 <= k < |gnss| ==> gnss[k] <= r
    ensures if |events| + |tracking| + |gnss| == 0 then r == 0.0
            else (exists k :: 0 <= k < |events| && events[k].epoch == r) || r in tracking || r in gnss
  {
    hide Latest;
    var epochs := AllEpochs(events, tracking, gnss);
    EpochsSplit(events, tracking, gnss);
    Latest(epochs)
  }

  lemma EpochsSplit(events: seq<Event>, tracking: seq<real>, gnss: seq<real>)
    ensures var epochs := AllEpochs(events, tracking, gnss);
            && (forall k :: 0 <= k < |tracking| ==> epochs[|events| + k] == tracking[k])
            && (forall k :: 0 <= k < |gnss| ==> epochs[|events| + |tracking| + k] == gnss[k])
            && (forall r :: r in epochs <==>
                  (exists k :: 0 <= k < |events| && events[k].epoch == r) || r in tracking || r in gnss)
  {
  }

  // ---------- the two readings agree ----------

  ghost predicate Inside(windows: seq<JammerWindow>, t: real) {
    exists w :: 0 <= w < |windows| && windows[w].start <= t <= windows[w].stop
  }

  ghost predicate NoMarkerAt(events: seq<Event>, t: real) {
    forall k :: IsSwitch(events, k) ==> events[k].epoch != t
  }

  /** One window per jammer-on, each with that start; they are in order, do not run backwards and
      share at most their ends. */
  lemma WindowsInOrder(events: seq<Event>, evidenceEnd: real, windows: seq<JammerWindow>)
    requires SortedByTime(events) && ArePaired(windows, events, evidenceEnd)
    requires forall k :: 0 <= k < |events| ==> events[k].epoch <= evidenceEnd
    ensures forall w :: 0 <= w < |windows| ==> windows[w].start <= windows[w].stop <= evidenceEnd
    ensures forall w, v :: 0 <= w < v < |windows| ==> windows[w].stop <= windows[v].start
  {
    hide JammerOns, NextSwitch;
    var ons := JammerOns(events, |events|);
    forall w, v | 0 <= w < v < |windows|
      ensures windows[w].stop <= windows[v].start
    {
      assert IsSwitch(events, ons[v]);
      assert NextSwitch(events, ons[w] + 1) <= ons[v];
    }
  }

  ghost predicate IsLastSwitchUpTo(events: seq<Event>, t: real, k: nat) {
    && IsSwitch(events, k) && events[k].epoch <= t
    && forall j :: k < j < |events| && IsSwitch(events, j) ==> events[j].epoch > t
  }

  /** The merged state is on exactly when the last jammer marker up to then is a jammer-on. */
  lemma {:induction false} MarkersKeepState(events: seq<Event>, t: real)
    ensures JammerAt(Markers(events), t) == Some(true) <==>
            exists k: nat :: IsLastSwitchUpTo(events, t, k) && KindAt(events, k, JammerOn)
  {
    if events != [] {
      var n := |events| - 1;
      var before := events[..n];
      MarkersKeepState(before, t);
      MarkersLast(events, t);
      forall k: nat
        ensures IsLastSwitchUpTo(events, t, k) <==>
                (k == n && IsSwitch(events, n) && events[n].epoch <= t)
                || (IsLastSwitchUpTo(before, t, k) && !(IsSwitch(events, n) && events[n].epoch <= t))
      {
        LastSwitchSplit(events, t, k);
      }
    }
  }

  lemma MarkersLast(events: seq<Event>, t: real)
    requires events != []
    ensures var n := |events| - 1;
            JammerAt(Markers(events), t) ==
            if IsSwitch(events, n) && events[n].epoch <= t then Some(events[n].kind == JammerOn)
            else JammerAt(Markers(events[..n]), t)
  {
    var n := |events| - 1;
    var before := Markers(events[..n]);
    if IsSwitch(events, n) {
      assert Markers(events)[..|before|] == before;
    }
  }

  lemma LastSwitchSplit(events: seq<Event>, t: real, k: nat)
    requires events != []
    ensures var n := |events| - 1;
            IsLastSwitchUpTo(events, t, k) <==>
            (k == n && IsSwitch(events, n) && events[n].epoch <= t)
            || (IsLastSwitchUpTo(events[..n], t, k) && !(IsSwitch(events, n) && events[n].epoch <= t))
  {
    var n := |events| - 1;
    forall j | j < n
      ensures IsSwitch(events[..n], j) <==> IsSwitch(events, j)
    {
    }
  }

  /** Away from the markers themselves, a time is inside a window exactly when the merge says that
      the jammer is on, up to the end of evidence. */
  lemma ReadingsAgree(events: seq<Event>, evidenceEnd: real, windows: seq<JammerWindow>, t: real)
    requires SortedByTime(events) && ArePaired(windows, events, evidenceEnd)
    requires forall k :: 0 <= k < |events| ==> events[k].epoch <= evidenceEnd
    requires NoMarkerAt(events, t)
    ensures Inside(windows, t) <==> JammerAt(Markers(events), t) == Some(true) && t <= evidenceEnd
  {
    hide JammerAt, Markers, ArePaired, Inside, IsLastSwitchUpTo;
    MarkersKeepState(events, t);
    if Inside(windows, t) {
      var k := InsideMeansOn(events, evidenceEnd, windows, t);
    }
    if JammerAt(Markers(events), t) == Some(true) && t <= evidenceEnd {
      var k: nat :| IsLastSwitchUpTo(events, t, k) && KindAt(events, k, JammerOn);
      OnMeansInside(events, evidenceEnd, windows, k, t);
    }
  }

  lemma InsideMeansOn(events: seq<Event>, end: real, windows: seq<JammerWindow>, t: real) returns (k: nat)
    requires SortedByTime(events) && ArePaired(windows, events, end) && NoMarkerAt(events, t)
    requires forall i :: 0 <= i < |events| ==> events[i].epoch <= end
    requires Inside(windows, t)
    ensures IsLastSwitchUpTo(events, t, k) && KindAt(events, k, JammerOn) && t <= end
  {
    hide JammerOns, WindowOf, IsLastSwitchUpTo, SortedByTime, NoMarkerAt;
    var w :| 0 <= w < |windows| && windows[w].start <= t <= windows[w].stop;
    k := JammerOns(events, |events|)[w];
    WindowMeansOn(events, end, k, t);
  }

  lemma OnMeansInside(events: seq<Event>, end: real, windows: seq<JammerWindow>, k: nat, t: real)
    requires ArePaired(windows, events, end)
    requires IsLastSwitchUpTo(events, t, k) && KindAt(events, k, JammerOn) && t <= end
    ensures Inside(windows, t)
  {
    hide JammerOns, WindowOf, IsLastSwitchUpTo;
    OnMeansWindow(events, end, k, t);
    var ons := JammerOns(events, |events|);
    var w :| 0 <= w < |ons| && ons[w] == k;
    assert windows[w] == WindowOf(events, k, end);
  }

  lemma WindowMeansOn(events: seq<Event>, end: real, k: nat, t: real)
    requires SortedByTime(events) && NoMarkerAt(events, t) && KindAt(events, k, JammerOn)
    requires forall i :: 0 <= i < |events| ==> events[i].epoch <= end
    requires WindowOf(events, k, end).start <= t <= WindowOf(events, k, end).stop
    ensures IsLastSwitchUpTo(events, t, k) && t <= end
  {
    var next := NextSwitch(events, k + 1);
    forall j | k < j < |events| && IsSwitch(events, j)
      ensures events[j].epoch > t
    {
      assert next <= j && events[next].epoch != t;
    }
  }

  lemma OnMeansWindow(events: seq<Event>, end: real, k: nat, t: real)
    requires IsLastSwitchUpTo(events, t, k) && KindAt(events, k, JammerOn) && t <= end
    ensures WindowOf(events, k, end).start <= t <= WindowOf(events, k, end).stop
    ensures k in JammerOns(events, |events|)
  {
  }
}
