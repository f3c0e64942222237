/** What one more call does to a row, read from the calls themselves: which protection row was
    supplied last, whether protection was on before, when it last came on. Together the theorems
    cover every call: enabled with or without measured-U1 weights, the falling edge, and quiet. */
module PhaseDecisions {
  import opened Wrappers
  import opened ComplexVectors
  import opened SpatialVectors
  import opened PhaseRows
  import opened PhaseRuns

  // ---------- what the calls say ----------

  /** Call `k` is the last one that was not refused for its lengths. */
  ghost predicate IsLastSized(cfg: Config, calls: seq<Call>, k: nat) {
    k < |calls| && Sized(cfg, calls[k]) && forall j :: k < j < |calls| ==> !Sized(cfg, calls[j])
  }

  /** Call `k` is the last one that supplied a protection row. */
  ghost predicate IsLastSupplied(cfg: Config, calls: seq<Call>, k: nat) {
    && k < |calls| && Sized(cfg, calls[k]) && calls[k].available
    && forall j :: k < j < |calls| && Sized(cfg, calls[j]) ==> !calls[j].available
  }

  ghost predicate WasEnabled(cfg: Config, calls: seq<Call>) {
    exists k: nat :: IsLastSized(cfg, calls, k) && calls[k].enabled
  }

  /** Protection came on at call `k` and has stayed on. */
  ghost predicate IsOnset(cfg: Config, calls: seq<Call>, k: nat) {
    && k < |calls| && Sized(cfg, calls[k]) && !WasEnabled(cfg, calls[..k])
    && forall j :: k <= j < |calls| && Sized(cfg, calls[j]) ==> calls[j].enabled
  }

  ghost predicate SuppliedLast(cfg: Config, calls: seq<Call>, p: Vector) {
    exists k: nat :: IsLastSupplied(cfg, calls, k) && calls[k].protection == p
  }

  ghost predicate OnsetTime(cfg: Config, calls: seq<Call>, t: real) {
    exists k: nat :: IsOnset(cfg, calls, k) && calls[k].now == t
  }

  lemma LastSizedSplit(cfg: Config, calls: seq<Call>, call: Call, k: nat)
    ensures IsLastSized(cfg, calls + [call], k)
       <==> if Sized(cfg, call) then k == |calls| else IsLastSized(cfg, calls, k)
  {
    hide Sized;
    var longer := calls + [call];
    assert longer[|calls|] == call && forall j :: 0 <= j < |calls| ==> calls[j] == longer[j];
  }

  lemma SizedNext(cfg: Config, calls: seq<Call>, call: Call)
    ensures WasEnabled(cfg, calls + [call]) <==> if Sized(cfg, call) then call.enabled else WasEnabled(cfg, calls)
  {
    hide Sized;
    var longer := calls + [call];
    forall k: nat
      ensures IsLastSized(cfg, longer, k) <==> if Sized(cfg, call) then k == |calls| else IsLastSized(cfg, calls, k)
      ensures k < |calls| ==> longer[k] == calls[k]
    {
      LastSizedSplit(cfg, calls, call, k);
    }
    hide IsLastSized;
    assert Sized(cfg, call) ==> IsLastSized(cfg, longer, |calls|);
    if !Sized(cfg, call) && WasEnabled(cfg, calls) {
      var k: nat :| IsLastSized(cfg, calls, k) && calls[k].enabled;
      assert IsLastSized(cfg, longer, k);
    }
  }

  lemma LastSuppliedSplit(cfg: Config, calls: seq<Call>, call: Call, k: nat)
    ensures IsLastSupplied(cfg, calls + [call], k)
       <==> if Sized(cfg, call) && call.available then k == |calls| else IsLastSupplied(cfg, calls, k)
  {
    hide Sized;
    var longer := calls + [call];
    assert longer[|calls|] == call && forall j :: 0 <= j < |calls| ==> calls[j] == longer[j];
  }

  lemma SuppliedNext(cfg: Config, calls: seq<Call>, call: Call, p: Vector)
    ensures SuppliedLast(cfg, calls + [call], p)
       <==> if Sized(cfg, call) && call.available then call.protection == p else SuppliedLast(cfg, calls, p)
  {
    hide Sized;
    var longer := calls + [call];
    forall k: nat
      ensures IsLastSupplied(cfg, longer, k)
         <==> if Sized(cfg, call) && call.available then k == |calls| else IsLastSupplied(cfg, calls, k)
      ensures k < |calls| ==> longer[k] == calls[k]
    {
      LastSuppliedSplit(cfg, calls, call, k);
    }
    hide IsLastSupplied;
    assert Sized(cfg, call) && call.available ==> IsLastSupplied(cfg, longer, |calls|);
    if !(Sized(cfg, call) && call.available) && SuppliedLast(cfg, calls, p) {
      var k: nat :| IsLastSupplied(cfg, calls, k) && calls[k].protection == p;
      assert IsLastSupplied(cfg, longer, k);
    }
  }

  lemma OnsetNext(cfg: Config, calls: seq<Call>, call: Call, t: real)
    ensures OnsetTime(cfg, calls + [call], t)
       <==> if !Sized(cfg, call) then OnsetTime(cfg, calls, t)
            else call.enabled && if WasEnabled(cfg, calls) then OnsetTime(cfg, calls, t) else call.now == t
  {
    hide Sized, WasEnabled;
    var longer := calls + [call];
    forall k: nat
      ensures IsOnset(cfg, longer, k)
         <==> (k == |calls| && Sized(cfg, call) && call.enabled && !WasEnabled(cfg, calls))
              || (IsOnset(cfg, calls, k) && (Sized(cfg, call) ==> call.enabled))
    {
      OnsetSplit(cfg, calls, call, k);
    }
    if OnsetTime(cfg, calls, t) {
      var k: nat :| IsOnset(cfg, calls, k) && calls[k].now == t;
      OnsetMeansEnabled(cfg, calls, k);
      assert longer[k] == calls[k];
    }
    if OnsetTime(cfg, longer, t) {
      var k: nat :| IsOnset(cfg, longer, k) && longer[k].now == t;
      if k < |calls| {
        OnsetMeansEnabled(cfg, calls, k);
        assert longer[k] == calls[k];
      }
    }
    if Sized(cfg, call) && call.enabled && !WasEnabled(cfg, calls) {
      assert IsOnset(cfg, longer, |calls|) && longer[|calls|] == call;
    }
  }

  lemma OnsetSplit(cfg: Config, calls: seq<Call>, call: Call, k: nat)
    ensures IsOnset(cfg, calls + [call], k)
       <==> (k == |calls| && Sized(cfg, call) && call.enabled && !WasEnabled(cfg, calls))
            || (IsOnset(cfg, calls, k) && (Sized(cfg, call) ==> call.enabled))
  {
    hide Sized, WasEnabled;
    var longer := calls + [call];
    assert longer[|calls|] == call && forall j :: 0 <= j < |calls| ==> calls[j] == longer[j];
    if k <= |calls| {
      assert longer[..k] == calls[..k] && calls[..|calls|] == calls;
    }
    if k < |calls| && IsOnset(cfg, longer, k) {
      assert Sized(cfg, longer[|calls|]) ==> call.enabled;
    }
  }

  lemma {:induction false} OnsetMeansEnabled(cfg: Config, calls: seq<Call>, k: nat)
    requires IsOnset(cfg, calls, k)
    ensures WasEnabled(cfg, calls)
    decreases |calls|
  {
    hide Sized, WasEnabled;
    var prior, call := calls[..|calls| - 1], calls[|calls| - 1];
    assert calls == prior + [call];
    SizedNext(cfg, prior, call);
    OnsetSplit(cfg, prior, call, k);
    if !Sized(cfg, call) {
      OnsetMeansEnabled(cfg, prior, k);
    }
  }

  lemma OnsetTimeMeansEnabled(cfg: Config, calls: seq<Call>, t: real)
    requires OnsetTime(cfg, calls, t)
    ensures WasEnabled(cfg, calls)
  {
    hide WasEnabled;
    var k: nat :| IsOnset(cfg, calls, k) && calls[k].now == t;
    OnsetMeansEnabled(cfg, calls, k);
  }

  /** In every run the bank's memory is: whether the last call it took was enabled, the protection
      row supplied last, and the time of the call at which protection last came on, while it is on. */
  lemma {:induction false} MemoryIsOfCalls(cfg: Config, calls: seq<Call>)
    ensures var g := GlobalsAfter(cfg, calls);
            && (g.enabledPrevious <==> WasEnabled(cfg, calls))
            && (forall p :: g.lastProtection == Some(p) <==> SuppliedLast(cfg, calls, p))
            && (forall t :: g.activation == Some(t) <==> OnsetTime(cfg, calls, t))
  {
    hide Sized;
    if |calls| > 0 {
      var prior, call := calls[..|calls| - 1], calls[|calls| - 1];
      assert calls == prior + [call];
      MemoryIsOfCalls(cfg, prior);
      OneMoreCall(cfg, 0, prior, call);
      hide GlobalsAfter, WasEnabled, SuppliedLast, OnsetTime, SlotAfter;
      MemoryNext(cfg, prior, call, GlobalsAfter(cfg, prior));
    }
  }

  ghost predicate Remembers(cfg: Config, g: Globals, calls: seq<Call>) {
    && (g.enabledPrevious <==> WasEnabled(cfg, calls))
    && (forall p :: g.lastProtection == Some(p) <==> SuppliedLast(cfg, calls, p))
    && (forall t :: g.activation == Some(t) <==> OnsetTime(cfg, calls, t))
  }

  lemma MemoryNext(cfg: Config, calls: seq<Call>, call: Call, g: Globals)
    requires Remembers(cfg, g, calls)
    ensures Remembers(cfg, if Sized(cfg, call) then GlobalsStep(g, call) else g, calls + [call])
  {
    hide WasEnabled, SuppliedLast, OnsetTime, Sized;
    SizedNext(cfg, calls, call);
    var next := if Sized(cfg, call) then GlobalsStep(g, call) else g;
    forall p: Vector
      ensures next.lastProtection == Some(p) <==> SuppliedLast(cfg, calls + [call], p)
    {
      SuppliedNext(cfg, calls, call, p);
      assert g.lastProtection == Some(p) <==> SuppliedLast(cfg, calls, p);
    }
    forall t: real
      ensures next.activation == Some(t) <==> OnsetTime(cfg, calls + [call], t)
    {
      OnsetNext(cfg, calls, call, t);
      if OnsetTime(cfg, calls, t) {
        OnsetTimeMeansEnabled(cfg, calls, t);
      }
      assert g.activation == Some(t) <==> OnsetTime(cfg, calls, t);
    }
  }

  // ---------- the two guards ----------

  /** The requested row responds to the satellite at all, and its multiple that keeps the response
      of `start` is no longer than the limit. */
  ghost predicate Allowed(cfg: Config, start: Vector, requested: Vector, desired: Vector)
    requires |start| == |requested| == |desired|
  {
    var raw := Vdot(requested, desired);
    && Abs2(raw) > 0.0000000000000001
    && Abs2(raw) > 0.0000000000000001 * NormProduct(requested, desired)
    && Norm2(Scale(Conj(Div(Vdot(start, desired), raw)), requested)) <= Square(cfg.maxWeightNorm)
  }

  lemma AllowedIffAccepts(cfg: Config, row: Row, requested: Vector)
    requires Fits(cfg, row) && |requested| == cfg.channels && row.desired.Some?
    ensures Accepts(cfg, row, requested) <==> Allowed(cfg, row.current, requested, row.desired.value)
  {
    hide Dot, Energy, Mul, Abs2, Times, Div, Scale;
    TargetKeepsResponse(cfg, row.current, requested, row.desired.value);
    FloorIsLarger(requested, row.desired.value, Abs2(Vdot(requested, row.desired.value)));
    hide ContinuousTarget, ResponseFloor2;
  }

  lemma FloorIsLarger(requested: Vector, desired: Vector, x: real)
    ensures x > ResponseFloor2(requested, desired) <==>
              x > 0.0000000000000001 && x > 0.0000000000000001 * NormProduct(requested, desired)
  {
    hide NormProduct;
  }

  // ---------- one more call ----------

  /** The weights go on with the transition they were in: one chunk further, or as they stand. */
  ghost predicate GoesOn(before: Row, after: Row) {
    && after.source == before.source && after.start == before.start && after.target == before.target
    && after.total == before.total
    && after.completed == (if before.completed < before.total then before.completed + 1 else before.completed)
    && (before.completed >= before.total ==> after.current == before.current)
  }

  /** The row source `i` starts the call from, and its row after the call. */
  function SeatOf(cfg: Config, i: nat, calls: seq<Call>, call: Call): (r: Row)
    requires Sized(cfg, call) && ActiveSatellite(cfg, call, i).Some?
    ensures Fits(cfg, r)
  {
    Seated(SlotAfter(cfg, i, calls), ActiveSatellite(cfg, call, i).value, call.common)
  }

  function RowAfter(cfg: Config, i: nat, calls: seq<Call>, call: Call): (r: Row)
    requires Sized(cfg, call) && ActiveSatellite(cfg, call, i).Some?
    ensures Fits(cfg, r) && SlotAfter(cfg, i, calls + [call]) == Some(r)
  {
    hide RowStep;
    OneMoreCall(cfg, i, calls, call);
    SlotAfter(cfg, i, calls + [call]).value
  }

  lemma RowAfterIsStep(cfg: Config, i: nat, calls: seq<Call>, call: Call)
    requires Sized(cfg, call) && ActiveSatellite(cfg, call, i).Some?
    ensures RowAfter(cfg, i, calls, call) == RowStep(cfg, GlobalsAfter(cfg, calls), SeatOf(cfg, i, calls, call), call)
    ensures Interpolated(SeatOf(cfg, i, calls, call))
  {
    hide RowStep, Interpolated;
    OneMoreCall(cfg, i, calls, call);
    ReachableInterpolated(cfg, i, calls);
    FreshInterpolated(ActiveSatellite(cfg, call, i).value, call.common);
  }

  /** A refused start, or none, leaves the transition to go on. */
  lemma UnstartedGoesOn(cfg: Config, before: Row, chosen: Row)
    requires chosen.current == before.current && chosen.start == before.start && chosen.target == before.target
    requires chosen.total == before.total && chosen.completed == before.completed && chosen.source == before.source
    requires |chosen.start| == |chosen.target|
    ensures GoesOn(before, AdvanceTransition(chosen))
  {
    hide Lerp;
  }

  /** The row as the call finds its desired vector, ready for the choice of a transition. */
  lemma Updated(cfg: Config, g: Globals, row: Row, call: Call) returns (u: Row, adopted: bool)
    requires Fits(cfg, row) && Sized(cfg, call)
    ensures (u, adopted) == UpdateDesired(cfg, GlobalsStep(g, call).activation, row, call) && Fits(cfg, u)
    ensures u.current == row.current && u.start == row.start && u.target == row.target
    ensures u.total == row.total && u.completed == row.completed && u.source == row.source
    ensures Interpolated(row) ==> Interpolated(u)
    ensures u.desired == RowStep(cfg, g, row, call).desired
    ensures RowStep(cfg, g, row, call) == AdvanceTransition(ChooseTransition(cfg, g, u, adopted, call))
    ensures adopted <==> call.enabled && row.desired.None? && u.desired.Some?
  {
    hide AlignToReference, ContinuousTarget, Lerp, Measurement;
    u, adopted := UpdateDesired(cfg, GlobalsStep(g, call).activation, row, call).0,
    UpdateDesired(cfg, GlobalsStep(g, call).activation, row, call).1;
  }

  /** The row has, now and at both ends of its transition, the response that `before` had. */
  ghost predicate KeepsResponse(cfg: Config, before: Vector, row: Row)
    requires |before| == cfg.channels
  {
    Anchored(cfg, row) && Response(row) == Vdot(before, row.desired.value)
  }

  lemma StartedKeepsResponse(cfg: Config, row: Row, requested: Vector, source: RowSource, immediate: bool)
    requires Fits(cfg, row) && |requested| == cfg.channels && Interpolated(row)
    requires Accepts(cfg, row, requested)
    ensures KeepsResponse(cfg, row.current, AdvanceTransition(StartTransition(cfg, row, requested, source, immediate)))
  {
    AcceptsKnows(cfg, row, requested);
    StartKeepsResponse(cfg, row, requested, source, immediate);
    hide StartTransition, Accepts, Dot, Lerp;
    AdvanceKeepsResponse(cfg, StartTransition(cfg, row, requested, source, immediate));
    AdvanceDesired(StartTransition(cfg, row, requested, source, immediate));
  }

  lemma BridgeStarts(cfg: Config, row: Row, requested: Vector, source: RowSource)
    requires Fits(cfg, row) && |requested| == cfg.channels && row.desired.Some? && Interpolated(row)
    ensures var r := AdvanceTransition(StartTransition(cfg, row, requested, source, true));
            if Allowed(cfg, row.current, requested, row.desired.value) then
              OnMultipleOf(r, requested) && r.source == source && KeepsResponse(cfg, row.current, r)
            else GoesOn(row, r)
  {
    AllowedIffAccepts(cfg, row, requested);
    hide Allowed, Accepts, OnMultipleOf;
    if Accepts(cfg, row, requested) {
      StartedKeepsResponse(cfg, row, requested, source, true);
      AcceptedOntoBridge(cfg, row, requested, source);
      AcceptedSource(cfg, row, requested, source, true);
    } else {
      RefusalKeepsWeights(cfg, row, requested, source, true);
      hide StartTransition;
      UnstartedGoesOn(cfg, row, StartTransition(cfg, row, requested, source, true));
    }
  }

  lemma AcceptedSource(cfg: Config, row: Row, requested: Vector, source: RowSource, immediate: bool)
    requires Fits(cfg, row) && |requested| == cfg.channels && Accepts(cfg, row, requested)
    ensures AdvanceTransition(StartTransition(cfg, row, requested, source, immediate)).source == source
  {
    hide ContinuousTarget, Lerp;
  }

  /** A protection row that is new, or new to this row, is taken at once: with protection on, the
      desired vector known and both guards open, a row that is not on the bridge, or meets another
      protection row than the one supplied last, is a multiple of the supplied row after the call.
      Where a guard refuses, the weights go on; and on the bridge, with the row supplied last
      supplied again, they stay. */
  lemma ProtectionReachesRow(cfg: Config, i: nat, calls: seq<Call>, call: Call)
    requires Sized(cfg, call) && call.enabled && call.available && ActiveSatellite(cfg, call, i).Some?
    requires RowAfter(cfg, i, calls, call).desired.Some?
    ensures var seat, row := SeatOf(cfg, i, calls, call), RowAfter(cfg, i, calls, call);
            if seat.source in {MeasuredU1, MeasuredU1NewPrn} && SuppliedLast(cfg, calls, call.protection) then
              GoesOn(seat, row) && row.current == seat.current
            else if Allowed(cfg, seat.current, call.protection, row.desired.value) then
              OnMultipleOf(row, call.protection) && row.source == MeasuredU1 && KeepsResponse(cfg, seat.current, row)
            else GoesOn(seat, row)
  {
    var g, seat := GlobalsAfter(cfg, calls), SeatOf(cfg, i, calls, call);
    RowAfterIsStep(cfg, i, calls, call);
    MemoryIsOfCalls(cfg, calls);
    assert g.lastProtection == Some(call.protection) <==> SuppliedLast(cfg, calls, call.protection);
    hide RowAfter, SlotAfter, GlobalsAfter, SuppliedLast, UpdateDesired, StartTransition, AdvanceTransition, Allowed,
      Interpolated, KeepsResponse;
    var u, adopted := Updated(cfg, g, seat, call);
    BridgeStarts(cfg, u, call.protection, MeasuredU1);
    hide RowStep, GoesOn, OnMultipleOf;
    if seat.source in {MeasuredU1, MeasuredU1NewPrn} && SuppliedLast(cfg, calls, call.protection) {
      BridgedIsComplete(cfg, i, calls, call);
      UnstartedGoesOn(cfg, seat, ChooseTransition(cfg, g, u, adopted, call));
      CompleteStays(seat, AdvanceTransition(ChooseTransition(cfg, g, u, adopted, call)));
    } else {
      SameBefore(seat, u, RowAfter(cfg, i, calls, call));
    }
  }

  lemma CompleteStays(before: Row, after: Row)
    requires GoesOn(before, after) && before.completed >= before.total
    ensures after.current == before.current
  {
  }

  lemma SameBefore(before: Row, updated: Row, after: Row)
    requires updated.current == before.current && updated.start == before.start && updated.target == before.target
    requires updated.total == before.total && updated.completed == before.completed && updated.source == before.source
    ensures GoesOn(updated, after) <==> GoesOn(before, after)
  {
  }

  /** So the satellite is heard as before the protection row was taken, for as long as the row keeps
      its satellite and desired vector, through any later calls. */
  lemma ContinuityThroughProtection(cfg: Config, i: nat, calls: seq<Call>, k: nat)
    requires k < |calls| && Sized(cfg, calls[k]) && calls[k].enabled && calls[k].available
    requires ActiveSatellite(cfg, calls[k], i).Some? && SameDesired(cfg, i, calls, k + 1)
    requires var seat, row := SeatOf(cfg, i, calls[..k], calls[k]), RowAfter(cfg, i, calls[..k], calls[k]);
             && row.desired.Some?
             && !(seat.source in {MeasuredU1, MeasuredU1NewPrn} && SuppliedLast(cfg, calls[..k], calls[k].protection))
             && Allowed(cfg, seat.current, calls[k].protection, row.desired.value)
    ensures var seat, row := SeatOf(cfg, i, calls[..k], calls[k]), SlotAfter(cfg, i, calls).value;
            && row.desired.Some? && |row.desired.value| == |row.current| == |seat.current|
            && Response(row) == Vdot(seat.current, row.desired.value)
  {
    hide SlotAfter, GlobalsAfter, Dot, Interpolated, Allowed, SuppliedLast, OnMultipleOf, GoesOn, Sized, Seated;
    var prior, call := calls[..k], calls[k];
    assert calls[..k + 1] == prior + [call] && calls[..|calls|] == calls;
    ProtectionReachesRow(cfg, i, prior, call);
    KeptResponse(cfg, SeatOf(cfg, i, prior, call).current, RowAfter(cfg, i, prior, call));
    hide SeatOf, RowAfter, KeepsResponse, Response, Anchored, SameDesired;
    ResponseHeld(cfg, i, calls, k + 1);
    AnchoredKnows(cfg, SlotAfter(cfg, i, calls).value);
  }

  lemma KeptResponse(cfg: Config, before: Vector, row: Row)
    requires |before| == cfg.channels && KeepsResponse(cfg, before, row)
    ensures Anchored(cfg, row) && Response(row) == Vdot(before, row.desired.value)
  {
  }

  lemma AnchoredKnows(cfg: Config, row: Row)
    requires Anchored(cfg, row)
    ensures row.desired.Some? && |row.desired.value| == |row.current| == cfg.channels
    ensures Response(row) == Vdot(row.current, row.desired.value)
  {
  }

  /** On the bridge a transition is complete, the desired vector known. */
  lemma BridgedIsComplete(cfg: Config, i: nat, calls: seq<Call>, call: Call)
    requires Sized(cfg, call) && ActiveSatellite(cfg, call, i).Some?
    requires SeatOf(cfg, i, calls, call).source.OnBridge()
    ensures SeatOf(cfg, i, calls, call).completed >= SeatOf(cfg, i, calls, call).total
    ensures SeatOf(cfg, i, calls, call).desired.Some?
  {
    hide LastAccepted;
    BridgeIsMultiple(cfg, i, calls);
  }

  /** With protection on and no measured-U1 weights available only a desired vector adopted in this
      very call starts a transition, onto the protection row given all the same. */
  lemma UnavailableStartsOnlyAdopted(cfg: Config, i: nat, calls: seq<Call>, call: Call)
    requires Sized(cfg, call) && call.enabled && !call.available && ActiveSatellite(cfg, call, i).Some?
    ensures var seat, row := SeatOf(cfg, i, calls, call), RowAfter(cfg, i, calls, call);
            if seat.desired.None? && row.desired.Some?
               && Allowed(cfg, seat.current, call.protection, row.desired.value) then
              OnMultipleOf(row, call.protection) && row.source == MeasuredU1NewPrn
              && KeepsResponse(cfg, seat.current, row)
            else GoesOn(seat, row)
  {
    var g, seat := GlobalsAfter(cfg, calls), SeatOf(cfg, i, calls, call);
    RowAfterIsStep(cfg, i, calls, call);
    hide RowAfter, SlotAfter, GlobalsAfter, UpdateDesired, StartTransition, AdvanceTransition, Allowed, Interpolated,
      KeepsResponse;
    var u, adopted := Updated(cfg, g, seat, call);
    if adopted {
      BridgeStarts(cfg, u, call.protection, MeasuredU1NewPrn);
    }
    hide RowStep, GoesOn, OnMultipleOf;
    SameBefore(seat, u, RowAfter(cfg, i, calls, call));
    if !adopted {
      UnstartedGoesOn(cfg, u, ChooseTransition(cfg, g, u, adopted, call));
    }
  }

  lemma RampStarts(cfg: Config, row: Row, requested: Vector)
    requires Fits(cfg, row) && |requested| == cfg.channels && row.desired.Some? && Interpolated(row)
    ensures var r := AdvanceTransition(StartTransition(cfg, row, requested, UniformAfterJammer, false));
            if Allowed(cfg, row.current, requested, row.desired.value) then
              IsRamp(cfg, row.current, requested, r) && KeepsResponse(cfg, row.current, r)
            else GoesOn(row, r)
  {
    AllowedIffAccepts(cfg, row, requested);
    hide Allowed, Lerp, Dot, KeepsResponse;
    if Accepts(cfg, row, requested) {
      StartedKeepsResponse(cfg, row, requested, UniformAfterJammer, false);
      TargetKeepsResponse(cfg, row.current, requested, row.desired.value);
      var c := ContinuousTarget(cfg, row.current, requested, row.desired.value);
      assert c.target.value == Scale(c.scale, requested);
    } else {
      RefusalKeepsWeights(cfg, row, requested, UniformAfterJammer, false);
      hide StartTransition;
      UnstartedGoesOn(cfg, row, StartTransition(cfg, row, requested, UniformAfterJammer, false));
    }
  }

  /** The row has done the first chunk of a ramp from `start` onto a multiple of `requested`. */
  ghost predicate IsRamp(cfg: Config, start: Vector, requested: Vector, row: Row) {
    && row.source == UniformAfterJammer && row.start == start
    && row.total == cfg.transitionChunks && row.completed == (if row.total == 0 then 0 else 1)
    && (row.total == 0 ==> row.current == row.target)
    && exists c :: row.target == Scale(c, requested)
  }

  /** At the first call after protection goes off, a row whose desired vector is known starts its
      ramp onto the uniform row of this call, unless a guard refuses; any other goes on. */
  lemma FallingCallStartsRamp(cfg: Config, i: nat, calls: seq<Call>, call: Call)
    requires Sized(cfg, call) && !call.enabled && WasEnabled(cfg, calls) && ActiveSatellite(cfg, call, i).Some?
    ensures var seat, row := SeatOf(cfg, i, calls, call), RowAfter(cfg, i, calls, call);
            if row.desired.Some? && Allowed(cfg, seat.current, call.common, row.desired.value) then
              IsRamp(cfg, seat.current, call.common, row) && KeepsResponse(cfg, seat.current, row)
            else GoesOn(seat, row)
  {
    var g, seat := GlobalsAfter(cfg, calls), SeatOf(cfg, i, calls, call);
    RowAfterIsStep(cfg, i, calls, call);
    MemoryIsOfCalls(cfg, calls);
    hide RowAfter, SlotAfter, GlobalsAfter, WasEnabled, UpdateDesired, AdvanceTransition, Allowed, Interpolated,
      KeepsResponse;
    var u, adopted := Updated(cfg, g, seat, call);
    if u.desired.Some? {
      RampStarts(cfg, u, call.common);
    }
    hide RowStep, GoesOn, IsRamp;
    SameBefore(seat, u, RowAfter(cfg, i, calls, call));
    if u.desired.None? {
      UnstartedGoesOn(cfg, u, ChooseTransition(cfg, g, u, adopted, call));
    }
  }

  /** While protection stays off, a row whose desired vector is unknown is exactly the uniform row
      of the call; any other goes on. */
  lemma QuietCallHoldsCommon(cfg: Config, i: nat, calls: seq<Call>, call: Call)
    requires Sized(cfg, call) && !call.enabled && !WasEnabled(cfg, calls) && ActiveSatellite(cfg, call, i).Some?
    ensures var seat, row := SeatOf(cfg, i, calls, call), RowAfter(cfg, i, calls, call);
            if row.desired.None? then
              && row.current == row.start == row.target == call.common && row.total == row.completed == 0
              && row.source == WaitingForVector
            else GoesOn(seat, row)
  {
    var g, seat := GlobalsAfter(cfg, calls), SeatOf(cfg, i, calls, call);
    RowAfterIsStep(cfg, i, calls, call);
    MemoryIsOfCalls(cfg, calls);
    hide RowAfter, SlotAfter, GlobalsAfter, WasEnabled, UpdateDesired, StartTransition, Lerp;
    var u, adopted := Updated(cfg, g, seat, call);
    if u.desired.Some? {
      UnstartedGoesOn(cfg, seat, ChooseTransition(cfg, g, u, adopted, call));
    }
  }

  // ---------- satellites ----------

  /** With fixed satellites source `i` has the `i`-th; otherwise the one the call names for it. */
  ghost predicate Tracks(cfg: Config, call: Call, i: nat, satellite: int) {
    if cfg.fixedSatellites == [] then i < |call.sources| && call.sources[i] == Some(satellite)
    else i < |cfg.fixedSatellites| && cfg.fixedSatellites[i] == satellite
  }

  /** A call gives a source the row of the satellite it names for it, and emits that row; a source
      it names none for keeps its row and emits the uniform row of the call. */
  lemma RowIsOfNamedSatellite(cfg: Config, i: nat, calls: seq<Call>, call: Call)
    requires Sized(cfg, call)
    ensures var slot, after := SlotAfter(cfg, i, calls), SlotAfter(cfg, i, calls + [call]);
            var emitted := Emitted(cfg, GlobalsAfter(cfg, calls), slot, i, call);
            && (forall satellite :: Tracks(cfg, call, i, satellite) ==>
                  after.Some? && after.value.satellite == satellite && emitted == after.value.current)
            && ((forall satellite :: !Tracks(cfg, call, i, satellite)) ==> after == slot && emitted == call.common)
  {
    hide RowStep;
    OneMoreCall(cfg, i, calls, call);
    if ActiveSatellite(cfg, call, i).Some? {
      var satellite := ActiveSatellite(cfg, call, i).value;
      StepSatellite(cfg, GlobalsAfter(cfg, calls), SeatOf(cfg, i, calls, call), call);
      assert Tracks(cfg, call, i, satellite);
    }
  }

  /** A row for a satellite the source did not have before starts over: as long as the call brings
      it no desired vector it is exactly the uniform row, whatever is on or available. */
  lemma NewSatelliteStartsOver(cfg: Config, i: nat, calls: seq<Call>, call: Call)
    requires Sized(cfg, call) && ActiveSatellite(cfg, call, i).Some?
    requires SlotAfter(cfg, i, calls).Some? ==>
               SlotAfter(cfg, i, calls).value.satellite != ActiveSatellite(cfg, call, i).value
    requires RowAfter(cfg, i, calls, call).desired.None?
    ensures RowAfter(cfg, i, calls, call).current == call.common
    ensures !RowAfter(cfg, i, calls, call).source.OnBridge()
  {
    var g, seat := GlobalsAfter(cfg, calls), SeatOf(cfg, i, calls, call);
    RowAfterIsStep(cfg, i, calls, call);
    hide RowAfter, SlotAfter, GlobalsAfter, UpdateDesired, Lerp;
    var u, adopted := Updated(cfg, g, seat, call);
  }
}
