/** What the phase compensation bank keeps over whole runs of `advance` calls, for any
    calls at all: continuity of each satellite's response, the weight-norm bound, the
    exact shared null, the adoption streak and the recovery ramp. */
module PhaseRuns {
  import opened Wrappers
  import opened ComplexVectors
  import opened SpatialVectors
  import opened PhaseRows

  // ---------- runs ----------

  function Last<T>(s: seq<T>): T
    requires |s| > 0
  {
    s[|s| - 1]
  }

  function Front<T>(s: seq<T>): (r: seq<T>)
    requires |s| > 0
    ensures |r| == |s| - 1
  {
    s[..|s| - 1]
  }

  /** A call with a wrong weight length raises an error before it changes anything. */
  function GlobalsAfter(cfg: Config, calls: seq<Call>): Globals {
    if |calls| == 0 then INITIAL_GLOBALS
    else
      var g := GlobalsAfter(cfg, Front(calls));
      if Sized(cfg, Last(calls)) then GlobalsStep(g, Last(calls)) else g
  }

  /** The row of source `i` after the calls. */
  function SlotAfter(cfg: Config, i: nat, calls: seq<Call>): (r: Option<Row>)
    ensures r.Some? ==> Fits(cfg, r.value)
  {
    if |calls| == 0 then None
    else
      var slot := SlotAfter(cfg, i, Front(calls));
      if Sized(cfg, Last(calls)) then SlotStep(cfg, GlobalsAfter(cfg, Front(calls)), slot, i, Last(calls)) else slot
  }

  lemma OneMoreCall(cfg: Config, i: nat, calls: seq<Call>, call: Call)
    ensures GlobalsAfter(cfg, calls + [call])
         == if Sized(cfg, call) then GlobalsStep(GlobalsAfter(cfg, calls), call) else GlobalsAfter(cfg, calls)
    ensures SlotAfter(cfg, i, calls + [call])
         == if Sized(cfg, call) then SlotStep(cfg, GlobalsAfter(cfg, calls), SlotAfter(cfg, i, calls), i, call)
            else SlotAfter(cfg, i, calls)
  {
    hide SlotStep, Fits;
    assert Front(calls + [call]) == calls;
  }

  // ---------- continuity of one target ----------

  /** An accepted target is a multiple of the requested row with exactly the old response,
      and no longer than the limit. */
  lemma TargetKeepsResponse(cfg: Config, start: Vector, requested: Vector, desired: Vector)
    requires |start| == |requested| == |desired|
    ensures var c := ContinuousTarget(cfg, start, requested, desired);
            c.target.Some? ==>
              && c.target.value == Scale(c.scale, requested)
              && Vdot(c.target.value, desired) == Vdot(start, desired)
              && c.residual == Some(0.0)
              && Norm2(c.target.value) <= Square(cfg.maxWeightNorm)
    ensures ContinuousTarget(cfg, start, requested, desired).target.None?
       <==> || Abs2(Vdot(requested, desired)) <= ResponseFloor2(requested, desired)
            || Norm2(Scale(Conj(Div(Vdot(start, desired), Vdot(requested, desired))), requested))
                 > Square(cfg.maxWeightNorm)
  {
    hide Mul, Abs2, Times, Energy, Dot, Div;
    var before, raw := Vdot(start, desired), Vdot(requested, desired);
    if Abs2(raw) > ResponseFloor2(requested, desired) {
      var q := Div(before, raw);
      DotScaleLeft(Conj(q), requested, desired, |desired|);
      DivMul(before, raw);
      assert Conj(Conj(q)) == q;
      Abs2Zero(Sub(before, before));
    }
  }

  // ---------- interpolation ----------

  /** `current` is `start` and `target` interpolated at completed/total. */
  ghost predicate Interpolated(row: Row) {
    && |row.start| == |row.target| == |row.current|
    && row.completed <= row.total
    && row.current == if row.total == 0 then row.target
                      else Lerp(Progress(row.completed, row.total), row.start, row.target)
  }

  lemma MixEnds(z: Complex, w: Complex)
    ensures Add(Mul(FromReal(1.0), z), Mul(FromReal(0.0), w)) == z
    ensures Add(Mul(FromReal(0.0), z), Mul(FromReal(1.0), w)) == w
  {
  }

  lemma LerpEnds(s: Vector, t: Vector)
    requires |s| == |t|
    ensures Lerp(0.0, s, t) == s
    ensures Lerp(1.0, s, t) == t
  {
    hide Mul, Add, FromReal;
    forall k | 0 <= k < |s|
      ensures Lerp(0.0, s, t)[k] == s[k] && Lerp(1.0, s, t)[k] == t[k]
    {
      MixEnds(s[k], t[k]);
    }
  }

  lemma LerpSame(alpha: real, s: Vector)
    ensures Lerp(alpha, s, s) == s
  {
    hide Mul, Add, FromReal;
    forall k | 0 <= k < |s|
      ensures Lerp(alpha, s, s)[k] == s[k]
    {
      MixSame(alpha, s[k]);
    }
  }

  lemma MixSame(alpha: real, z: Complex)
    ensures Add(Mul(FromReal(1.0 - alpha), z), Mul(FromReal(alpha), z)) == z
  {
  }

  lemma ProgressEnds(total: nat)
    requires total > 0
    ensures Progress(0, total) == 0.0
    ensures Progress(total, total) == 1.0
  {
  }

  lemma StartInterpolated(cfg: Config, row: Row, requested: Vector, source: RowSource, immediate: bool)
    requires Fits(cfg, row) && |requested| == cfg.channels && Interpolated(row)
    ensures Interpolated(StartTransition(cfg, row, requested, source, immediate))
  {
    hide ContinuousTarget, Lerp;
    var r := StartTransition(cfg, row, requested, source, immediate);
    if r.total > 0 {
      ProgressEnds(r.total);
      LerpEnds(r.start, r.target);
    }
  }

  lemma StepInterpolated(cfg: Config, g: Globals, row: Row, call: Call)
    requires Fits(cfg, row) && Sized(cfg, call) && Interpolated(row)
    ensures Interpolated(RowStep(cfg, g, row, call))
  {
    hide StartTransition, AlignToReference, Lerp;
    var (u, adopted) := UpdateDesired(cfg, GlobalsStep(g, call).activation, row, call);
    StartInterpolated(cfg, u, call.protection, MeasuredU1, true);
    StartInterpolated(cfg, u, call.common, UniformAfterJammer, false);
    StartInterpolated(cfg, u, call.protection, MeasuredU1NewPrn, true);
  }

  /** Every reachable row is interpolated. */
  lemma {:induction false} ReachableInterpolated(cfg: Config, i: nat, calls: seq<Call>)
    ensures SlotAfter(cfg, i, calls).Some? ==> Interpolated(SlotAfter(cfg, i, calls).value)
  {
    hide RowStep, Lerp;
    if |calls| > 0 {
      ReachableInterpolated(cfg, i, Front(calls));
      var g, slot, call := GlobalsAfter(cfg, Front(calls)), SlotAfter(cfg, i, Front(calls)), Last(calls);
      if Sized(cfg, call) && ActiveSatellite(cfg, call, i).Some? {
        StepInterpolated(cfg, g, Seated(slot, ActiveSatellite(cfg, call, i).value, call.common), call);
      }
    }
  }

  // ---------- continuity over runs ----------

  /** The complex response of the row to its satellite. */
  function Response(row: Row): Complex
    requires row.desired.Some? && |row.desired.value| == |row.current|
  {
    Vdot(row.current, row.desired.value)
  }

  /** Both ends of the row's transition have the same response. */
  ghost predicate Anchored(cfg: Config, row: Row) {
    && Fits(cfg, row)
    && Interpolated(row)
    && row.desired.Some?
    && Vdot(row.start, row.desired.value) == Vdot(row.target, row.desired.value)
  }

  /** So every point of the transition has it. */
  lemma AnchoredResponse(cfg: Config, row: Row)
    requires Anchored(cfg, row)
    ensures Response(row) == Vdot(row.target, row.desired.value)
  {
    hide Mul, Dot, FromReal, Add;
    if row.total > 0 {
      var alpha := Progress(row.completed, row.total);
      DotLerpLeft(alpha, row.start, row.target, row.desired.value, cfg.channels);
      MixSame(alpha, Vdot(row.target, row.desired.value));
    }
  }

  predicate Accepts(cfg: Config, row: Row, requested: Vector)
    requires Fits(cfg, row) && |requested| == cfg.channels
  {
    row.desired.Some? && ContinuousTarget(cfg, row.current, requested, row.desired.value).target.Some?
  }

  /** Starting a transition never moves the response, and an accepted one anchors it. */
  lemma StartKeepsResponse(cfg: Config, row: Row, requested: Vector, source: RowSource, immediate: bool)
    requires Fits(cfg, row) && |requested| == cfg.channels && Interpolated(row) && row.desired.Some?
    ensures var r := StartTransition(cfg, row, requested, source, immediate);
            && r.desired == row.desired
            && Response(r) == Response(row)
            && (Accepts(cfg, row, requested) || Anchored(cfg, row) ==> Anchored(cfg, r))
  {
    hide ContinuousTarget, Dot, Lerp;
    StartInterpolated(cfg, row, requested, source, immediate);
    TargetKeepsResponse(cfg, row.current, requested, row.desired.value);
  }

  lemma AdvanceKeepsResponse(cfg: Config, row: Row)
    requires Anchored(cfg, row)
    ensures Anchored(cfg, AdvanceTransition(row))
    ensures Response(AdvanceTransition(row)) == Response(row)
  {
    hide Dot, Lerp;
    AnchoredResponse(cfg, row);
    AnchoredResponse(cfg, AdvanceTransition(row));
  }

  /** The row a call asks this source to move to, if it asks for one. */
  function Requested(g: Globals, row: Row, adopted: bool, call: Call): Option<Vector> {
    if call.enabled && ProtectionNeedsUpdate(g, row, call) then Some(call.protection)
    else if Falling(g, call) then Some(call.common)
    else if adopted then Some(call.protection)
    else None
  }

  /** The call starts a transition of this row, and the guards let it. */
  predicate AcceptedIn(cfg: Config, g: Globals, row: Row, call: Call)
    requires Fits(cfg, row) && Sized(cfg, call)
  {
    var (u, adopted) := UpdateDesired(cfg, GlobalsStep(g, call).activation, row, call);
    Requested(g, u, adopted, call).Some? && Accepts(cfg, u, Requested(g, u, adopted, call).value)
  }

  /** A call that accepts a transition anchors the row at the response it had before. */
  lemma AcceptedCallAnchors(cfg: Config, g: Globals, row: Row, call: Call)
    requires Fits(cfg, row) && Sized(cfg, call) && Interpolated(row)
    requires AcceptedIn(cfg, g, row, call)
    ensures var r := RowStep(cfg, g, row, call);
            Anchored(cfg, r) && Response(r) == Vdot(row.current, r.desired.value)
  {
    hide StartTransition, AlignToReference, Lerp, Dot, AdvanceTransition, ContinuousTarget;
    var (u, adopted) := UpdateDesired(cfg, GlobalsStep(g, call).activation, row, call);
    StartKeepsResponse(cfg, u, call.protection, MeasuredU1, true);
    StartKeepsResponse(cfg, u, call.common, UniformAfterJammer, false);
    StartKeepsResponse(cfg, u, call.protection, MeasuredU1NewPrn, true);
    var chosen := ChooseTransition(cfg, g, u, adopted, call);
    AdvanceKeepsResponse(cfg, chosen);
    AdvanceDesired(chosen);
  }

  lemma AdvanceDesired(row: Row)
    requires |row.start| == |row.target|
    ensures AdvanceTransition(row).desired == row.desired
    ensures AdvanceTransition(row).satellite == row.satellite
  {
  }

  /** A call that leaves the desired vector alone leaves an anchored response alone. */
  lemma StepKeepsResponse(cfg: Config, g: Globals, row: Row, call: Call)
    requires Sized(cfg, call) && Anchored(cfg, row)
    requires RowStep(cfg, g, row, call).desired == row.desired
    ensures Anchored(cfg, RowStep(cfg, g, row, call))
    ensures Response(RowStep(cfg, g, row, call)) == Response(row)
  {
    hide StartTransition, AlignToReference, Lerp, Dot, AdvanceTransition, ContinuousTarget;
    var (u, adopted) := UpdateDesired(cfg, GlobalsStep(g, call).activation, row, call);
    if u.desired.Some? {
      StartKeepsResponse(cfg, u, call.protection, MeasuredU1, true);
      StartKeepsResponse(cfg, u, call.common, UniformAfterJammer, false);
      StartKeepsResponse(cfg, u, call.protection, MeasuredU1NewPrn, true);
    }
    var chosen := ChooseTransition(cfg, g, u, adopted, call);
    AdvanceDesired(chosen);
    assert u.desired == row.desired;
    assert Anchored(cfg, u);
    AdvanceKeepsResponse(cfg, chosen);
  }

  /** From call `k` on, the row keeps its satellite and its desired vector. */
  ghost predicate SameDesired(cfg: Config, i: nat, calls: seq<Call>, k: nat) {
    && k <= |calls|
    && SlotAfter(cfg, i, calls[..k]).Some?
    && SlotAfter(cfg, i, calls).Some?
    && forall j :: k <= j <= |calls| ==>
         && SlotAfter(cfg, i, calls[..j]).Some?
         && SlotAfter(cfg, i, calls[..j]).value.satellite == SlotAfter(cfg, i, calls[..k]).value.satellite
         && SlotAfter(cfg, i, calls[..j]).value.desired == SlotAfter(cfg, i, calls[..k]).value.desired
  }

  /** Once a row's response is anchored it stays the same complex number for as long as
      the satellite and its desired vector do, through any protection updates, availability
      flips, guard refusals and partial transitions. */
  lemma {:induction false} ResponseHeld(cfg: Config, i: nat, calls: seq<Call>, k: nat)
    requires k <= |calls| && SameDesired(cfg, i, calls, k)
    requires Anchored(cfg, SlotAfter(cfg, i, calls[..k]).value)
    ensures Anchored(cfg, SlotAfter(cfg, i, calls).value)
    ensures Response(SlotAfter(cfg, i, calls).value) == Response(SlotAfter(cfg, i, calls[..k]).value)
    decreases |calls|
  {
    hide SlotAfter, Dot, Interpolated, SameDesired, Anchored, Response;
    assert calls[..|calls|] == calls;
    if k < |calls| {
      assert Front(calls)[..k] == calls[..k];
      SameDesiredPrior(cfg, i, calls, k);
      ResponseHeld(cfg, i, Front(calls), k);
      LastCallKeepsResponse(cfg, i, calls);
    }
  }

  lemma LastCallKeepsResponse(cfg: Config, i: nat, calls: seq<Call>)
    requires |calls| > 0
    requires SlotAfter(cfg, i, Front(calls)).Some? && SlotAfter(cfg, i, calls).Some?
    requires Anchored(cfg, SlotAfter(cfg, i, Front(calls)).value)
    requires SlotAfter(cfg, i, calls).value.satellite == SlotAfter(cfg, i, Front(calls)).value.satellite
    requires SlotAfter(cfg, i, calls).value.desired == SlotAfter(cfg, i, Front(calls)).value.desired
    ensures Anchored(cfg, SlotAfter(cfg, i, calls).value)
    ensures Response(SlotAfter(cfg, i, calls).value) == Response(SlotAfter(cfg, i, Front(calls)).value)
  {
    hide RowStep, Dot, Interpolated;
    var g, slot, call := GlobalsAfter(cfg, Front(calls)), SlotAfter(cfg, i, Front(calls)), Last(calls);
    if Sized(cfg, call) && ActiveSatellite(cfg, call, i).Some? {
      SeatKept(cfg, g, slot, i, call);
      StepKeepsResponse(cfg, g, slot.value, call);
    }
  }

  lemma SameDesiredPrior(cfg: Config, i: nat, calls: seq<Call>, k: nat)
    requires SameDesired(cfg, i, calls, k) && k < |calls|
    ensures SameDesired(cfg, i, Front(calls), k)
    ensures SlotAfter(cfg, i, Front(calls)).Some? && SlotAfter(cfg, i, calls).Some?
    ensures SlotAfter(cfg, i, calls).value.satellite == SlotAfter(cfg, i, Front(calls)).value.satellite
    ensures SlotAfter(cfg, i, calls).value.desired == SlotAfter(cfg, i, Front(calls)).value.desired
  {
    hide SlotAfter;
    var prior := Front(calls);
    assert calls[..|calls|] == calls;
    assert calls[..|calls| - 1] == prior;
    forall j | 0 <= j <= |prior|
      ensures prior[..j] == calls[..j]
    {
    }
  }

  lemma StepSatellite(cfg: Config, g: Globals, row: Row, call: Call)
    requires Fits(cfg, row) && Sized(cfg, call)
    ensures RowStep(cfg, g, row, call).satellite == row.satellite
  {
    hide AlignToReference, Lerp, ContinuousTarget, Dot;
  }

  lemma SeatKept(cfg: Config, g: Globals, slot: Option<Row>, i: nat, call: Call)
    requires Sized(cfg, call) && slot.Some? && Fits(cfg, slot.value)
    requires ActiveSatellite(cfg, call, i).Some?
    requires SlotStep(cfg, g, slot, i, call).value.satellite == slot.value.satellite
    ensures SlotStep(cfg, g, slot, i, call) == Some(RowStep(cfg, g, slot.value, call))
  {
    hide RowStep;
    StepSatellite(cfg, g, Seated(slot, ActiveSatellite(cfg, call, i).value, call.common), call);
  }

  /** The whole promise: the call that accepted a transition, and every later one until the
      desired vector or the satellite changes, gives the satellite the response it had in the
      row before that call. */
  lemma ContinuityFromOnset(cfg: Config, i: nat, calls: seq<Call>, k: nat)
    requires k < |calls| && Sized(cfg, calls[k])
    requires ActiveSatellite(cfg, calls[k], i).Some?
    requires SameDesired(cfg, i, calls, k + 1)
    requires var seat := Seated(SlotAfter(cfg, i, calls[..k]), ActiveSatellite(cfg, calls[k], i).value, calls[k].common);
             AcceptedIn(cfg, GlobalsAfter(cfg, calls[..k]), seat, calls[k])
    ensures var seat := Seated(SlotAfter(cfg, i, calls[..k]), ActiveSatellite(cfg, calls[k], i).value, calls[k].common);
            var row := SlotAfter(cfg, i, calls).value;
            && row.desired.Some? && |row.desired.value| == |row.current| == |seat.current|
            && Response(row) == Vdot(seat.current, row.desired.value)
  {
    hide RowStep, Dot, Interpolated, AcceptedIn;
    var prior, call := calls[..k], calls[k];
    assert Front(calls[..k + 1]) == prior && Last(calls[..k + 1]) == call;
    ReachableInterpolated(cfg, i, prior);
    var seat := Seated(SlotAfter(cfg, i, prior), ActiveSatellite(cfg, call, i).value, call.common);
    FreshInterpolated(seat.satellite, call.common);
    AcceptedCallAnchors(cfg, GlobalsAfter(cfg, prior), seat, call);
    ResponseHeld(cfg, i, calls, k + 1);
    assert calls[..|calls|] == calls;
  }

  lemma FreshInterpolated(satellite: int, common: Vector)
    ensures Interpolated(FreshRow(satellite, common))
  {
  }

  /** While protection is enabled a known desired vector never changes. */
  lemma DesiredFrozenWhileEnabled(cfg: Config, g: Globals, row: Row, call: Call)
    requires Fits(cfg, row) && Sized(cfg, call) && call.enabled && row.desired.Some?
    ensures RowStep(cfg, g, row, call).desired == row.desired
  {
    hide AlignToReference, Lerp, ContinuousTarget, Dot;
  }

  /** From call `k` on: protection enabled, and the source is on this satellite or unassigned. */
  predicate ProtectedFrom(cfg: Config, i: nat, calls: seq<Call>, k: nat, satellite: int) {
    && k <= |calls|
    && forall j :: k <= j < |calls| ==>
         calls[j].enabled && ActiveSatellite(cfg, calls[j], i) in [None, Some(satellite)]
  }

  /** So through a whole protected interval an anchored response is one complex number. */
  lemma {:induction false} ContinuityWhileProtected(cfg: Config, i: nat, calls: seq<Call>, k: nat)
    requires k <= |calls| && SlotAfter(cfg, i, calls[..k]).Some?
    requires var row := SlotAfter(cfg, i, calls[..k]).value;
             Anchored(cfg, row) && ProtectedFrom(cfg, i, calls, k, row.satellite)
    ensures SlotAfter(cfg, i, calls).Some?
    ensures var row, end := SlotAfter(cfg, i, calls[..k]).value, SlotAfter(cfg, i, calls).value;
            && end.satellite == row.satellite && end.desired == row.desired
            && Anchored(cfg, end) && Response(end) == Response(row)
    decreases |calls|
  {
    hide RowStep, Dot, Interpolated;
    assert calls[..|calls|] == calls;
    if k < |calls| {
      var prior, call := Front(calls), Last(calls);
      assert prior[..k] == calls[..k];
      assert forall j :: 0 <= j < |prior| ==> prior[j] == calls[j];
      ContinuityWhileProtected(cfg, i, prior, k);
      var g, slot := GlobalsAfter(cfg, prior), SlotAfter(cfg, i, prior);
      if Sized(cfg, call) && ActiveSatellite(cfg, call, i).Some? {
        DesiredFrozenWhileEnabled(cfg, g, slot.value, call);
        StepSatellite(cfg, g, slot.value, call);
        StepKeepsResponse(cfg, g, slot.value, call);
      }
    }
  }

  // ---------- the weight-norm bound ----------

  /** The squared norm no emitted row exceeds: the larger of the configured limit and the
      largest common-weight row supplied so far. */
  function NormCeiling(cfg: Config, calls: seq<Call>): real {
    if |calls| == 0 then Square(cfg.maxWeightNorm)
    else
      var prior := NormCeiling(cfg, Front(calls));
      if Sized(cfg, Last(calls)) then Max(prior, Norm2(Last(calls).common)) else prior
  }

  lemma {:induction false} NormCeilingAboveLimit(cfg: Config, calls: seq<Call>)
    ensures NormCeiling(cfg, calls) >= Square(cfg.maxWeightNorm)
  {
    if |calls| > 0 {
      NormCeilingAboveLimit(cfg, Front(calls));
    }
  }

  predicate Within(row: Row, bound: real) {
    Norm2(row.current) <= bound && Norm2(row.start) <= bound && Norm2(row.target) <= bound
  }

  lemma StartWithin(cfg: Config, row: Row, requested: Vector, source: RowSource, immediate: bool, bound: real)
    requires Fits(cfg, row) && |requested| == cfg.channels
    requires Within(row, bound) && Square(cfg.maxWeightNorm) <= bound
    ensures Within(StartTransition(cfg, row, requested, source, immediate), bound)
  {
    hide ContinuousTarget, Energy, Dot;
    if row.desired.Some? {
      TargetKeepsResponse(cfg, row.current, requested, row.desired.value);
    }
  }

  lemma StepWithin(cfg: Config, g: Globals, row: Row, call: Call, bound: real)
    requires Fits(cfg, row) && Sized(cfg, call) && Interpolated(row)
    requires Within(row, bound) && Square(cfg.maxWeightNorm) <= bound && Norm2(call.common) <= bound
    ensures Within(RowStep(cfg, g, row, call), bound)
  {
    hide StartTransition, AlignToReference, Lerp, Energy, UpdateDesired;
    var (u, adopted) := UpdateDesired(cfg, GlobalsStep(g, call).activation, row, call);
    UpdateKeepsWeights(cfg, GlobalsStep(g, call).activation, row, call);
    StartWithin(cfg, u, call.protection, MeasuredU1, true, bound);
    StartWithin(cfg, u, call.common, UniformAfterJammer, false, bound);
    StartWithin(cfg, u, call.protection, MeasuredU1NewPrn, true, bound);
    var chosen := ChooseTransition(cfg, g, u, adopted, call);
    if chosen.completed < chosen.total {
      ProgressInside(chosen.completed + 1, chosen.total);
      LerpNorm(Progress(chosen.completed + 1, chosen.total), chosen.start, chosen.target, bound);
    }
  }

  lemma UpdateKeepsWeights(cfg: Config, activation: Option<real>, row: Row, call: Call)
    requires Fits(cfg, row)
    ensures var u := UpdateDesired(cfg, activation, row, call).0;
            && u.current == row.current && u.start == row.start && u.target == row.target
            && u.total == row.total && u.completed == row.completed
            && u.source == row.source && u.satellite == row.satellite
  {
    hide AlignToReference;
  }

  lemma ProgressInside(completed: nat, total: nat)
    requires 0 < total && completed <= total
    ensures 0.0 <= Progress(completed, total) <= 1.0
  {
  }

  /** Every row of every run, and every row it emits, stays under the ceiling. */
  lemma {:induction false} EmittedNormBounded(cfg: Config, i: nat, calls: seq<Call>)
    ensures SlotAfter(cfg, i, calls).Some? ==> Within(SlotAfter(cfg, i, calls).value, NormCeiling(cfg, calls))
    ensures |calls| > 0 && Sized(cfg, Last(calls)) ==>
              Norm2(Emitted(cfg, GlobalsAfter(cfg, Front(calls)), SlotAfter(cfg, i, Front(calls)), i, Last(calls)))
                <= NormCeiling(cfg, calls)
  {
    hide RowStep, Energy;
    if |calls| > 0 {
      EmittedNormBounded(cfg, i, Front(calls));
      ReachableInterpolated(cfg, i, Front(calls));
      NormCeilingAboveLimit(cfg, Front(calls));
      var g, slot, call := GlobalsAfter(cfg, Front(calls)), SlotAfter(cfg, i, Front(calls)), Last(calls);
      if Sized(cfg, call) && ActiveSatellite(cfg, call, i).Some? {
        var seat := Seated(slot, ActiveSatellite(cfg, call, i).value, call.common);
        StepWithin(cfg, g, seat, call, NormCeiling(cfg, calls));
      }
    }
  }

  // ---------- the exact shared null ----------

  /** The number of the call whose request the present row accepted last. */
  function LastAccepted(cfg: Config, i: nat, calls: seq<Call>): (r: Option<nat>)
    ensures r.Some? ==> r.value < |calls| && Sized(cfg, calls[r.value])
  {
    if |calls| == 0 then None
    else
      var prior, call := Front(calls), Last(calls);
      var earlier := LastAccepted(cfg, i, prior);
      if !Sized(cfg, call) || ActiveSatellite(cfg, call, i).None? then earlier
      else
        var slot, satellite := SlotAfter(cfg, i, prior), ActiveSatellite(cfg, call, i).value;
        if AcceptedIn(cfg, GlobalsAfter(cfg, prior), Seated(slot, satellite, call.common), call) then Some(|prior|)
        else if slot.Some? && slot.value.satellite == satellite then earlier
        else None
  }

  /** A row on the measured-U1 bridge has finished its transition onto a multiple of `p`. */
  ghost predicate OnMultipleOf(row: Row, p: Vector) {
    && row.desired.Some?
    && row.completed == row.total == 1
    && row.current == row.target
    && exists c :: row.current == Scale(c, p)
  }

  lemma AcceptedOntoBridge(cfg: Config, row: Row, requested: Vector, source: RowSource)
    requires Fits(cfg, row) && |requested| == cfg.channels
    requires Accepts(cfg, row, requested)
    ensures OnMultipleOf(AdvanceTransition(StartTransition(cfg, row, requested, source, true)), requested)
  {
    hide ContinuousTarget, Dot, Lerp;
    TargetKeepsResponse(cfg, row.current, requested, row.desired.value);
    ProgressEnds(1);
    LerpEnds(row.current, ContinuousTarget(cfg, row.current, requested, row.desired.value).target.value);
  }

  /** A refused request leaves the weights, the transition and the source as they were. */
  lemma RefusalKeepsWeights(cfg: Config, row: Row, requested: Vector, source: RowSource, immediate: bool)
    requires Fits(cfg, row) && |requested| == cfg.channels
    requires !Accepts(cfg, row, requested)
    ensures var r := StartTransition(cfg, row, requested, source, immediate);
            && r.current == row.current && r.start == row.start && r.target == row.target
            && r.total == row.total && r.completed == row.completed
            && r.source == row.source && r.desired == row.desired
            && r.guard != NoGuard
  {
    hide Dot;
  }

  /** On the bridge, a call either accepts a request or leaves the row's weights alone. */
  lemma BridgeStep(cfg: Config, g: Globals, row: Row, call: Call, p: Vector)
    requires Fits(cfg, row) && Sized(cfg, call)
    requires row.source.OnBridge() ==> OnMultipleOf(row, p)
    ensures var r := RowStep(cfg, g, row, call);
            && (r.source.OnBridge() && AcceptedIn(cfg, g, row, call) ==> OnMultipleOf(r, call.protection))
            && (r.source.OnBridge() && !AcceptedIn(cfg, g, row, call) ==>
                  row.source.OnBridge() && OnMultipleOf(r, p) && r.current == row.current)
  {
    hide StartTransition, AlignToReference, Lerp, AdvanceTransition, Measurement, Accepts;
    var (u, adopted) := UpdateDesired(cfg, GlobalsStep(g, call).activation, row, call);
    var wanted := Requested(g, u, adopted, call);
    if wanted.Some? && Accepts(cfg, u, wanted.value) {
      assert u.desired.Some? by { assert AcceptedIn(cfg, g, row, call); AcceptsKnows(cfg, u, wanted.value); }
      AcceptedOntoBridge(cfg, u, wanted.value, MeasuredU1);
      AcceptedOntoBridge(cfg, u, wanted.value, MeasuredU1NewPrn);
      RampLeavesBridge(cfg, u, wanted.value);
    } else if wanted.Some? {
      RefusalKeepsWeights(cfg, u, wanted.value, MeasuredU1, true);
      RefusalKeepsWeights(cfg, u, wanted.value, MeasuredU1NewPrn, true);
      RefusalKeepsWeights(cfg, u, wanted.value, UniformAfterJammer, false);
      FinishedStays(ChooseTransition(cfg, g, u, adopted, call));
    } else {
      FinishedStays(ChooseTransition(cfg, g, u, adopted, call));
    }
  }

  lemma AcceptsKnows(cfg: Config, row: Row, requested: Vector)
    requires Fits(cfg, row) && |requested| == cfg.channels
    requires Accepts(cfg, row, requested)
    ensures row.desired.Some?
  {
  }

  lemma FinishedStays(row: Row)
    requires |row.start| == |row.target|
    ensures row.completed >= row.total ==> AdvanceTransition(row) == row
    ensures AdvanceTransition(row).source == row.source
  {
    hide Lerp;
  }

  lemma RampLeavesBridge(cfg: Config, row: Row, requested: Vector)
    requires Fits(cfg, row) && |requested| == cfg.channels
    requires Accepts(cfg, row, requested)
    ensures AdvanceTransition(StartTransition(cfg, row, requested, UniformAfterJammer, false)).source
         == UniformAfterJammer
  {
    hide Lerp, Dot;
  }

  /** In every run, a row on the bridge is a complex multiple of the protection vector it
      accepted last. */
  lemma {:induction false} BridgeIsMultiple(cfg: Config, i: nat, calls: seq<Call>)
    requires SlotAfter(cfg, i, calls).Some? && SlotAfter(cfg, i, calls).value.source.OnBridge()
    ensures LastAccepted(cfg, i, calls).Some?
    ensures OnMultipleOf(SlotAfter(cfg, i, calls).value, calls[LastAccepted(cfg, i, calls).value].protection)
  {
    hide RowStep, AcceptedIn, OnMultipleOf;
    if |calls| > 0 {
      var prior, call := Front(calls), Last(calls);
      var slot := SlotAfter(cfg, i, prior);
      if slot.Some? && slot.value.source.OnBridge() {
        BridgeIsMultiple(cfg, i, prior);
      }
      if Sized(cfg, call) && ActiveSatellite(cfg, call, i).Some? {
        var satellite := ActiveSatellite(cfg, call, i).value;
        var seat := Seated(slot, satellite, call.common);
        var p := if seat.source.OnBridge() then calls[LastAccepted(cfg, i, prior).value].protection else [];
        BridgeStep(cfg, GlobalsAfter(cfg, prior), seat, call, p);
      }
    }
  }

  /** Hence every direction that protection vector nulls is nulled exactly by the row. */
  lemma BridgeKeepsNulls(cfg: Config, i: nat, calls: seq<Call>, direction: Vector)
    requires SlotAfter(cfg, i, calls).Some? && SlotAfter(cfg, i, calls).value.source.OnBridge()
    requires LastAccepted(cfg, i, calls).Some? && |direction| == cfg.channels
    requires Vdot(calls[LastAccepted(cfg, i, calls).value].protection, direction) == ZERO
    ensures Vdot(SlotAfter(cfg, i, calls).value.current, direction) == ZERO
  {
    hide SlotAfter, LastAccepted, Dot, Mul;
    BridgeIsMultiple(cfg, i, calls);
    var p := calls[LastAccepted(cfg, i, calls).value].protection;
    var c :| SlotAfter(cfg, i, calls).value.current == Scale(c, p);
    DotScaleLeft(c, p, direction, cfg.channels);
    MulZero(Conj(c));
  }
}
