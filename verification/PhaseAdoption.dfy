/** The two timed parts of the phase compensation bank, over whole runs: adopting a
    desired vector measured after jammer onset, and the ramp back to uniform weights
    after the jammer has gone. */
module PhaseAdoption {
  import opened Wrappers
  import opened ComplexVectors
  import opened SpatialVectors
  import opened PhaseRows
  import opened PhaseRuns
  import opened PhaseDecisions

  // ---------- the post-onset streak ----------

  /** A measurement the streak counted: the unit vector as measured, before alignment. */
  datatype Counted = Counted(vector: Vector, counter: int, updated: real, activation: real)

  /** All measurements the present row has counted, oldest first. A fresh row starts a new
      history, and so does a desired vector learned while protection is off. */
  function History(cfg: Config, i: nat, calls: seq<Call>): (r: seq<Counted>)
    ensures forall k :: 0 <= k < |r| ==> |r[k].vector| == cfg.channels
  {
    if |calls| == 0 then []
    else
      var prior, call := Front(calls), Last(calls);
      if !Sized(cfg, call) || ActiveSatellite(cfg, call, i).None? then History(cfg, i, prior)
      else
        var slot, satellite := SlotAfter(cfg, i, prior), ActiveSatellite(cfg, call, i).value;
        var kept := if slot.Some? && slot.value.satellite == satellite then History(cfg, i, prior) else [];
        HistoryStep(cfg, GlobalsAfter(cfg, prior), Seated(slot, satellite, call.common), kept, call)
  }

  function HistoryStep(cfg: Config, g: Globals, seat: Row, kept: seq<Counted>, call: Call): (r: seq<Counted>)
    requires forall k :: 0 <= k < |kept| ==> |kept[k].vector| == cfg.channels
    ensures forall k :: 0 <= k < |r| ==> |r[k].vector| == cfg.channels
  {
    var activation, payload := GlobalsStep(g, call).activation, PayloadOf(call, seat.satellite);
    var measured := Measurement(cfg, call, seat.satellite);
    if !call.enabled && measured.Some? then []
    else if Considered(cfg, activation, seat, call) then
      kept + [Counted(measured.value, payload.counter.value, payload.updated.value, activation.value)]
    else kept
  }

  /** The length of the longest suffix whose consecutive steps are all within the limit. */
  function Streak(cfg: Config, h: seq<Counted>): (n: nat)
    requires forall k :: 0 <= k < |h| ==> |h[k].vector| == cfg.channels
    ensures n <= |h|
    ensures |h| > 0 ==> n > 0
  {
    if |h| <= 1 then |h|
    else if StepWithinLimit(cfg, h[|h| - 2].vector, h[|h| - 1].vector) then Streak(cfg, Front(h)) + 1
    else 1
  }

  /** The angle between two consecutive measurements, in degrees. */
  function StepAngle(cfg: Config, h: seq<Counted>, k: nat): real
    requires 0 < k < |h| && |h[k - 1].vector| == |h[k].vector|
  {
    cfg.numerics.degrees(Coherence(cfg.numerics.tiny, h[k - 1].vector, h[k].vector))
  }

  /** It is that suffix: every step inside it is within the limit, the step before it is not. */
  lemma {:induction false} StreakIsLongestSuffix(cfg: Config, h: seq<Counted>)
    requires forall k :: 0 <= k < |h| ==> |h[k].vector| == cfg.channels
    ensures forall k :: |h| - Streak(cfg, h) < k < |h| ==> StepAngle(cfg, h, k) <= cfg.maxStepDegrees
    ensures var first := |h| - Streak(cfg, h);
            0 < first < |h| ==> StepAngle(cfg, h, first) > cfg.maxStepDegrees
  {
    hide Coherence;
    if |h| > 1 {
      StreakIsLongestSuffix(cfg, Front(h));
      assert forall k :: 0 < k < |h| - 1 ==> StepAngle(cfg, h, k) == StepAngle(cfg, Front(h), k);
    }
  }

  /** The row's streak fields describe its history. */
  ghost predicate Describes(cfg: Config, row: Row, h: seq<Counted>) {
    && (forall k :: 0 <= k < |h| ==> |h[k].vector| == cfg.channels)
    && (row.postVector.Some? <==> |h| > 0)
    && row.postCount == Streak(cfg, h)
    && (|h| > 0 ==>
          && row.lastCounter == Some(Last(h).counter)
          && exists u :: Abs2(u) == 1.0 && row.postVector == Some(Scale(u, Last(h).vector)))
    && (forall k :: 0 <= k < |h| ==> h[k].updated > h[k].activation)
    && (forall k :: 0 < k < |h| ==> h[k].counter != h[k - 1].counter)
  }

  /** The step between two aligned vectors is the step between the vectors as measured. */
  lemma AlignedStep(cfg: Config, u: Complex, before: Vector, measured: Vector)
    requires Sound(cfg.numerics) && Abs2(u) == 1.0
    requires |before| == |measured|
    ensures var stored := Scale(u, before);
            var aligned := AlignToReference(cfg.numerics, measured, Some(stored));
            && StepWithinLimit(cfg, stored, aligned) == StepWithinLimit(cfg, before, measured)
            && exists v :: Abs2(v) == 1.0 && aligned == Scale(v, measured)
  {
    hide AlignToReference, Coherence, Abs2, Sound;
    var stored := Scale(u, before);
    AlignmentIsUnitFactor(cfg.numerics, measured, Some(stored));
    var v :| Abs2(v) == 1.0 && AlignToReference(cfg.numerics, measured, Some(stored)) == Scale(v, measured);
    CoherenceUnitFactor(cfg.numerics.tiny, u, before, v, measured);
  }

  lemma UpdateDescribes(cfg: Config, g: Globals, row: Row, h: seq<Counted>, call: Call)
    requires Sound(cfg.numerics) && Fits(cfg, row) && Describes(cfg, row, h)
    requires |h| > 0 || row.postCount == 0
    ensures var (u, adopted) := UpdateDesired(cfg, GlobalsStep(g, call).activation, row, call);
            var h' := HistoryStep(cfg, g, row, h, call);
            && Describes(cfg, u, h')
            && (adopted <==>
                  && row.desired.None?
                  && Considered(cfg, GlobalsStep(g, call).activation, row, call)
                  && Streak(cfg, h') >= cfg.minUpdates)
  {
    hide AlignToReference, Abs2, Sound, StepWithinLimit, Measurement;
    var activation := GlobalsStep(g, call).activation;
    var measured := Measurement(cfg, call, row.satellite);
    if !call.enabled && measured.Some? {
    } else if Considered(cfg, activation, row, call) {
      var h' := HistoryStep(cfg, g, row, h, call);
      assert Front(h') == h;
      if |h| > 0 {
        var u :| Abs2(u) == 1.0 && row.postVector == Some(Scale(u, Last(h).vector));
        AlignedStep(cfg, u, Last(h).vector, measured.value);
      } else {
        AlignmentIsUnitFactor(cfg.numerics, measured.value, None);
      }
    }
  }

  lemma StepKeepsStreakFields(cfg: Config, g: Globals, row: Row, call: Call)
    requires Fits(cfg, row) && Sized(cfg, call)
    ensures var r, u := RowStep(cfg, g, row, call), UpdateDesired(cfg, GlobalsStep(g, call).activation, row, call).0;
            && r.postVector == u.postVector && r.postCount == u.postCount
            && r.lastCounter == u.lastCounter && r.desired == u.desired
  {
    hide AlignToReference, Lerp, ContinuousTarget, UpdateDesired;
  }

  /** In every run, the pass count of a row is the length of the longest suffix of the
      measurements it counted whose consecutive steps are within the limit; counted
      measurements are newer than their activation and never repeat a counter in a row. */
  lemma {:induction false} PassCountIsStreak(cfg: Config, i: nat, calls: seq<Call>)
    requires Sound(cfg.numerics)
    ensures SlotAfter(cfg, i, calls).Some? ==> Describes(cfg, SlotAfter(cfg, i, calls).value, History(cfg, i, calls))
    ensures SlotAfter(cfg, i, calls).None? ==> History(cfg, i, calls) == []
  {
    hide RowStep, Describes, HistoryStep, UpdateDesired, Sound;
    if |calls| > 0 {
      var prior, call := Front(calls), Last(calls);
      PassCountIsStreak(cfg, i, prior);
      if Sized(cfg, call) && ActiveSatellite(cfg, call, i).Some? {
        var g, slot, satellite := GlobalsAfter(cfg, prior), SlotAfter(cfg, i, prior), ActiveSatellite(cfg, call, i).value;
        var seat := Seated(slot, satellite, call.common);
        var kept := if slot.Some? && slot.value.satellite == satellite then History(cfg, i, prior) else [];
        FreshDescribes(cfg, satellite, call.common);
        DescribesCount(cfg, seat, kept);
        UpdateDescribes(cfg, g, seat, kept, call);
        StepKeepsStreakFields(cfg, g, seat, call);
        DescribesFields(cfg, UpdateDesired(cfg, GlobalsStep(g, call).activation, seat, call).0,
                        RowStep(cfg, g, seat, call), HistoryStep(cfg, g, seat, kept, call));
      }
    }
  }

  lemma FreshDescribes(cfg: Config, satellite: int, common: Vector)
    ensures Describes(cfg, FreshRow(satellite, common), [])
  {
  }

  lemma DescribesCount(cfg: Config, row: Row, h: seq<Counted>)
    requires Describes(cfg, row, h)
    ensures |h| > 0 || row.postCount == 0
  {
  }

  lemma DescribesFields(cfg: Config, row: Row, other: Row, h: seq<Counted>)
    requires Describes(cfg, row, h)
    requires row.postVector == other.postVector && row.postCount == other.postCount && row.lastCounter == other.lastCounter
    ensures Describes(cfg, other, h)
  {
    hide Abs2;
  }

  /** While protection is enabled a desired vector appears exactly when none was known and
      the present measurement completes a streak of the required length. */
  lemma AdoptionNeedsStreak(cfg: Config, i: nat, calls: seq<Call>)
    requires Sound(cfg.numerics)
    requires |calls| > 0 && Sized(cfg, Last(calls)) && Last(calls).enabled
    requires ActiveSatellite(cfg, Last(calls), i).Some?
    ensures var prior, call := Front(calls), Last(calls);
            var seat := Seated(SlotAfter(cfg, i, prior), ActiveSatellite(cfg, call, i).value, call.common);
            var row := SlotAfter(cfg, i, calls).value;
            && (seat.desired.Some? ==> row.desired == seat.desired)
            && (seat.desired.None? ==>
                  (row.desired.Some? <==>
                     && Considered(cfg, GlobalsAfter(cfg, calls).activation, seat, call)
                     && Streak(cfg, History(cfg, i, calls)) >= cfg.minUpdates))
  {
    hide RowStep, Describes, Sound;
    var prior, call := Front(calls), Last(calls);
    var g, slot, satellite := GlobalsAfter(cfg, prior), SlotAfter(cfg, i, prior), ActiveSatellite(cfg, call, i).value;
    var seat := Seated(slot, satellite, call.common);
    var kept := if slot.Some? && slot.value.satellite == satellite then History(cfg, i, prior) else [];
    PassCountIsStreak(cfg, i, prior);
    FreshDescribes(cfg, satellite, call.common);
    DescribesCount(cfg, seat, kept);
    UpdateDescribes(cfg, g, seat, kept, call);
    StepKeepsStreakFields(cfg, g, seat, call);
    UpdateAdopts(cfg, GlobalsStep(g, call).activation, seat, call);
  }

  lemma UpdateAdopts(cfg: Config, activation: Option<real>, row: Row, call: Call)
    requires Fits(cfg, row) && call.enabled
    ensures var (u, adopted) := UpdateDesired(cfg, activation, row, call);
            && (row.desired.Some? ==> u.desired == row.desired)
            && (row.desired.None? ==> (u.desired.Some? <==> adopted))
  {
    hide AlignToReference;
  }

  /** The transition of the adoption branch itself runs exactly when a vector is adopted and
      accepted while measured-U1 weights are not available: the branch uses the supplied
      protection row regardless. With them available the bridge branch takes the vector first. */
  lemma AdoptionBranch(cfg: Config, g: Globals, row: Row, call: Call)
    requires Fits(cfg, row) && Sized(cfg, call)
    requires row.source != MeasuredU1NewPrn
    requires row.source.OnBridge() ==> row.desired.Some?
    ensures var (u, adopted) := UpdateDesired(cfg, GlobalsStep(g, call).activation, row, call);
            (RowStep(cfg, g, row, call).source == MeasuredU1NewPrn)
              == (adopted && !call.available && Accepts(cfg, u, call.protection))
  {
    hide AlignToReference, Lerp, ContinuousTarget, Measurement;
  }

  // ---------- the ramp back to uniform weights ----------

  /** From call `k` on, protection is off and the source stays on the satellite. */
  predicate QuietFrom(cfg: Config, i: nat, calls: seq<Call>, k: nat, satellite: int) {
    && k <= |calls|
    && forall j :: k <= j < |calls| ==>
         Sized(cfg, calls[j]) && !calls[j].enabled && ActiveSatellite(cfg, calls[j], i) == Some(satellite)
  }

  function Min(a: nat, b: nat): nat {
    if a < b then a else b
  }

  lemma QuietStep(cfg: Config, g: Globals, row: Row, call: Call)
    requires Fits(cfg, row) && Sized(cfg, call)
    requires !call.enabled && !g.enabledPrevious && row.desired.Some?
    ensures var r := RowStep(cfg, g, row, call);
            && r.satellite == row.satellite && r.desired.Some? && r.source == row.source
            && r.start == row.start && r.target == row.target && r.total == row.total
            && r.completed == if row.completed < row.total then row.completed + 1 else row.completed
  {
    hide AlignToReference, Lerp, Measurement;
  }

  lemma {:induction false} EnabledPreviousIsLast(cfg: Config, calls: seq<Call>)
    requires |calls| > 0 && Sized(cfg, Last(calls))
    ensures GlobalsAfter(cfg, calls).enabledPrevious == Last(calls).enabled
  {
  }

  /** Whatever is measured meanwhile, each quiet call moves the transition on by one chunk. */
  lemma {:induction false} QuietRunAdvances(cfg: Config, i: nat, calls: seq<Call>, k: nat)
    requires 0 < k <= |calls| && Sized(cfg, calls[k - 1]) && !calls[k - 1].enabled
    requires SlotAfter(cfg, i, calls[..k]).Some? && SlotAfter(cfg, i, calls[..k]).value.desired.Some?
    requires QuietFrom(cfg, i, calls, k, SlotAfter(cfg, i, calls[..k]).value.satellite)
    ensures SlotAfter(cfg, i, calls).Some?
    ensures var row, end := SlotAfter(cfg, i, calls[..k]).value, SlotAfter(cfg, i, calls).value;
            && end.satellite == row.satellite && end.desired.Some? && end.source == row.source
            && end.start == row.start && end.target == row.target && end.total == row.total
            && end.completed == if row.completed >= row.total then row.completed
                                else Min(row.total, row.completed + (|calls| - k))
    decreases |calls|
  {
    hide RowStep;
    assert calls[..|calls|] == calls;
    if k < |calls| {
      var prior, call := Front(calls), Last(calls);
      assert prior[..k] == calls[..k];
      assert prior[k - 1] == calls[k - 1];
      assert forall j :: 0 <= j < |prior| ==> prior[j] == calls[j];
      QuietRunAdvances(cfg, i, prior, k);
      EnabledPreviousIsLast(cfg, prior);
      assert Last(prior) == calls[|prior| - 1];
      QuietStep(cfg, GlobalsAfter(cfg, prior), SlotAfter(cfg, i, prior).value, call);
    }
  }

  lemma ProperMixMoves(alpha: real, z: Complex, w: Complex)
    requires alpha < 1.0
    requires Add(Mul(FromReal(1.0 - alpha), z), Mul(FromReal(alpha), w)) == w
    ensures z == w
  {
    MixReal(alpha, z.re, w.re);
    MixReal(alpha, z.im, w.im);
  }

  lemma MixReal(alpha: real, x: real, y: real)
    requires alpha < 1.0
    ensures (1.0 - alpha) * x + alpha * y == y ==> x == y
  {
    var beta := 1.0 - alpha;
    if beta * x + alpha * y == y {
      assert beta * (x - y) == 0.0;
    }
  }

  /** An interpolated row stands on its target exactly when its transition is complete, or
      when the two ends coincide. */
  lemma OnTargetIffComplete(row: Row)
    requires Interpolated(row)
    ensures row.current == row.target <==> row.completed >= row.total || row.start == row.target
  {
    hide Add, Mul, FromReal;
    if row.total > 0 {
      ProgressEnds(row.total);
      LerpEnds(row.start, row.target);
      var alpha := Progress(row.completed, row.total);
      LerpSame(alpha, row.target);
      if row.completed < row.total && row.current == row.target {
        assert alpha < 1.0;
        forall j | 0 <= j < |row.start|
          ensures row.start[j] == row.target[j]
        {
          assert row.current[j] == Add(Mul(FromReal(1.0 - alpha), row.start[j]), Mul(FromReal(alpha), row.target[j]));
          ProperMixMoves(alpha, row.start[j], row.target[j]);
        }
      }
    }
  }

  /** A row that starts its ramp at the first call with protection off reaches its target after
      exactly `transitionChunks` calls, whatever is measured meanwhile, and the target is a
      multiple of the uniform row of that first call. */
  lemma RecoveryTakesExactly(cfg: Config, i: nat, calls: seq<Call>, k: nat)
    requires k < |calls| && Sized(cfg, calls[k]) && ActiveSatellite(cfg, calls[k], i).Some?
    requires !calls[k].enabled && WasEnabled(cfg, calls[..k])
    requires RowAfter(cfg, i, calls[..k], calls[k]).desired.Some?
    requires Allowed(cfg, SeatOf(cfg, i, calls[..k], calls[k]).current, calls[k].common,
                     RowAfter(cfg, i, calls[..k], calls[k]).desired.value)
    requires QuietFrom(cfg, i, calls, k + 1, ActiveSatellite(cfg, calls[k], i).value)
    ensures SlotAfter(cfg, i, calls).Some?
    ensures var row := SlotAfter(cfg, i, calls).value;
            && (row.current == row.target <==> |calls| - k >= cfg.transitionChunks || row.start == row.target)
            && exists c :: row.target == Scale(c, calls[k].common)
  {
    hide Lerp, SlotAfter, GlobalsAfter, Interpolated, Sized, QuietFrom, ActiveSatellite, Scale, Fits, Allowed, RowAfter,
      SeatOf, WasEnabled, Anchored, Response;
    RampAt(cfg, i, calls, k);
    QuietRunAdvances(cfg, i, calls, k + 1);
    ReachableInterpolated(cfg, i, calls);
    OnTargetIffComplete(SlotAfter(cfg, i, calls).value);
  }

  /** The row after that first call. */
  lemma RampAt(cfg: Config, i: nat, calls: seq<Call>, k: nat)
    requires k < |calls| && Sized(cfg, calls[k]) && ActiveSatellite(cfg, calls[k], i).Some?
    requires !calls[k].enabled && WasEnabled(cfg, calls[..k])
    requires RowAfter(cfg, i, calls[..k], calls[k]).desired.Some?
    requires Allowed(cfg, SeatOf(cfg, i, calls[..k], calls[k]).current, calls[k].common,
                     RowAfter(cfg, i, calls[..k], calls[k]).desired.value)
    ensures SlotAfter(cfg, i, calls[..k + 1]).Some?
    ensures var r := SlotAfter(cfg, i, calls[..k + 1]).value;
            && r.satellite == ActiveSatellite(cfg, calls[k], i).value && r.desired.Some?
            && r.total == cfg.transitionChunks && r.completed == Min(1, r.total)
            && !calls[k].enabled
            && exists c :: r.target == Scale(c, calls[k].common)
  {
    var prior, call := calls[..k], calls[k];
    assert calls[..k + 1] == prior + [call];
    FallingCallStartsRamp(cfg, i, prior, call);
    RowAfterIsStep(cfg, i, prior, call);
    StepSatellite(cfg, GlobalsAfter(cfg, prior), SeatOf(cfg, i, prior, call), call);
    hide RowStep, RowAfter, Lerp, SlotAfter, GlobalsAfter, Allowed, WasEnabled, Anchored, Response;
  }
}
