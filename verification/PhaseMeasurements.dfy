/** Which measurements a row takes, and what desired vector they give it: read from the calls, with
    the bounds on age, length, time of onset and repetition written out. */
module PhaseMeasurements {
  import opened Wrappers
  import opened ComplexVectors
  import opened SpatialVectors
  import opened PhaseRows
  import opened PhaseRuns
  import opened PhaseDecisions
  import opened PhaseAdoption

  // ---------- a usable measurement ----------

  /** The call's table has a vector for the satellite that is of the right size and not zero, and
      not older than the age allowed, at least a tenth of a second, nor from the future. */
  ghost predicate Usable(cfg: Config, call: Call, satellite: int, v: Vector) {
    && satellite in call.desired
    && call.desired[satellite].vector == Some(v)
    && |v| == cfg.channels && Norm2(v) > Square(cfg.numerics.tiny)
    && call.desired[satellite].updated.Some?
    && var age := call.now - call.desired[satellite].updated.value;
       age >= 0.0 && (age <= 0.1 || age <= call.maxAge)
  }

  ghost predicate HasUsable(cfg: Config, call: Call, satellite: int) {
    exists v :: Usable(cfg, call, satellite, v)
  }

  /** The unit vector along `v`. */
  ghost predicate IsUnitOf(d: Vector, v: Vector) {
    Norm2(d) == 1.0 && exists r: real :: r > 0.0 && d == Scale(FromReal(r), v)
  }

  lemma NormalizedIsUnit(m: Numerics, v: Vector)
    requires Sound(m) && Norm2(v) > Square(m.tiny)
    ensures IsUnitOf(Scale(FromReal(Inverse(m.sqrt(Norm2(v)))), v), v)
  {
    hide Energy, Abs2, Times, Mul, FromReal;
    var e, root := Norm2(v), m.sqrt(Norm2(v));
    SquarePositive(m.tiny);
    assert Square(root) == e && root >= 0.0;
    SquarePositive(root);
    assert root > 0.0 by { RootNotZero(root, e); }
    EnergyScale(FromReal(1.0 / root), v, |v|);
    UnitScale(root, e);
  }

  lemma RootNotZero(root: real, e: real)
    requires Square(root) == e && e > 0.0
    ensures root != 0.0
  {
  }

  /** A row measures exactly when the call has a usable vector, and then the unit vector along it. */
  lemma MeasuredIffUsable(cfg: Config, call: Call, satellite: int)
    requires Sound(cfg.numerics)
    ensures Measurement(cfg, call, satellite).Some? <==> HasUsable(cfg, call, satellite)
    ensures forall v :: Usable(cfg, call, satellite, v) ==> IsUnitOf(Measurement(cfg, call, satellite).value, v)
  {
    hide Energy, Square, Scale, IsUnitOf, Sound;
    var p := PayloadOf(call, satellite);
    if p.vector.Some? && Usable(cfg, call, satellite, p.vector.value) {
      NormalizedIsUnit(cfg.numerics, p.vector.value);
      assert HasUsable(cfg, call, satellite);
    }
    if Measurement(cfg, call, satellite).Some? {
      assert Usable(cfg, call, satellite, p.vector.value);
    }
  }

  // ---------- repetition and onset ----------

  /** The call's measurement for the satellite is newer than the onset and has a counter that is
      not the one read last. */
  ghost predicate IsNew(cfg: Config, calls: seq<Call>, lastCounter: Option<int>, satellite: int, call: Call) {
    && HasUsable(cfg, call, satellite)
    && call.desired[satellite].counter.Some? && call.desired[satellite].counter != lastCounter
    && exists t :: OnsetTime(cfg, calls + [call], t) && call.desired[satellite].updated.value > t
  }

  /** The counter the present row read last, with the measurement it took last: any usable one while
      protection is off; with it on, new ones as long as the desired vector is unknown. */
  ghost function LastCounter(cfg: Config, i: nat, calls: seq<Call>): Option<int> {
    if |calls| == 0 then None
    else
      var prior, call := Front(calls), Last(calls);
      if !Sized(cfg, call) || ActiveSatellite(cfg, call, i).None? then LastCounter(cfg, i, prior)
      else CounterNext(cfg, i, prior, call, SeatCounter(cfg, i, prior, call, LastCounter(cfg, i, prior)))
  }

  /** A row for a new satellite has read none. */
  ghost function SeatCounter(cfg: Config, i: nat, calls: seq<Call>, call: Call, read: Option<int>): Option<int>
    requires Sized(cfg, call) && ActiveSatellite(cfg, call, i).Some?
  {
    var slot := SlotAfter(cfg, i, calls);
    if slot.Some? && slot.value.satellite == ActiveSatellite(cfg, call, i).value then read else None
  }

  ghost function CounterNext(cfg: Config, i: nat, calls: seq<Call>, call: Call, read: Option<int>): Option<int>
    requires Sized(cfg, call) && ActiveSatellite(cfg, call, i).Some?
  {
    var satellite := ActiveSatellite(cfg, call, i).value;
    var takes := if call.enabled then
                   SeatOf(cfg, i, calls, call).desired.None? && IsNew(cfg, calls, read, satellite, call)
                 else HasUsable(cfg, call, satellite);
    if takes then call.desired[satellite].counter else read
  }

  lemma ConsideredIffNew(cfg: Config, i: nat, calls: seq<Call>, call: Call)
    requires Sound(cfg.numerics) && Sized(cfg, call) && ActiveSatellite(cfg, call, i).Some?
    ensures var seat := SeatOf(cfg, i, calls, call);
            Considered(cfg, GlobalsAfter(cfg, calls + [call]).activation, seat, call) <==>
              call.enabled && seat.desired.None? && IsNew(cfg, calls, seat.lastCounter, seat.satellite, call)
  {
    var seat := SeatOf(cfg, i, calls, call);
    MeasuredIffUsable(cfg, call, seat.satellite);
    MemoryIsOfCalls(cfg, calls + [call]);
    hide SlotAfter, GlobalsAfter, OnsetTime, Measurement, Sound, SeatOf;
    var activation := GlobalsAfter(cfg, calls + [call]).activation;
    assert activation.Some? ==> OnsetTime(cfg, calls + [call], activation.value);
    forall t | OnsetTime(cfg, calls + [call], t)
      ensures activation == Some(t)
    {
    }
  }

  lemma CounterStep(cfg: Config, g: Globals, row: Row, call: Call)
    requires Fits(cfg, row) && Sized(cfg, call)
    ensures RowStep(cfg, g, row, call).lastCounter
         == if (!call.enabled && Measurement(cfg, call, row.satellite).Some?)
               || Considered(cfg, GlobalsStep(g, call).activation, row, call)
            then PayloadOf(call, row.satellite).counter else row.lastCounter
  {
    hide AlignToReference, Lerp, ContinuousTarget, Measurement;
  }

  /** In every run a row's stored counter is that of the measurement it took last. */
  lemma {:induction false} StoredCounterIsLast(cfg: Config, i: nat, calls: seq<Call>)
    requires Sound(cfg.numerics)
    ensures SlotAfter(cfg, i, calls).Some? ==> SlotAfter(cfg, i, calls).value.lastCounter == LastCounter(cfg, i, calls)
  {
    hide RowStep, CounterNext, Sound;
    if |calls| > 0 {
      var prior, call := Front(calls), Last(calls);
      assert calls == prior + [call];
      StoredCounterIsLast(cfg, i, prior);
      if Sized(cfg, call) && ActiveSatellite(cfg, call, i).Some? {
        var read := SeatCounter(cfg, i, prior, call, LastCounter(cfg, i, prior));
        assert SeatOf(cfg, i, prior, call).lastCounter == read;
        CounterAfter(cfg, i, prior, call, read);
      }
    }
  }

  lemma CounterAfter(cfg: Config, i: nat, calls: seq<Call>, call: Call, read: Option<int>)
    requires Sound(cfg.numerics) && Sized(cfg, call) && ActiveSatellite(cfg, call, i).Some?
    requires SeatOf(cfg, i, calls, call).lastCounter == read
    ensures RowAfter(cfg, i, calls, call).lastCounter == CounterNext(cfg, i, calls, call, read)
  {
    var seat, g := SeatOf(cfg, i, calls, call), GlobalsAfter(cfg, calls);
    assert seat.satellite == ActiveSatellite(cfg, call, i).value;
    RowAfterIsStep(cfg, i, calls, call);
    OneMoreCall(cfg, i, calls, call);
    ConsideredIffNew(cfg, i, calls, call);
    MeasuredIffUsable(cfg, call, seat.satellite);
    CounterStep(cfg, g, seat, call);
    hide RowAfter, SeatOf, SlotAfter, GlobalsAfter, RowStep, Considered, Measurement, Sound;
  }

  /** What a new satellite leaves of the history of counted measurements: nothing. */
  function KeptHistory(cfg: Config, i: nat, calls: seq<Call>, call: Call): (r: seq<Counted>)
    requires Sized(cfg, call) && ActiveSatellite(cfg, call, i).Some?
    ensures forall k :: 0 <= k < |r| ==> |r[k].vector| == cfg.channels
  {
    var slot := SlotAfter(cfg, i, calls);
    if slot.Some? && slot.value.satellite == ActiveSatellite(cfg, call, i).value then History(cfg, i, calls) else []
  }

  lemma HistoryAfter(cfg: Config, i: nat, calls: seq<Call>, call: Call)
    requires Sized(cfg, call) && ActiveSatellite(cfg, call, i).Some?
    ensures History(cfg, i, calls + [call])
         == HistoryStep(cfg, GlobalsAfter(cfg, calls), SeatOf(cfg, i, calls, call),
                        KeptHistory(cfg, i, calls, call), call)
    ensures GlobalsStep(GlobalsAfter(cfg, calls), call).activation == GlobalsAfter(cfg, calls + [call]).activation
  {
    OneMoreCall(cfg, i, calls, call);
    assert Front(calls + [call]) == calls && Last(calls + [call]) == call;
    hide HistoryStep, SlotAfter, GlobalsAfter;
  }

  /** A measurement joins the row's history exactly when protection is on, the desired vector unknown
      and the measurement new: usable, taken after the onset, with another counter than the one read
      last. A usable one with protection off empties the history; nothing else changes it. */
  lemma CountedIffNew(cfg: Config, i: nat, calls: seq<Call>, call: Call)
    requires Sound(cfg.numerics) && Sized(cfg, call) && ActiveSatellite(cfg, call, i).Some?
    ensures var seat, kept := SeatOf(cfg, i, calls, call), KeptHistory(cfg, i, calls, call);
            var read := SeatCounter(cfg, i, calls, call, LastCounter(cfg, i, calls));
            var history := History(cfg, i, calls + [call]);
            if call.enabled && seat.desired.None? && IsNew(cfg, calls, read, seat.satellite, call) then
              && |history| == |kept| + 1 && history[..|kept|] == kept
              && forall v :: Usable(cfg, call, seat.satellite, v) ==> IsUnitOf(history[|kept|].vector, v)
            else if !call.enabled && HasUsable(cfg, call, seat.satellite) then history == []
            else history == kept
  {
    var seat := SeatOf(cfg, i, calls, call);
    StoredCounterIsLast(cfg, i, calls);
    assert seat.lastCounter == SeatCounter(cfg, i, calls, call, LastCounter(cfg, i, calls));
    HistoryAfter(cfg, i, calls, call);
    ConsideredIffNew(cfg, i, calls, call);
    MeasuredIffUsable(cfg, call, seat.satellite);
    hide SeatOf, SlotAfter, GlobalsAfter, Measurement, Sound, IsUnitOf, Usable, HasUsable, IsNew, Considered,
      KeptHistory, History, SeatCounter, LastCounter;
  }

  // ---------- the desired vector ----------

  /** Learnt while protection is off: the unit vector along the usable one, turned towards the vector
      known before; without a usable one the known vector stays, and with protection on it does too. */
  lemma DesiredAfterCall(cfg: Config, i: nat, calls: seq<Call>, call: Call)
    requires Sound(cfg.numerics) && Sized(cfg, call) && ActiveSatellite(cfg, call, i).Some?
    ensures var seat, row := SeatOf(cfg, i, calls, call), RowAfter(cfg, i, calls, call);
            && (!call.enabled && !HasUsable(cfg, call, seat.satellite) ==> row.desired == seat.desired)
            && (call.enabled && seat.desired.Some? ==> row.desired == seat.desired)
            && (!call.enabled ==> forall v :: Usable(cfg, call, seat.satellite, v) ==>
                  && row.desired.Some?
                  && exists unit :: IsUnitOf(unit, v) && |unit| == cfg.channels
                                    && IsTurned(cfg.numerics, row.desired.value, unit, seat.desired))
  {
    var seat, g := SeatOf(cfg, i, calls, call), GlobalsAfter(cfg, calls);
    RowAfterIsStep(cfg, i, calls, call);
    MeasuredIffUsable(cfg, call, seat.satellite);
    var measured := Measurement(cfg, call, seat.satellite);
    StepKeepsStreakFields(cfg, g, seat, call);
    if measured.Some? {
      AlignmentTurns(cfg.numerics, measured.value, seat.desired);
    }
    hide RowAfter, SeatOf, SlotAfter, GlobalsAfter, RowStep, Measurement, Sound, IsUnitOf, AlignToReference, IsTurned,
      Usable, HasUsable;
  }

  /** A desired vector appears with protection on exactly when the call's measurement joins a streak
      that it makes long enough, and it is that measurement's vector, turned so that its loudest entry is real. */
  lemma AdoptedAfterCall(cfg: Config, i: nat, calls: seq<Call>, call: Call)
    requires Sound(cfg.numerics) && Sized(cfg, call) && ActiveSatellite(cfg, call, i).Some? && call.enabled
    requires SeatOf(cfg, i, calls, call).desired.None?
    ensures var seat, row := SeatOf(cfg, i, calls, call), RowAfter(cfg, i, calls, call);
            var read := SeatCounter(cfg, i, calls, call, LastCounter(cfg, i, calls));
            && (row.desired.Some? <==>
                  && IsNew(cfg, calls, read, seat.satellite, call)
                  && Streak(cfg, History(cfg, i, calls + [call])) >= cfg.minUpdates)
            && (row.desired.Some? ==>
                  row.postVector.Some? && IsTurned(cfg.numerics, row.desired.value, row.postVector.value, None))
  {
    var seat, g := SeatOf(cfg, i, calls, call), GlobalsAfter(cfg, calls);
    StoredCounterIsLast(cfg, i, calls);
    assert seat.lastCounter == SeatCounter(cfg, i, calls, call, LastCounter(cfg, i, calls));
    RowAfterIsStep(cfg, i, calls, call);
    ConsideredIffNew(cfg, i, calls, call);
    assert Front(calls + [call]) == calls && Last(calls + [call]) == call;
    AdoptionNeedsStreak(cfg, i, calls + [call]);
    StepKeepsStreakFields(cfg, g, seat, call);
    AdoptedVector(cfg, GlobalsStep(g, call).activation, seat, call);
    hide SlotAfter, GlobalsAfter, RowStep, Measurement, Sound, AlignToReference, IsTurned, Usable, HasUsable,
      Considered, IsNew, UpdateDesired;
  }

  lemma AdoptedVector(cfg: Config, activation: Option<real>, row: Row, call: Call)
    requires Sound(cfg.numerics) && Fits(cfg, row) && call.enabled && row.desired.None?
    ensures var u := UpdateDesired(cfg, activation, row, call).0;
            u.desired.Some? ==> u.postVector.Some? && IsTurned(cfg.numerics, u.desired.value, u.postVector.value, None)
  {
    hide Sound, AlignToReference, IsTurned, Measurement, StepWithinLimit;
    var u := UpdateDesired(cfg, activation, row, call).0;
    if u.desired.Some? {
      AlignmentTurns(cfg.numerics, u.postVector.value, None);
    }
  }
}
