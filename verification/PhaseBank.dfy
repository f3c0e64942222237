/** The bank as the source keeps it: one mutable state object per GNSS source, updated in
    place row by row on each `advance` call. Every method is proved against the step
    functions of `PhaseRows`, so what `PhaseRuns` and `PhaseAdoption` prove about runs of
    those steps holds of runs of `Advance`. */
module PhaseBank {
  import opened Wrappers
  import opened ComplexVectors
  import opened SpatialVectors
  import PR = PhaseRows
  import Runs = PhaseRuns

  class PhaseState {
    const satellite: int
    var current: Vector
    var start: Vector
    var target: Vector
    var desired: Option<Vector>
    var total: nat
    var completed: nat
    var source: PR.RowSource
    var scale: Complex
    var residual: Option<real>
    var guard: PR.Guard
    var postVector: Option<Vector>
    var postCount: nat
    var lastCounter: Option<int>

    ghost function Value(): PR.Row
      reads this
    {
      PR.Row(satellite, current, start, target, desired, total, completed, source, scale, residual, guard,
             postVector, postCount, lastCounter)
    }

    constructor (satellite: int, common: Vector)
      ensures Value() == PR.FreshRow(satellite, common)
    {
      this.satellite := satellite;
      current, start, target, desired := common, common, common, None;
      total, completed, source := 0, 0, PR.SharedCommon;
      scale, residual, guard := ONE, None, PR.NoGuard;
      postVector, postCount, lastCounter := None, 0, None;
    }

    method StartTransition(cfg: PR.Config, requested: Vector, newSource: PR.RowSource, immediate: bool)
      requires PR.Fits(cfg, Value()) && |requested| == cfg.channels
      modifies this
      ensures Value() == PR.StartTransition(cfg, old(Value()), requested, newSource, immediate)
    {
      hide PR.ContinuousTarget, Dot, Energy;
      if desired.None? {
        guard := PR.DesiredUnavailable;
        return;
      }
      var c := PR.ContinuousTarget(cfg, current, requested, desired.value);
      guard, scale, residual := c.guard, c.scale, c.residual;
      if c.target.None? {
        return;
      }
      Begin(c.target.value, newSource, if immediate then 1 else cfg.transitionChunks);
    }

    /** The end of an accepted start. */
    method Begin(newTarget: Vector, newSource: PR.RowSource, chunks: nat)
      modifies this
      ensures Value() == old(Value()).(start := old(current), target := newTarget, source := newSource,
                                       total := chunks, completed := 0,
                                       current := if chunks == 0 then newTarget else old(current))
    {
      start, target, source := current, newTarget, newSource;
      total, completed := chunks, 0;
      if total == 0 {
        current := target;
      }
    }

    method AdvanceTransition()
      requires |start| == |target|
      modifies this
      ensures Value() == PR.AdvanceTransition(old(Value()))
    {
      if total <= 0 || completed >= total {
        return;
      }
      completed := completed + 1;
      current := Lerp(PR.Progress(completed, total), start, target);
    }

    method UpdateDesired(cfg: PR.Config, activation: Option<real>, call: PR.Call) returns (adopted: bool)
      requires PR.Fits(cfg, Value())
      modifies this
      ensures (Value(), adopted) == PR.UpdateDesired(cfg, activation, old(Value()), call)
    {
      var payload := PR.PayloadOf(call, satellite);
      var measured := PR.Measurement(cfg, call, satellite);
      adopted := false;
      if !call.enabled && measured.Some? {
        desired := Some(AlignToReference(cfg.numerics, measured.value, desired));
        postVector, postCount := None, 0;
        lastCounter := payload.counter;
      } else if
        && call.enabled && desired.None? && measured.Some?
        && activation.Some? && payload.updated.value > activation.value
        && payload.counter.Some? && payload.counter != lastCounter
      {
        lastCounter := payload.counter;
        var aligned := AlignToReference(cfg.numerics, measured.value, postVector);
        if postVector.None? {
          postCount := 1;
        } else {
          postCount := if PR.StepWithinLimit(cfg, postVector.value, aligned) then postCount + 1 else 1;
        }
        postVector := Some(aligned);
        if postCount >= cfg.minUpdates {
          desired := Some(AlignToReference(cfg.numerics, aligned, None));
          adopted := true;
        }
      }
    }

    method HoldCommon(common: Vector)
      modifies this
      ensures Value() == old(Value()).(current := common, start := common, target := common,
                                       source := PR.WaitingForVector, total := 0, completed := 0)
    {
      current, start, target := common, common, common;
      source := PR.WaitingForVector;
      total, completed := 0, 0;
    }

    /** The transition this call starts, in the source's order of branches. */
    method ChooseTransition(cfg: PR.Config, ghost g: PR.Globals, rising: bool, falling: bool, protectionChanged: bool,
                            adopted: bool, call: PR.Call)
      requires PR.Fits(cfg, Value()) && PR.Sized(cfg, call)
      requires rising == PR.Rising(g, call) && falling == PR.Falling(g, call)
      requires protectionChanged == PR.ProtectionChanged(g, call)
      modifies this
      ensures Value() == PR.ChooseTransition(cfg, g, old(Value()), adopted, call)
    {
      hide PR.StartTransition;
      var needsUpdate := call.available && desired.Some? && (!source.OnBridge() || protectionChanged);
      if rising && needsUpdate {
        StartTransition(cfg, call.protection, PR.MeasuredU1, true);
      } else if call.enabled && needsUpdate {
        StartTransition(cfg, call.protection, PR.MeasuredU1, true);
      } else if falling {
        StartTransition(cfg, call.common, PR.UniformAfterJammer, false);
      } else if adopted {
        StartTransition(cfg, call.protection, PR.MeasuredU1NewPrn, true);
      } else if !call.enabled && desired.None? {
        HoldCommon(call.common);
      }
    }

    /** The loop body of `advance` for a source whose satellite this is. */
    method Step(cfg: PR.Config, ghost g: PR.Globals, activation: Option<real>, rising: bool, falling: bool,
                protectionChanged: bool, call: PR.Call)
      requires PR.Fits(cfg, Value()) && PR.Sized(cfg, call)
      requires activation == PR.GlobalsStep(g, call).activation
      requires rising == PR.Rising(g, call) && falling == PR.Falling(g, call)
      requires protectionChanged == PR.ProtectionChanged(g, call)
      modifies this
      ensures Value() == PR.RowStep(cfg, g, old(Value()), call)
    {
      hide PR.UpdateDesired, PR.ChooseTransition, PR.AdvanceTransition;
      var adopted := UpdateDesired(cfg, activation, call);
      ChooseTransition(cfg, g, rising, falling, protectionChanged, adopted, call);
      AdvanceTransition();
    }
  }

  /** What one more call adds to the run of every slot. */
  lemma AfterOneMoreCall(cfg: PR.Config, calls: seq<PR.Call>, call: PR.Call)
    ensures Runs.GlobalsAfter(cfg, calls + [call])
         == if PR.Sized(cfg, call) then PR.GlobalsStep(Runs.GlobalsAfter(cfg, calls), call)
            else Runs.GlobalsAfter(cfg, calls)
    ensures forall i: nat ::
              Runs.SlotAfter(cfg, i, calls + [call])
                == if PR.Sized(cfg, call) then
                     PR.SlotStep(cfg, Runs.GlobalsAfter(cfg, calls), Runs.SlotAfter(cfg, i, calls), i, call)
                   else Runs.SlotAfter(cfg, i, calls)
  {
    hide PR.SlotStep, PR.GlobalsStep, Runs.SlotAfter, Runs.GlobalsAfter;
    Runs.OneMoreCall(cfg, 0, calls, call);
    forall i: nat
      ensures Runs.SlotAfter(cfg, i, calls + [call])
           == if PR.Sized(cfg, call) then
                PR.SlotStep(cfg, Runs.GlobalsAfter(cfg, calls), Runs.SlotAfter(cfg, i, calls), i, call)
              else Runs.SlotAfter(cfg, i, calls)
    {
      Runs.OneMoreCall(cfg, i, calls, call);
    }
  }

  class SharedU1PhaseCompensationBank {
    const cfg: PR.Config
    var states: map<nat, PhaseState>
    var enabledPrevious: bool
    var activation: Option<real>
    var lastProtection: Option<Vector>

    /** Every call since construction, in order. */
    ghost var calls: seq<PR.Call>

    /** The bank's state is what the run of those calls leaves, as `PhaseRuns` defines it. */
    ghost predicate Valid()
      reads this, states.Values
    {
      && Wired()
      && GlobalsValue() == Runs.GlobalsAfter(cfg, calls)
      && forall i: nat :: i < cfg.sourceCount ==> Slot(i) == Runs.SlotAfter(cfg, i, calls)
    }

    ghost predicate Wired()
      reads this, states.Values
    {
      && (forall i :: i in states ==> i < cfg.sourceCount && PR.Fits(cfg, states[i].Value()))
      && (forall i, j :: i in states && j in states && i != j ==> states[i] != states[j])
    }

    ghost function GlobalsValue(): PR.Globals
      reads this
    {
      PR.Globals(enabledPrevious, activation, lastProtection)
    }

    ghost function Slot(i: nat): Option<PR.Row>
      reads this, states.Values
    {
      if i in states then Some(states[i].Value()) else None
    }

    /** The ramp length is the least whole number of chunks, at least one, that lasts
        `transitionS`; none at all when that time is not positive. */
    constructor (satellites: seq<int>, sourceCount: int, channels: nat, sampleRate: real, samplesPerChunk: int,
                 transitionS: real, maxWeightNorm: real, minUpdates: int, maxStepDegrees: real, numerics: Numerics)
      ensures Valid() && calls == [] && states == map[]
      ensures cfg.fixedSatellites == satellites && cfg.channels == channels && cfg.numerics == numerics
      ensures cfg.sourceCount == if |satellites| > 0 then |satellites| else if sourceCount < 1 then 1 else sourceCount
      ensures cfg.maxWeightNorm == PR.Max(maxWeightNorm, 0.000001)
      ensures cfg.minUpdates == if minUpdates < 2 then 2 else minUpdates
      ensures 0.1 <= cfg.maxStepDegrees <= 90.0
      ensures 0.1 <= maxStepDegrees <= 90.0 ==> cfg.maxStepDegrees == maxStepDegrees
      ensures maxStepDegrees < 0.1 ==> cfg.maxStepDegrees == 0.1
      ensures maxStepDegrees > 90.0 ==> cfg.maxStepDegrees == 90.0
      ensures transitionS <= 0.0 ==> cfg.transitionChunks == 0
      ensures transitionS > 0.0 ==>
                var chunkS := PR.Max(1.0, samplesPerChunk as real) / PR.Max(1.0, sampleRate);
                && cfg.transitionChunks >= 1
                && cfg.transitionChunks as real >= transitionS / chunkS
                && (cfg.transitionChunks > 1 ==> (cfg.transitionChunks - 1) as real < transitionS / chunkS)
    {
      var chunkS := PR.Max(1.0, samplesPerChunk as real) / PR.Max(1.0, sampleRate);
      var chunks := 0;
      if transitionS > 0.0 {
        var quotient := transitionS / chunkS;
        var ceiling := if quotient == quotient.Floor as real then quotient.Floor else quotient.Floor + 1;
        chunks := if ceiling < 1 then 1 else ceiling;
      }
      this.cfg := PR.Config(
        satellites,
        if |satellites| > 0 then |satellites| else if sourceCount < 1 then 1 else sourceCount,
        channels, chunks,
        PR.Max(maxWeightNorm, 0.000001),
        if minUpdates < 2 then 2 else minUpdates,
        PR.Max(0.1, if maxStepDegrees < 90.0 then maxStepDegrees else 90.0), numerics);
      states, calls := map[], [];
      enabledPrevious, activation, lastProtection := false, None, None;
    }

    /** Gives source `i` a state for the satellite, keeping the one it has if it fits. */
    method Seat(i: nat, satellite: int, common: Vector)
      requires Wired() && i < cfg.sourceCount && |common| == cfg.channels
      modifies this`states
      ensures Wired() && states.Keys == old(states.Keys) + {i}
      ensures forall j :: j in states && j != i ==> states[j] == old(states[j])
      ensures (i in old(states) && states[i] == old(states[i])) || fresh(states[i])
      ensures states[i].Value() == PR.Seated(old(Slot(i)), satellite, common)
    {
      if i !in states || states[i].satellite != satellite {
        var seat := new PhaseState(satellite, common);
        states := states[i := seat];
      }
    }

    /** One row of one call, for a source that has a satellite. */
    method AdvanceRow(i: nat, satellite: int, ghost g: PR.Globals, rising: bool, falling: bool,
                      protectionChanged: bool, call: PR.Call) returns (row: Vector)
      requires Wired() && i < cfg.sourceCount && PR.Sized(cfg, call)
      requires GlobalsValue() == PR.GlobalsStep(g, call)
      requires rising == PR.Rising(g, call) && falling == PR.Falling(g, call)
      requires protectionChanged == PR.ProtectionChanged(g, call)
      modifies this`states, states.Values
      ensures Wired()
      ensures forall j :: j in states ==> (j in old(states) && states[j] == old(states[j])) || fresh(states[j])
      ensures forall j: nat :: j != i ==> Slot(j) == old(Slot(j))
      ensures Slot(i) == Some(PR.RowStep(cfg, g, PR.Seated(old(Slot(i)), satellite, call.common), call))
      ensures row == Slot(i).value.current
    {
      hide PR.RowStep, PR.Fits, PR.Seated;
      Seat(i, satellite, call.common);
      states[i].Step(cfg, g, activation, rising, falling, protectionChanged, call);
      row := states[i].current;
    }

    /** The edge detection and the freshness of the protection row, at the top of a call. */
    method UpdateGlobals(call: PR.Call) returns (rising: bool, falling: bool, protectionChanged: bool)
      modifies this`enabledPrevious, this`activation, this`lastProtection
      ensures GlobalsValue() == PR.GlobalsStep(old(GlobalsValue()), call)
      ensures rising == PR.Rising(old(GlobalsValue()), call) && falling == PR.Falling(old(GlobalsValue()), call)
      ensures protectionChanged == PR.ProtectionChanged(old(GlobalsValue()), call)
    {
      rising := call.enabled && !enabledPrevious;
      falling := !call.enabled && enabledPrevious;
      if rising {
        activation := Some(call.now);
      } else if falling {
        activation := None;
      }
      enabledPrevious := call.enabled;
      protectionChanged := call.available && lastProtection != Some(call.protection);
      if protectionChanged {
        lastProtection := Some(call.protection);
      }
    }

    ghost function Slots(): (r: seq<Option<PR.Row>>)
      reads this, states.Values
      ensures |r| == cfg.sourceCount
      ensures forall i :: 0 <= i < cfg.sourceCount ==> r[i] == Slot(i)
    {
      seq(cfg.sourceCount, (i: nat) reads this, states.Values => Slot(i))
    }

    /** All slots hold rows of the bank's size. */
    lemma SlotsFit()
      requires Wired()
      ensures forall i: nat :: i < cfg.sourceCount && Slot(i).Some? ==> PR.Fits(cfg, Slot(i).value)
    {
      hide PR.Fits;
    }

    method AdvanceRows(ghost g: PR.Globals, ghost before: seq<Option<PR.Row>>, rising: bool, falling: bool,
                       protectionChanged: bool, call: PR.Call) returns (out: seq<Vector>)
      requires Wired() && PR.Sized(cfg, call)
      requires GlobalsValue() == PR.GlobalsStep(g, call)
      requires rising == PR.Rising(g, call) && falling == PR.Falling(g, call)
      requires protectionChanged == PR.ProtectionChanged(g, call)
      requires |before| == cfg.sourceCount
      requires forall i: nat :: i < cfg.sourceCount ==> before[i] == Slot(i)
      requires forall i: nat :: i < cfg.sourceCount && before[i].Some? ==> PR.Fits(cfg, before[i].value)
      modifies this`states, states.Values
      ensures Wired() && |out| == cfg.sourceCount
      ensures forall j :: j in states ==> (j in old(states) && states[j] == old(states[j])) || fresh(states[j])
      ensures forall j: nat :: j < cfg.sourceCount ==> Slot(j) == PR.SlotStep(cfg, g, before[j], j, call)
      ensures forall j: nat :: j < cfg.sourceCount ==> out[j] == PR.Emitted(cfg, g, before[j], j, call)
    {
      hide PR.RowStep, PR.Fits, PR.Seated;
      out := [];
      for i := 0 to cfg.sourceCount
        invariant Wired() && |out| == i
        invariant GlobalsValue() == PR.GlobalsStep(g, call)
        invariant forall j :: j in states ==> (j in old(states) && states[j] == old(states[j])) || fresh(states[j])
        invariant forall j: nat :: i <= j < cfg.sourceCount ==> Slot(j) == before[j]
        invariant forall j: nat :: j < i ==> Slot(j) == PR.SlotStep(cfg, g, before[j], j, call)
        invariant forall j: nat :: j < i ==> out[j] == PR.Emitted(cfg, g, before[j], j, call)
      {
        var satellite := PR.ActiveSatellite(cfg, call, i);
        if satellite.None? {
          out := out + [call.common];
        } else {
          var row := AdvanceRow(i, satellite.value, g, rising, falling, protectionChanged, call);
          out := out + [row];
        }
      }
    }

    /** `advance`: `None` is the length-mismatch error, raised before anything changes. */
    method Advance(call: PR.Call) returns (rows: Option<seq<Vector>>)
      requires Valid()
      modifies this, states.Values
      ensures Valid() && calls == old(calls) + [call]
      ensures forall i :: i in states ==> (i in old(states) && states[i] == old(states[i])) || fresh(states[i])
      ensures rows.Some? <==> PR.Sized(cfg, call)
      ensures rows.None? ==> GlobalsValue() == old(GlobalsValue()) && Slots() == old(Slots())
      ensures rows.Some? ==>
                && |rows.value| == cfg.sourceCount
                && forall i: nat :: i < cfg.sourceCount ==>
                     rows.value[i] == PR.Emitted(cfg, Runs.GlobalsAfter(cfg, old(calls)),
                                                 Runs.SlotAfter(cfg, i, old(calls)), i, call)
    {
      hide PR.SlotStep, PR.Fits, PR.Emitted, PR.GlobalsStep, PR.Rising, PR.Falling, PR.ProtectionChanged,
        Runs.SlotAfter, Runs.GlobalsAfter;
      ghost var prior := calls;
      AfterOneMoreCall(cfg, prior, call);
      calls := calls + [call];
      if |call.common| != cfg.channels || |call.protection| != cfg.channels {
        return None;
      }
      ghost var g, before := GlobalsValue(), Slots();
      SlotsFit();
      var rising, falling, protectionChanged := UpdateGlobals(call);
      var out := AdvanceRows(g, before, rising, falling, protectionChanged, call);
      rows := Some(out);
    }
  }
}
