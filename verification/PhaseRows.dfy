/** One row of the shared-U1 phase compensation bank, as a value and a step function:
    what one `advance` call does to the row of one GNSS source. `PhaseBank` runs the
    same steps in place; `PhaseRuns` proves what they keep over whole runs. */
module PhaseRows {
  import opened Wrappers
  import opened ComplexVectors
  import opened SpatialVectors

  datatype Config = Config(
    fixedSatellites: seq<int>,
    sourceCount: nat,
    channels: nat,
    transitionChunks: nat,
    maxWeightNorm: real,
    minUpdates: nat,
    maxStepDegrees: real,
    numerics: Numerics)

  /** One entry of the desired-vector table; an absent field is `None`, and so is a
      vector with a non-finite entry. */
  datatype Payload = Payload(vector: Option<Vector>, updated: Option<real>, counter: Option<int>)

  /** The arguments of one `advance` call. */
  datatype Call = Call(
    common: Vector,
    protection: Vector,
    available: bool,
    desired: map<int, Payload>,
    sources: seq<Option<int>>,
    enabled: bool,
    now: real,
    maxAge: real)

  datatype RowSource =
    | SharedCommon
    | WaitingForVector
    | MeasuredU1
    | MeasuredU1NewPrn
    | UniformAfterJammer
  {
    /** `source.startswith("phase_compensated_shared_measured_u1")` */
    predicate OnBridge() {
      MeasuredU1? || MeasuredU1NewPrn?
    }
  }

  datatype Guard = NoGuard | DesiredUnavailable | ResponseNearZero | NormExceeded

  datatype Row = Row(
    satellite: int,
    current: Vector,
    start: Vector,
    target: Vector,
    desired: Option<Vector>,
    total: nat,
    completed: nat,
    source: RowSource,
    scale: Complex,
    residual: Option<real>,
    guard: Guard,
    postVector: Option<Vector>,
    postCount: nat,
    lastCounter: Option<int>)

  predicate Sized(cfg: Config, call: Call) {
    |call.common| == cfg.channels && |call.protection| == cfg.channels
  }

  predicate Fits(cfg: Config, row: Row) {
    && |row.current| == |row.start| == |row.target| == cfg.channels
    && (row.desired.Some? ==> |row.desired.value| == cfg.channels)
    && (row.postVector.Some? ==> |row.postVector.value| == cfg.channels)
  }

  function FreshRow(satellite: int, common: Vector): Row {
    Row(satellite, common, common, common, None, 0, 0, SharedCommon, ONE, None, NoGuard, None, 0, None)
  }

  // ---------- the continuity-preserving target ----------

  datatype Continuation = Continuation(target: Option<Vector>, scale: Complex, residual: Option<real>, guard: Guard)

  function Max(x: real, y: real): real {
    if x < y then y else x
  }

  /** The square of `1e-8 * max(1, norm(requested) * norm(desired))`. */
  function ResponseFloor2(requested: Vector, desired: Vector): (r: real)
    ensures r > 0.0
  {
    0.0000000000000001 * Max(1.0, NormProduct(requested, desired))
  }

  /** `_continuous_target`: the multiple of `requested` that keeps the response of `start`
      to `desired`, unless that response is out of reach or the multiple too long. */
  function ContinuousTarget(cfg: Config, start: Vector, requested: Vector, desired: Vector): (r: Continuation)
    requires |start| == |requested| == |desired|
    ensures r.target.Some? ==> |r.target.value| == |start|
  {
    var before, raw := Vdot(start, desired), Vdot(requested, desired);
    if Abs2(raw) <= ResponseFloor2(requested, desired) then Continuation(None, ONE, None, ResponseNearZero)
    else
      var scale := Conj(Div(before, raw));
      var target := Scale(scale, requested);
      if Norm2(target) > Square(cfg.maxWeightNorm) then Continuation(None, scale, None, NormExceeded)
      else Continuation(Some(target), scale, Some(Abs2(Sub(Vdot(target, desired), before))), NoGuard)
  }

  // ---------- transitions ----------

  /** `_start_transition` */
  function StartTransition(cfg: Config, row: Row, requested: Vector, source: RowSource, immediate: bool): (r: Row)
    requires Fits(cfg, row) && |requested| == cfg.channels
    ensures Fits(cfg, r)
  {
    if row.desired.None? then row.(guard := DesiredUnavailable)
    else
      var c := ContinuousTarget(cfg, row.current, requested, row.desired.value);
      var noted := row.(guard := c.guard, scale := c.scale, residual := c.residual);
      if c.target.None? then noted
      else
        var total := if immediate then 1 else cfg.transitionChunks;
        noted.(start := row.current, target := c.target.value, source := source, total := total, completed := 0,
               current := if total == 0 then c.target.value else row.current)
  }

  function Progress(completed: nat, total: nat): real
    requires total > 0
  {
    completed as real / total as real
  }

  /** `_advance_transition` */
  function AdvanceTransition(row: Row): (r: Row)
    requires |row.start| == |row.target|
  {
    if row.total <= 0 || row.completed >= row.total then row
    else
      row.(completed := row.completed + 1,
           current := Lerp(Progress(row.completed + 1, row.total), row.start, row.target))
  }

  // ---------- the desired vector ----------

  function Inverse(r: real): real {
    if r == 0.0 then 0.0 else 1.0 / r
  }

  /** `_valid_vector`: the unit vector of a payload of the right size, if it has a length. */
  function ValidVector(cfg: Config, v: Option<Vector>): (r: Option<Vector>)
    ensures r.Some? ==> |r.value| == cfg.channels
  {
    if v.None? || |v.value| != cfg.channels || Norm2(v.value) <= Square(cfg.numerics.tiny) then None
    else Some(Scale(FromReal(Inverse(cfg.numerics.sqrt(Norm2(v.value)))), v.value))
  }

  function PayloadOf(call: Call, satellite: int): Payload {
    if satellite in call.desired then call.desired[satellite] else Payload(None, None, None)
  }

  predicate IsFresh(call: Call, updated: Option<real>) {
    updated.Some? && 0.0 <= call.now - updated.value <= Max(0.1, call.maxAge)
  }

  /** A fresh, valid measurement for the satellite, as a unit vector. */
  function Measurement(cfg: Config, call: Call, satellite: int): (r: Option<Vector>)
    ensures r.Some? ==> |r.value| == cfg.channels
  {
    var p := PayloadOf(call, satellite);
    if IsFresh(call, p.updated) then ValidVector(cfg, p.vector) else None
  }

  /** The second branch's guard: a measurement taken after onset that the streak counts. */
  predicate Considered(cfg: Config, activation: Option<real>, row: Row, call: Call) {
    var p := PayloadOf(call, row.satellite);
    && call.enabled
    && row.desired.None?
    && Measurement(cfg, call, row.satellite).Some?
    && activation.Some?
    && p.updated.value > activation.value
    && p.counter.Some?
    && p.counter != row.lastCounter
  }

  /** Consecutive measurements are within the step limit. */
  predicate StepWithinLimit(cfg: Config, a: Vector, b: Vector)
    requires |a| == |b|
  {
    cfg.numerics.degrees(Coherence(cfg.numerics.tiny, a, b)) <= cfg.maxStepDegrees
  }

  /** The part of `advance` that maintains the desired vector; true when it is adopted. */
  function UpdateDesired(cfg: Config, activation: Option<real>, row: Row, call: Call): (r: (Row, bool))
    requires Fits(cfg, row)
    ensures Fits(cfg, r.0)
  {
    var measured := Measurement(cfg, call, row.satellite);
    var counter := PayloadOf(call, row.satellite).counter;
    if !call.enabled && measured.Some? then
      (row.(desired := Some(AlignToReference(cfg.numerics, measured.value, row.desired)),
            postVector := None, postCount := 0, lastCounter := counter), false)
    else if Considered(cfg, activation, row, call) then
      var aligned := AlignToReference(cfg.numerics, measured.value, row.postVector);
      var count :=
        if row.postVector.None? then 1
        else if StepWithinLimit(cfg, row.postVector.value, aligned) then row.postCount + 1
        else 1;
      var counted := row.(lastCounter := counter, postCount := count, postVector := Some(aligned));
      if count >= cfg.minUpdates then (counted.(desired := Some(AlignToReference(cfg.numerics, aligned, None))), true)
      else (counted, false)
    else (row, false)
  }

  // ---------- one call, one row ----------

  datatype Globals = Globals(enabledPrevious: bool, activation: Option<real>, lastProtection: Option<Vector>)

  const INITIAL_GLOBALS := Globals(false, None, None)

  predicate Rising(g: Globals, call: Call) {
    call.enabled && !g.enabledPrevious
  }

  predicate Falling(g: Globals, call: Call) {
    !call.enabled && g.enabledPrevious
  }

  predicate ProtectionChanged(g: Globals, call: Call) {
    call.available && g.lastProtection != Some(call.protection)
  }

  function GlobalsStep(g: Globals, call: Call): Globals {
    Globals(call.enabled,
            if Rising(g, call) then Some(call.now) else if Falling(g, call) then None else g.activation,
            if ProtectionChanged(g, call) then Some(call.protection) else g.lastProtection)
  }

  predicate ProtectionNeedsUpdate(g: Globals, row: Row, call: Call) {
    call.available && row.desired.Some? && (!row.source.OnBridge() || ProtectionChanged(g, call))
  }

  /** The choice of transition, for the row as `UpdateDesired` leaves it. */
  function ChooseTransition(cfg: Config, g: Globals, row: Row, adopted: bool, call: Call): (r: Row)
    requires Fits(cfg, row) && Sized(cfg, call)
    ensures Fits(cfg, r)
  {
    if Rising(g, call) && ProtectionNeedsUpdate(g, row, call) then
      StartTransition(cfg, row, call.protection, MeasuredU1, true)
    else if call.enabled && ProtectionNeedsUpdate(g, row, call) then
      StartTransition(cfg, row, call.protection, MeasuredU1, true)
    else if Falling(g, call) then
      StartTransition(cfg, row, call.common, UniformAfterJammer, false)
    else if adopted then
      StartTransition(cfg, row, call.protection, MeasuredU1NewPrn, true)
    else if !call.enabled && row.desired.None? then
      row.(current := call.common, start := call.common, target := call.common,
           source := WaitingForVector, total := 0, completed := 0)
    else row
  }

  function RowStep(cfg: Config, g: Globals, row: Row, call: Call): (r: Row)
    requires Fits(cfg, row) && Sized(cfg, call)
    ensures Fits(cfg, r)
  {
    var (updated, adopted) := UpdateDesired(cfg, GlobalsStep(g, call).activation, row, call);
    AdvanceTransition(ChooseTransition(cfg, g, updated, adopted, call))
  }

  /** The satellite that source `i` tracks in this call. */
  function ActiveSatellite(cfg: Config, call: Call, i: nat): Option<int> {
    if |cfg.fixedSatellites| > 0 then
      if i < |cfg.fixedSatellites| then Some(cfg.fixedSatellites[i]) else None
    else if i < |call.sources| then call.sources[i]
    else None
  }

  /** The state a row starts the call from: a new satellite gets a fresh row. */
  function Seated(row: Option<Row>, satellite: int, common: Vector): Row {
    if row.None? || row.value.satellite != satellite then FreshRow(satellite, common) else row.value
  }

  function SlotStep(cfg: Config, g: Globals, row: Option<Row>, i: nat, call: Call): (r: Option<Row>)
    requires Sized(cfg, call)
    requires row.Some? ==> Fits(cfg, row.value)
    ensures r.Some? ==> Fits(cfg, r.value)
  {
    var satellite := ActiveSatellite(cfg, call, i);
    if satellite.None? then row
    else Some(RowStep(cfg, g, Seated(row, satellite.value, call.common), call))
  }

  /** The logical weight row handed to source `i`. */
  function Emitted(cfg: Config, g: Globals, row: Option<Row>, i: nat, call: Call): (r: Vector)
    requires Sized(cfg, call)
    requires row.Some? ==> Fits(cfg, row.value)
  {
    if ActiveSatellite(cfg, call, i).None? then call.common
    else SlotStep(cfg, g, row, i, call).value.current
  }
}
