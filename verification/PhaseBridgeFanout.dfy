/** The bank and the fanout together: while every row is on the measured-U1 bridge with one
    protection vector, the fanout of the emitted rows is one beam, scaled for each output. */
module PhaseBridgeFanout {
  import opened ComplexVectors
  import opened SpatialVectors
  import opened PhaseRows
  import opened PhaseRuns
  import opened PhaseFanout

  /** The rows the last of the calls emits. */
  function EmittedRows(cfg: Config, calls: seq<Call>): (rows: Matrix)
    requires |calls| > 0 && Sized(cfg, Last(calls))
    ensures |rows| == cfg.sourceCount
  {
    seq(cfg.sourceCount,
        (i: nat) => Emitted(cfg, GlobalsAfter(cfg, Front(calls)), SlotAfter(cfg, i, Front(calls)), i, Last(calls)))
  }

  /** Every source has a satellite, and its row is on the bridge with `p` as the protection vector
      it accepted last. */
  ghost predicate AllBridged(cfg: Config, calls: seq<Call>, p: Vector)
    requires |calls| > 0 && Sized(cfg, Last(calls))
  {
    forall i: nat :: i < cfg.sourceCount ==> Bridged(cfg, i, calls, p)
  }

  ghost predicate Bridged(cfg: Config, i: nat, calls: seq<Call>, p: Vector)
    requires |calls| > 0 && Sized(cfg, Last(calls))
  {
    && ActiveSatellite(cfg, Last(calls), i).Some?
    && SlotAfter(cfg, i, calls).Some? && SlotAfter(cfg, i, calls).value.source.OnBridge()
    && LastAccepted(cfg, i, calls).Some? && calls[LastAccepted(cfg, i, calls).value].protection == p
  }

  lemma BridgedRow(cfg: Config, i: nat, calls: seq<Call>, p: Vector) returns (factor: Complex)
    requires |calls| > 0 && Sized(cfg, Last(calls)) && Bridged(cfg, i, calls, p)
    ensures |p| == cfg.channels
    ensures Emitted(cfg, GlobalsAfter(cfg, Front(calls)), SlotAfter(cfg, i, Front(calls)), i, Last(calls))
         == Scale(factor, p)
  {
    hide SlotStep, GlobalsAfter, LastAccepted;
    BridgeIsMultiple(cfg, i, calls);
    factor :| SlotAfter(cfg, i, calls).value.current == Scale(factor, p);
  }

  lemma {:induction false} BridgedRows(cfg: Config, calls: seq<Call>, p: Vector, n: nat) returns (factors: seq<Complex>)
    requires |calls| > 0 && Sized(cfg, Last(calls)) && AllBridged(cfg, calls, p) && n <= cfg.sourceCount
    ensures |factors| == n
    ensures forall i :: 0 <= i < n ==> EmittedRows(cfg, calls)[i] == Scale(factors[i], p)
  {
    hide Bridged, Emitted, SlotAfter, GlobalsAfter, Scale;
    if n == 0 {
      factors := [];
    } else {
      factors := BridgedRows(cfg, calls, p, n - 1);
      var factor := BridgedRow(cfg, n - 1, calls, p);
      factors := factors + [factor];
    }
  }

  /** In every run: when all rows are on the bridge with one accepted protection vector, every
      output of the fanout of the emitted rows is a scalar times that vector's one beam. */
  lemma BridgedFanoutIsOneBeam(cfg: Config, calls: seq<Call>, p: Vector, x: Array2, correction: Vector)
    returns (factors: seq<Complex>)
    requires |calls| > 0 && Sized(cfg, Last(calls)) && AllBridged(cfg, calls, p) && cfg.sourceCount > 0
    requires Sound(cfg.numerics) && WellShaped(x) && x.columns > 0
    requires |x.rows| == |correction| == cfg.channels
    ensures |factors| == cfg.sourceCount && |p| == cfg.channels
    ensures forall i :: 0 <= i < cfg.sourceCount ==> EmittedRows(cfg, calls)[i] == Scale(factors[i], p)
    ensures var r := ApplySharedPhaseFanout(cfg.numerics, x, Array2(EmittedRows(cfg, calls), cfg.channels), correction);
            && r.Fanout? && |r.outputs| == cfg.sourceCount
            && forall i :: 0 <= i < cfg.sourceCount ==>
                 r.outputs[i] == Scale(Conj(factors[i]), BeamRow(p, correction, x))
  {
    hide Bridged, Emitted, SlotAfter, GlobalsAfter, Scale, ApplySharedPhaseFanout, BeamRow, Sound, EmittedRows;
    factors := BridgedRows(cfg, calls, p, cfg.sourceCount);
    assert Bridged(cfg, 0, calls, p);
    var factor := BridgedRow(cfg, 0, calls, p);
    SharedVectorSharedBeam(cfg.numerics, x, Array2(EmittedRows(cfg, calls), cfg.channels), correction, p, factors);
  }
}
