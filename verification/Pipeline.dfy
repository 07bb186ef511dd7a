/** One bar through both indicators and both detectors, and what whole runs of bars show. */
module Pipeline {
  import opened Numbers
  import opened Trading
  import opened State
  import opened Indicators
  import opened Signals
  import opened ZScoreBound

  datatype SignalOutput = SignalOutput(
    r: real, z: ZScoreSnapshot, vol: VolatilitySnapshot,
    entry: Option<EntrySignal>, exit: Option<ExitSignal>)

  datatype PipelineState = PipelineState(z: ZState, vol: VolState, entry: EntryState, tpCount: nat)

  const FRESH_PIPELINE := PipelineState(FRESH_Z, FRESH_VOL, FRESH_ENTRY, 0)

  /** A price pair with the status and position the detectors are shown. */
  datatype PriceTick = PriceTick(
    time: int, eth: real, btc: real, status: StrategyStatus, position: Option<PositionSnapshot>)

  /** Nothing changes and there is no output when a price is not positive. */
  function PipelineStep(m: Maths, cfg: Config, s: PipelineState, tick: PriceTick)
    : (PipelineState, Option<SignalOutput>)
    requires cfg.IndicatorsValid()
  {
    match (RelativePrice(m, tick.eth, tick.btc), VolStep(m, cfg.position.nVol, s.vol, tick.eth, tick.btc))
    case (Some(r), Some((vol, volSnapshot))) =>
      var (z, zSnapshot) := ZStep(m, cfg.strategy.nZ, cfg.sigmaFloor, s.z, r);
      var (entry, entrySignal) := EntryStep(EntryConfigOf(cfg), s.entry, zSnapshot.zscore, tick.status);
      var (tpCount, exitSignal) :=
        ExitStep(ExitConfigOf(cfg), s.tpCount, zSnapshot.zscore, tick.status, tick.position, tick.time);
      (PipelineState(z, vol, entry, tpCount),
       Some(SignalOutput(r, zSnapshot, volSnapshot, entrySignal, exitSignal)))
    case _ => (s, None)
  }

  class SignalPipeline {
    const zcalc: ZScoreCalculator
    const volcalc: VolatilityCalculator
    const entryDetector: EntrySignalDetector
    const exitDetector: ExitSignalDetector

    ghost function Repr(): set<object> {
      {zcalc.window, zcalc.sigmaFloor.history, volcalc, volcalc.ethReturns, volcalc.btcReturns,
       entryDetector, exitDetector}
    }

    ghost predicate Valid(cfg: Config)
      reads Repr()
    {
      && {zcalc.window, zcalc.sigmaFloor.history} !! {volcalc.ethReturns, volcalc.btcReturns}
      && zcalc.Valid() && volcalc.Valid()
      && zcalc.nZ == cfg.strategy.nZ && zcalc.sigmaFloor.cfg == cfg.sigmaFloor
      && volcalc.nVol == cfg.position.nVol
      && entryDetector.cfg == EntryConfigOf(cfg) && exitDetector.cfg == ExitConfigOf(cfg)
      && cfg.IndicatorsValid()
    }

    ghost function View(): PipelineState
      reads Repr()
    {
      PipelineState(zcalc.View(), volcalc.View(), entryDetector.View(), exitDetector.tpCount)
    }

    constructor (cfg: Config)
      requires cfg.IndicatorsValid()
      ensures Valid(cfg) && View() == FRESH_PIPELINE && fresh(Repr())
    {
      zcalc := new ZScoreCalculator(cfg.strategy.nZ, cfg.sigmaFloor);
      volcalc := new VolatilityCalculator(cfg.position.nVol);
      entryDetector := new EntrySignalDetector(EntryConfigOf(cfg));
      exitDetector := new ExitSignalDetector(ExitConfigOf(cfg));
    }

    /** The two indicators of a usable tick. */
    method Measure(m: Maths, ghost cfg: Config, tick: PriceTick, rel: real) returns (z: ZScoreSnapshot, vol: VolatilitySnapshot)
      requires Valid(cfg) && RelativePrice(m, tick.eth, tick.btc) == Some(rel)
      modifies zcalc.window, zcalc.sigmaFloor.history, volcalc, volcalc.ethReturns, volcalc.btcReturns
      ensures Valid(cfg)
      ensures (zcalc.View(), z) == ZStep(m, cfg.strategy.nZ, cfg.sigmaFloor, old(zcalc.View()), rel)
      ensures VolStep(m, cfg.position.nVol, old(volcalc.View()), tick.eth, tick.btc) == Some((volcalc.View(), vol))
      ensures unchanged(entryDetector) && unchanged(exitDetector)
    {
      z := zcalc.Update(m, rel);
      var v := volcalc.Update(m, tick.eth, tick.btc);
      vol := v.value;
    }

    method Update(m: Maths, ghost cfg: Config, tick: PriceTick) returns (r: Option<SignalOutput>)
      requires Valid(cfg)
      modifies Repr()
      ensures Valid(cfg)
      ensures (View(), r) == PipelineStep(m, cfg, old(View()), tick)
    {
      var rel := RelativePrice(m, tick.eth, tick.btc);
      if rel.None? {
        return None;
      }
      var z, vol := Measure(m, cfg, tick, rel.value);
      var entry := entryDetector.Update(z.zscore, tick.status);
      var exit := exitDetector.Evaluate(z.zscore, tick.status, tick.position, tick.time);
      return Some(SignalOutput(rel.value, z, vol, entry, exit));
    }
  }

  /** The constructors' error path: a pipeline exists exactly for acceptable indicator settings. */
  method NewPipeline(cfg: Config) returns (r: Option<SignalPipeline>)
    ensures r.Some? <==> cfg.IndicatorsValid()
    ensures r.Some? ==> fresh(r.value) && fresh(r.value.Repr()) && r.value.Valid(cfg)
                        && r.value.View() == FRESH_PIPELINE
  {
    if !cfg.IndicatorsValid() {
      return None;
    }
    var pipeline := new SignalPipeline(cfg);
    return Some(pipeline);
  }

  // ---- runs -------------------------------------------------------------------------

  function PipelineAfter(m: Maths, cfg: Config, s: PipelineState, ticks: seq<PriceTick>): PipelineState
    requires cfg.IndicatorsValid()
  {
    if |ticks| == 0 then s
    else PipelineStep(m, cfg, PipelineAfter(m, cfg, s, ticks[..|ticks| - 1]), ticks[|ticks| - 1]).0
  }

  /** What every pipeline state keeps: windows within capacity and usable last prices. */
  predicate Sound(cfg: Config, s: PipelineState) {
    && |s.z.window| <= cfg.strategy.nZ && |s.z.sigmas| <= SigmaCapacity(cfg.sigmaFloor)
    && |s.vol.eth| <= cfg.position.nVol && |s.vol.btc| <= cfg.position.nVol
    && VolSound(s.vol)
  }

  /** An update fails exactly on a non-positive price, and then changes nothing. */
  lemma StepKeepsSound(m: Maths, cfg: Config, s: PipelineState, tick: PriceTick)
    requires cfg.IndicatorsValid() && Sound(cfg, s)
    ensures Sound(cfg, PipelineStep(m, cfg, s, tick).0)
    ensures PipelineStep(m, cfg, s, tick).1.None? <==> tick.eth <= 0.0 || tick.btc <= 0.0
    ensures PipelineStep(m, cfg, s, tick).1.None? ==> PipelineStep(m, cfg, s, tick).0 == s
  {
  }

  lemma {:induction false} RunKeepsSound(m: Maths, cfg: Config, s: PipelineState, ticks: seq<PriceTick>)
    requires cfg.IndicatorsValid() && Sound(cfg, s)
    ensures Sound(cfg, PipelineAfter(m, cfg, s, ticks))
  {
    if |ticks| > 0 {
      RunKeepsSound(m, cfg, s, ticks[..|ticks| - 1]);
      StepKeepsSound(m, cfg, PipelineAfter(m, cfg, s, ticks[..|ticks| - 1]), ticks[|ticks| - 1]);
    }
  }

  /** In every run an update fails exactly on a non-positive price, and then changes nothing. */
  lemma RunFailsExactly(m: Maths, cfg: Config, ticks: seq<PriceTick>, last: PriceTick)
    requires cfg.IndicatorsValid()
    ensures var s := PipelineAfter(m, cfg, FRESH_PIPELINE, ticks);
            var step := PipelineStep(m, cfg, s, last);
            (step.1.None? <==> last.eth <= 0.0 || last.btc <= 0.0) && (step.1.None? ==> step.0 == s)
  {
    RunKeepsSound(m, cfg, FRESH_PIPELINE, ticks);
    StepKeepsSound(m, cfg, PipelineAfter(m, cfg, FRESH_PIPELINE, ticks), last);
  }

  /** In every run, every emitted score obeys z^2 <= n_z - 1.  A stop-loss threshold beyond that
      bound is therefore never reached, and neither is an entry threshold. */
  lemma RunScoresBounded(m: Maths, cfg: Config, ticks: seq<PriceTick>, last: PriceTick)
    requires m.Sound() && cfg.IndicatorsValid()
    ensures var output := PipelineStep(m, cfg, PipelineAfter(m, cfg, FRESH_PIPELINE, ticks), last).1;
            output.Some? ==>
              var limit := (cfg.strategy.nZ - 1) as real;
              && (output.value.z.zscore.Some? ==> Sq(output.value.z.zscore.value) <= limit)
              && (cfg.strategy.slZ >= 0.0 && Sq(cfg.strategy.slZ) > limit && output.value.exit.Some? ==>
                    output.value.exit.value.reason != StopLoss)
              && (cfg.strategy.entryZ >= 0.0 && Sq(cfg.strategy.entryZ) > limit && !cfg.extreme.enabled ==>
                    output.value.entry.None?)
              && (cfg.strategy.entryZ >= 0.0 && Sq(cfg.strategy.entryZ) > limit
                  && cfg.extreme.minAbsZ >= 0.0 && Sq(cfg.extreme.minAbsZ) > limit ==>
                    output.value.entry.None?)
  {
    RunKeepsSound(m, cfg, FRESH_PIPELINE, ticks);
    var s := PipelineAfter(m, cfg, FRESH_PIPELINE, ticks);
    var output := PipelineStep(m, cfg, s, last).1;
    if output.Some? && output.value.z.zscore.Some? {
      var z, limit := output.value.z.zscore.value, (cfg.strategy.nZ - 1) as real;
      ZScoreBounded(m, cfg.strategy.nZ, cfg.sigmaFloor, s.z, output.value.r);
      if cfg.strategy.slZ >= 0.0 && Sq(cfg.strategy.slZ) > limit {
        BeyondBoundUnreachable(z, cfg.strategy.slZ, limit);
      }
      if cfg.strategy.entryZ >= 0.0 && Sq(cfg.strategy.entryZ) > limit {
        BeyondBoundUnreachable(z, cfg.strategy.entryZ, limit);
      }
      if cfg.extreme.minAbsZ >= 0.0 && Sq(cfg.extreme.minAbsZ) > limit {
        BeyondBoundUnreachable(z, cfg.extreme.minAbsZ, limit);
      }
    }
  }

  /** Entry needs a flat book and exit an open one, so one bar never signals both. */
  lemma OutputExclusive(m: Maths, cfg: Config, s: PipelineState, tick: PriceTick)
    requires cfg.IndicatorsValid()
    ensures var output := PipelineStep(m, cfg, s, tick).1;
            output.Some? ==>
              && (output.value.entry.Some? ==> tick.status == Flat && output.value.exit.None?)
              && (output.value.exit.Some? ==> tick.status == InPosition && tick.position.Some?)
  {
  }
}
