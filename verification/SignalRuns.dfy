/** The signals of whole runs: what the detectors answer to. */
module SignalRuns {
  import opened Trading
  import opened Indicators
  import opened Signals
  import opened Pipeline
  import opened PriceSeries

  /** A usable tick as the detectors see it: its score with the status, position and time shown. */
  function Seen(z: ZScoreSnapshot, tick: PriceTick): Tick {
    Tick(z.zscore, tick.status, tick.position, tick.time)
  }

  /** All usable ticks of a run as the detectors saw them. */
  function TraceOf(m: Maths, cfg: Config, ticks: seq<PriceTick>): seq<Tick>
    requires cfg.IndicatorsValid()
  {
    if |ticks| == 0 then []
    else
      var init, last := ticks[..|ticks| - 1], ticks[|ticks| - 1];
      var output := PipelineStep(m, cfg, PipelineAfter(m, cfg, FRESH_PIPELINE, init), last).1;
      TraceOf(m, cfg, init) + if output.Some? then [Seen(output.value.z, last)] else []
  }

  /** The settings of the detectors. */
  function EntrySettings(cfg: Config): EntryConfig {
    EntryConfig(cfg.strategy.entryZ, cfg.strategy.slZ, cfg.staleCross, cfg.extreme)
  }

  function ExitSettings(cfg: Config): ExitConfig {
    ExitConfig(cfg.strategy.tpZ, cfg.strategy.slZ, cfg.risk.maxHoldHours, cfg.risk.confirmBarsTp)
  }

  /** The detectors as a trace leaves them. */
  ghost predicate Traced(cfg: Config, trace: seq<Tick>, entry: EntryState, tpCount: nat) {
    entry == EntryAfter(EntrySettings(cfg), trace) && tpCount == ExitAfter(ExitSettings(cfg), trace)
  }

  lemma StepTraced(m: Maths, cfg: Config, s: PipelineState, trace: seq<Tick>, tick: PriceTick,
                   s': PipelineState, output: SignalOutput)
    requires cfg.IndicatorsValid() && Traced(cfg, trace, s.entry, s.tpCount)
    requires PipelineStep(m, cfg, s, tick) == (s', Some(output))
    ensures Traced(cfg, trace + [Seen(output.z, tick)], s'.entry, s'.tpCount)
    ensures output.entry == EntrySignalAt(EntrySettings(cfg), trace + [Seen(output.z, tick)])
    ensures output.exit == ExitSignalAt(ExitSettings(cfg), trace + [Seen(output.z, tick)])
  {
    var more := trace + [Seen(output.z, tick)];
    assert more[..|more| - 1] == trace;
  }

  lemma {:induction false} RunTraced(m: Maths, cfg: Config, ticks: seq<PriceTick>)
    requires cfg.IndicatorsValid()
    ensures var s := PipelineAfter(m, cfg, FRESH_PIPELINE, ticks); Traced(cfg, TraceOf(m, cfg, ticks), s.entry, s.tpCount)
  {
    if |ticks| > 0 {
      var init, last := ticks[..|ticks| - 1], ticks[|ticks| - 1];
      var s := PipelineAfter(m, cfg, FRESH_PIPELINE, init);
      var (s', output) := PipelineStep(m, cfg, s, last);
      RunTraced(m, cfg, init);
      if output.Some? {
        StepTraced(m, cfg, s, TraceOf(m, cfg, init), last, s', output.value);
      } else {
        RunFailsExactly(m, cfg, init, last);
        assert TraceOf(m, cfg, init) + [] == TraceOf(m, cfg, init);
      }
    }
  }

  /** In every run the signals are those that the detectors, with the configured thresholds, give for the
      scores of the run under the statuses and positions shown with them. */
  lemma RunSignals(m: Maths, cfg: Config, ticks: seq<PriceTick>, last: PriceTick)
    requires cfg.IndicatorsValid() && Usable(last.eth, last.btc)
    ensures var output := PipelineStep(m, cfg, PipelineAfter(m, cfg, FRESH_PIPELINE, ticks), last).1;
            && output.Some?
            && var trace := TraceOf(m, cfg, ticks) + [Seen(output.value.z, last)];
               && output.value.entry == EntrySignalAt(EntrySettings(cfg), trace)
               && output.value.exit == ExitSignalAt(ExitSettings(cfg), trace)
  {
    var s := PipelineAfter(m, cfg, FRESH_PIPELINE, ticks);
    var (s', output) := PipelineStep(m, cfg, s, last);
    RunTraced(m, cfg, ticks);
    RunFailsExactly(m, cfg, ticks, last);
    StepTraced(m, cfg, s, TraceOf(m, cfg, ticks), last, s', output.value);
  }

  /** So in every run a position is left for a stop-loss exactly when its score is at least `sl_z` away, and an
      entry needs a flat status and a score below that, at least `entry_z` away or of an enabled extreme. */
  lemma RunThresholds(m: Maths, cfg: Config, ticks: seq<PriceTick>, last: PriceTick)
    requires cfg.IndicatorsValid() && Usable(last.eth, last.btc)
    ensures var output := PipelineStep(m, cfg, PipelineAfter(m, cfg, FRESH_PIPELINE, ticks), last).1;
            && output.Some?
            && var z, entry, exit := output.value.z.zscore, output.value.entry, output.value.exit;
               && (exit.Some? && exit.value.reason == StopLoss <==>
                     last.status == InPosition && last.position.Some? && z.Some? && Far(z.value, cfg.strategy.slZ))
               && (exit.Some? && exit.value.reason == TakeProfit ==> z.Some? && !Beyond(z.value, cfg.strategy.tpZ))
               && (entry.Some? ==>
                     && last.status == Flat && z.Some? && !Far(z.value, cfg.strategy.slZ)
                     && (Far(z.value, cfg.strategy.entryZ) || (cfg.extreme.enabled && Far(z.value, cfg.extreme.minAbsZ))))
  {
    RunFailsExactly(m, cfg, ticks, last);
  }

  /** The score is at least, or more than, so far from zero on either side. */
  predicate Far(z: real, threshold: real) {
    z >= threshold || -z >= threshold
  }

  predicate Beyond(z: real, threshold: real) {
    z > threshold || -z > threshold
  }
}
