/** Whole runs of the live program: cycles against any exchange, crashes and restarts. */
module Runs {
  import opened Trading
  import opened Bars
  import opened State
  import opened Indicators
  import opened Pipeline
  import opened Execution
  import opened Strategy
  import opened EngineInvariants
  import opened BookSafety

  /** The running engine and the state last written to disk. */
  datatype System = System(engine: EngineState, saved: Option<StrategyState>)

  const FRESH_SYSTEM := System(FRESH_ENGINE, None)

  /** How the state was written at the end of a cycle, which is tried after failed cycles too.  A
      process killed before that is a failed write followed by a restart. */
  datatype Save = Saved | SaveFailed | NoStore

  /** A cycle meets the exchange as it then is: between cycles anything may have happened to it.  A
      restart loads and recovers the saved state and replays price records. */
  datatype Event =
    | Cycle(clock: int, venue: Venue, report: Option<Report>, bar: BarInput, save: Save)
    | Restart(clock: int, records: seq<PriceRecord>)

  /** The engine of a new process. */
  function Restarted(saved: Option<StrategyState>, clock: int): Option<EngineState> {
    match saved
    case None => Some(FRESH_ENGINE)
    case Some(s) => Applied(FRESH_ENGINE, Recovered(s, clock).state)
  }

  /** The state is written after every cycle, whether it succeeded or failed. */
  function Written(sys: System, e: EngineState, save: Save): System {
    System(e, if save == Saved then Some(e.machine) else sys.saved)
  }

  function Next(m: Maths, cfg: Config, sys: System, event: Event): System
    requires cfg.IndicatorsValid()
  {
    match event
    case Cycle(_, venue, report, bar, save) =>
      Written(sys, RunCycle(m, cfg, sys.engine, venue, report, bar).engine, save)
    case Restart(clock, records) =>
      match Restarted(sys.saved, clock)
      case None => sys
      case Some(e) => sys.(engine := WarmUp(m, cfg, e, records).0)
  }

  function After(m: Maths, cfg: Config, sys: System, events: seq<Event>): System
    requires cfg.IndicatorsValid()
  {
    if |events| == 0 then sys else Next(m, cfg, After(m, cfg, sys, events[..|events| - 1]), events[|events| - 1])
  }

  // ---- reachable states ----------------------------------------------------------------------

  ghost predicate SystemSound(cfg: Config, sys: System) {
    && EngineSound(cfg, sys.engine) && sys.engine.events == [] && sys.engine.logs == []
    && (sys.saved.Some? ==> MachineSound(sys.saved.value))
  }

  /** Cycles meet exchanges that the settings fit: any live one, or a paper one with representable
      steps. */
  ghost predicate VenuesFit(cfg: Config, events: seq<Event>) {
    forall i :: 0 <= i < |events| && events[i].Cycle? ==> Fits(cfg, events[i].venue)
  }

  predicate RecordsBefore(records: seq<PriceRecord>, u: int) {
    forall i :: 0 <= i < |records| ==> records[i].time < u
  }

  lemma {:induction false} InsertKeepsBefore(records: seq<PriceRecord>, r: PriceRecord, u: int)
    requires RecordsBefore(records, u) && r.time < u
    ensures RecordsBefore(InsertByTime(records, r), u)
  {
    if |records| > 0 && r.time >= records[0].time {
      InsertKeepsBefore(records[1..], r, u);
    }
  }

  lemma {:induction false} SortKeepsBefore(records: seq<PriceRecord>, u: int)
    requires RecordsBefore(records, u)
    ensures RecordsBefore(SortByTime(records), u)
  {
    if |records| > 0 {
      SortKeepsBefore(records[..|records| - 1], u);
      InsertKeepsBefore(SortByTime(records[..|records| - 1]), records[|records| - 1], u);
    }
  }

  /** A cooldown that lasts beyond all records. */
  predicate CoolsThrough(s: StrategyState, records: seq<PriceRecord>) {
    s.status == Cooldown && s.cooldownUntil.Some? && RecordsBefore(records, s.cooldownUntil.value)
  }

  /** A warm-up keeps the engine sound, touches no PnL, and can only end a cooldown, which it does
      not do before its release. */
  ghost predicate WarmUpKeepsEngine(cfg: Config, e: EngineState, records: seq<PriceRecord>, e': EngineState) {
    && EngineSound(cfg, e') && e'.cumulative == e.cumulative && e'.events == e.events && e'.logs == e.logs
    && (e'.machine == e.machine || e'.machine.status == Flat)
    && (CoolsThrough(e.machine, records) ==> e'.machine == e.machine)
  }

  lemma {:induction false} ReplayKeeps(m: Maths, cfg: Config, e: EngineState, records: seq<PriceRecord>)
    requires cfg.IndicatorsValid() && EngineSound(cfg, e)
    ensures WarmUpKeepsEngine(cfg, e, records, ReplayRecords(m, cfg, e, records).0)
    decreases |records|
  {
    if |records| > 0 {
      var r := records[0];
      var e1 := e.(machine := Updated(e.machine, r.time));
      var (eth, btc) := (r.eth.Selected(cfg.priceField), r.btc.Selected(cfg.priceField));
      if eth.Some? && btc.Some? {
        var tick := PriceTick(r.time, eth.value, btc.value, e1.machine.status, e1.machine.position);
        StepKeepsSound(m, cfg, e1.signals, tick);
        ReplayKeeps(m, cfg, e1.(signals := PipelineStep(m, cfg, e1.signals, tick).0), records[1..]);
      }
    }
  }

  lemma WarmUpKeeps(m: Maths, cfg: Config, e: EngineState, records: seq<PriceRecord>)
    requires cfg.IndicatorsValid() && EngineSound(cfg, e)
    ensures WarmUpKeepsEngine(cfg, e, records, WarmUp(m, cfg, e, records).0)
  {
    ReplayKeeps(m, cfg, e, SortByTime(records));
    if e.machine.status == Cooldown && RecordsBefore(records, e.machine.cooldownUntil.value) {
      SortKeepsBefore(records, e.machine.cooldownUntil.value);
    }
  }

  /** Recovery always succeeds, and gives the engine the saved cumulative PnL. */
  lemma RestartKeeps(cfg: Config, saved: Option<StrategyState>, clock: int)
    requires saved.Some? ==> MachineSound(saved.value)
    ensures var e := Restarted(saved, clock);
            && e.Some? && EngineSound(cfg, e.value)
            && e.value.cumulative == (if saved.Some? then saved.value.cumulative else 0.0)
            && e.value.events == [] && e.value.logs == []
  {
  }

  lemma NextKeeps(m: Maths, cfg: Config, sys: System, event: Event)
    requires cfg.IndicatorsValid() && SystemSound(cfg, sys)
    requires event.Cycle? ==> Fits(cfg, event.venue)
    ensures SystemSound(cfg, Next(m, cfg, sys, event))
  {
    match event
    case Cycle(_, venue, report, bar, _) =>
      CycleKeeps(m, cfg, sys.engine, venue, report, bar);
      NothingWaits(m, cfg, sys.engine, venue, report, bar);
    case Restart(clock, records) =>
      RestartKeeps(cfg, sys.saved, clock);
      WarmUpKeeps(m, cfg, Restarted(sys.saved, clock).value, records);
  }

  /** A cycle leaves no event and no log waiting. */
  lemma NothingWaits(m: Maths, cfg: Config, e: EngineState, v: Venue, report: Option<Report>, bar: BarInput)
    requires cfg.IndicatorsValid() && EngineSound(cfg, e) && Fits(cfg, v) && e.events == [] && e.logs == []
    ensures var c := RunCycle(m, cfg, e, v, report, bar); c.engine.events == [] && c.engine.logs == []
  {
    var r := ReconcileOf(cfg, e, v, report);
    if report.Some? {
      ReconciliationKeeps(cfg, e, v, report.value);
      if r.error.Some? {
        ReconcileErrorKeepsLogs(cfg, e, v, report.value);
      }
    }
    if r.error.None? {
      BarKeeps(m, cfg, r.engine, r.venue, bar);
    }
  }

  function ReconcileOf(cfg: Config, e: EngineState, v: Venue, report: Option<Report>): Reconciled {
    if report.Some? then Reconcile(cfg, e, v, report.value) else Reconciled(e, v, None)
  }

  lemma ReconcileErrorKeepsLogs(cfg: Config, e: EngineState, v: Venue, x: Report)
    requires EngineSound(cfg, e) && v.Sound() && Reconcile(cfg, e, v, x).error.Some?
    ensures Reconcile(cfg, e, v, x).engine == e
  {
    if !x.exposure.IsFlat() && !x.exposure.HasResidual() && e.machine.status == PendingEntry {
      ReconcilePendingKeeps(cfg, e, v, x);
    }
  }

  /** Every reachable system is sound: each status carries exactly its payload, positions have both
      legs, engine and machine agree on the PnL, nothing waits to be reported between cycles, and the
      saved state can be recovered. */
  lemma {:induction false} ReachableSound(m: Maths, cfg: Config, events: seq<Event>)
    requires cfg.IndicatorsValid() && VenuesFit(cfg, events)
    ensures SystemSound(cfg, After(m, cfg, FRESH_SYSTEM, events))
  {
    if |events| > 0 {
      ReachableSound(m, cfg, events[..|events| - 1]);
      NextKeeps(m, cfg, After(m, cfg, FRESH_SYSTEM, events[..|events| - 1]), events[|events| - 1]);
    }
  }

  /** In every run no transition of the state machine is ever refused. */
  lemma NoTransitionRefused(m: Maths, cfg: Config, events: seq<Event>, last: Event)
    requires cfg.IndicatorsValid() && VenuesFit(cfg, events) && last.Cycle? && Fits(cfg, last.venue)
    ensures var sys := After(m, cfg, FRESH_SYSTEM, events);
            var result := RunCycle(m, cfg, sys.engine, last.venue, last.report, last.bar).result;
            result != Failed(TransitionRefused) && result != Failed(SnapshotMissing)
  {
    ReachableSound(m, cfg, events);
    CycleKeeps(m, cfg, After(m, cfg, FRESH_SYSTEM, events).engine, last.venue, last.report, last.bar);
  }

  /** In every run of cycles that reconcile a faithful exposure of a live exchange and whose repair
      (if any) fills in full, every cycle is safe: it never acts on a wrong book. */
  lemma RunNeverActsOnWrongBook(m: Maths, cfg: Config, events: seq<Event>, i: nat)
    requires cfg.IndicatorsValid() && VenuesFit(cfg, events) && i < |events|
    requires events[i].Cycle? && !events[i].venue.paper && events[i].report.Some?
    requires var e, v, x := After(m, cfg, FRESH_SYSTEM, events[..i]).engine, events[i].venue, events[i].report.value;
             Faithful(x.exposure, v.book) && RepairsInFull(cfg, e, v, x)
    ensures SafeCycle(m, cfg, After(m, cfg, FRESH_SYSTEM, events[..i]).engine, events[i].venue, events[i].report.value, events[i].bar)
  {
    ReachableSound(m, cfg, events[..i]);
    CycleNeverActsOnWrongBook(m, cfg, After(m, cfg, FRESH_SYSTEM, events[..i]).engine, events[i].venue,
                              events[i].report.value, events[i].bar);
  }

  // ---- cooldown --------------------------------------------------------------------------------

  predicate CoolingUntil(s: StrategyState, u: int) {
    s.status == Cooldown && s.cooldownUntil == Some(u)
  }

  /** A cooldown until `u` in the running engine. */
  ghost predicate Cooling(cfg: Config, sys: System, u: int) {
    SystemSound(cfg, sys) && CoolingUntil(sys.engine.machine, u)
  }

  /** A cooldown until `u` in the saved state. */
  predicate OnDisk(sys: System, u: int) {
    sys.saved.Some? && CoolingUntil(sys.saved.value, u)
  }

  /** In a cooldown a bar before the release does nothing but feed the indicators. */
  lemma CoolingBarIdle(m: Maths, cfg: Config, e: EngineState, v: Venue, bar: BarInput, u: int)
    requires cfg.IndicatorsValid() && EngineSound(cfg, e) && CoolingUntil(e.machine, u) && bar.time < u
    requires e.events == [] && e.logs == []
    ensures var (e', v', result) := ProcessBar(m, cfg, e, v, bar);
            && v' == v && e' == e.(signals := e'.signals)
            && (result == Processed([], []) || result == Failed(IndicatorFailed))
  {
    OutputExclusive(m, cfg, e.signals, TickOf(e, bar));
    assert Prepare(cfg, e, v, bar) == Continue(TakePending(e, v));
  }

  lemma CoolingCycleIdle(m: Maths, cfg: Config, e: EngineState, v: Venue, report: Option<Report>, bar: BarInput, u: int)
    requires cfg.IndicatorsValid() && EngineSound(cfg, e) && CoolingUntil(e.machine, u) && bar.time < u
    requires e.events == [] && e.logs == []
    requires report.Some? ==> !report.value.exposure.HasResidual()
    ensures var c := RunCycle(m, cfg, e, v, report, bar);
            && c.venue == v && c.engine == e.(signals := c.engine.signals)
            && (c.result.Processed? ==> c.result == Processed([], []))
  {
    CoolingBarIdle(m, cfg, e, v, bar, u);
  }

  /** Events that happen before `u` and show no single leg. */
  ghost predicate Before(event: Event, u: int) {
    match event
    case Cycle(clock, _, report, bar, _) =>
      bar.time < u && (report.Some? ==> !report.value.exposure.HasResidual())
    case Restart(clock, records) =>
      clock < u && RecordsBefore(records, u)
  }

  /** A cycle writes its state, a restart does not. */
  predicate Saves(event: Event) {
    event.Cycle? && event.save == Saved
  }

  predicate SavesBefore(events: seq<Event>, i: nat)
    requires i <= |events|
  {
    exists j :: 0 <= j < i && Saves(events[j])
  }

  /** Every restart finds the cooldown on disk: from before the events, or written among them. */
  ghost predicate RestartsCovered(onDisk: bool, events: seq<Event>) {
    forall i :: 0 <= i < |events| && events[i].Restart? ==> onDisk || SavesBefore(events, i)
  }

  lemma CoolingStep(m: Maths, cfg: Config, sys: System, event: Event, u: int)
    requires cfg.IndicatorsValid() && Cooling(cfg, sys, u) && Before(event, u)
    requires if event.Cycle? then Fits(cfg, event.venue) else OnDisk(sys, u)
    ensures var sys' := Next(m, cfg, sys, event);
            Cooling(cfg, sys', u) && (OnDisk(sys', u) <==> OnDisk(sys, u) || Saves(event))
  {
    NextKeeps(m, cfg, sys, event);
    match event
    case Cycle(_, venue, report, bar, _) => CoolingCycleIdle(m, cfg, sys.engine, venue, report, bar, u);
    case Restart(clock, records) =>
      RestartKeeps(cfg, sys.saved, clock);
      WarmUpKeeps(m, cfg, Restarted(sys.saved, clock).value, records);
  }

  lemma {:induction false} CoolingAlong(m: Maths, cfg: Config, sys: System, events: seq<Event>, u: int)
    requires cfg.IndicatorsValid() && Cooling(cfg, sys, u) && VenuesFit(cfg, events)
    requires forall i :: 0 <= i < |events| ==> Before(events[i], u)
    requires RestartsCovered(OnDisk(sys, u), events)
    ensures var sys' := After(m, cfg, sys, events);
            Cooling(cfg, sys', u) && (OnDisk(sys', u) <==> OnDisk(sys, u) || SavesBefore(events, |events|))
  {
    if |events| > 0 {
      var init, last := events[..|events| - 1], events[|events| - 1];
      forall i | 0 <= i < |init| && init[i].Restart?
        ensures OnDisk(sys, u) || SavesBefore(init, i)
      {
        assert events[i].Restart?;
        if !OnDisk(sys, u) {
          var j :| 0 <= j < i && Saves(events[j]);
          assert Saves(init[j]);
        }
      }
      CoolingAlong(m, cfg, sys, init, u);
      SavesSnoc(events);
      if last.Restart? {
        assert OnDisk(sys, u) || SavesBefore(events, |events| - 1);
        SavesPrefix(events, |events| - 1);
      }
      CoolingStep(m, cfg, After(m, cfg, sys, init), last, u);
    }
  }

  lemma SavesPrefix(events: seq<Event>, n: nat)
    requires n <= |events|
    ensures SavesBefore(events, n) <==> SavesBefore(events[..n], n)
  {
    if SavesBefore(events, n) {
      var j :| 0 <= j < n && Saves(events[j]);
      assert Saves(events[..n][j]);
    }
    if SavesBefore(events[..n], n) {
      var j :| 0 <= j < n && Saves(events[..n][j]);
      assert Saves(events[j]);
    }
  }

  lemma SavesSnoc(events: seq<Event>)
    requires |events| > 0
    ensures SavesBefore(events, |events|)
            <==> SavesBefore(events[..|events| - 1], |events| - 1) || Saves(events[|events| - 1])
  {
    var n := |events| - 1;
    SavesPrefix(events, n);
    if SavesBefore(events, |events|) {
      var j :| 0 <= j < |events| && Saves(events[j]);
      if j < n {
        assert SavesBefore(events, n);
      }
    }
    if SavesBefore(events, n) {
      var j :| 0 <= j < n && Saves(events[j]);
      assert SavesBefore(events, |events|);
    }
    if Saves(events[n]) {
      assert SavesBefore(events, |events|);
    }
  }

  /** A restart during the cooldown keeps it exactly when it is on disk, that is, when it was before
      or a save has succeeded since. */
  lemma RestartKeepsCooldownIff(m: Maths, cfg: Config, sys: System, cycles: seq<Event>, restart: Event, u: int)
    requires cfg.IndicatorsValid() && Cooling(cfg, sys, u) && VenuesFit(cfg, cycles)
    requires forall i :: 0 <= i < |cycles| ==> cycles[i].Cycle? && Before(cycles[i], u)
    requires restart.Restart? && Before(restart, u)
    ensures CoolingUntil(After(m, cfg, sys, cycles + [restart]).engine.machine, u)
            <==> OnDisk(sys, u) || SavesBefore(cycles, |cycles|)
  {
    CoolingAlong(m, cfg, sys, cycles, u);
    var sys' := After(m, cfg, sys, cycles);
    assert (cycles + [restart])[..|cycles|] == cycles;
    RestartKeeps(cfg, sys'.saved, restart.clock);
    WarmUpKeeps(m, cfg, Restarted(sys'.saved, restart.clock).value, restart.records);
  }

  /** The clock never runs backwards, a cycle works on the bar its clock falls in, a restart replays
      no record of the future, and no reconciliation sees a single leg. */
  ghost predicate OrderlyClock(events: seq<Event>) {
    && (forall i, j :: 0 <= i <= j < |events| ==> events[i].clock <= events[j].clock)
    && (forall i :: 0 <= i < |events| && events[i].Cycle? ==>
          events[i].bar.time == AlignToBarClose(events[i].clock)
          && (events[i].report.Some? ==> !events[i].report.value.exposure.HasResidual()))
    && (forall i, k :: 0 <= i < |events| && events[i].Restart? && 0 <= k < |events[i].records| ==>
          events[i].records[k].time <= events[i].clock)
  }

  /** In a cooldown, through any run whose restarts find it on disk, every cycle before the release
      leaves it in place, reports no event and sends nothing to the exchange. */
  lemma NoEntryBeforeRelease(m: Maths, cfg: Config, sys: System, events: seq<Event>, i: nat, u: int)
    requires cfg.IndicatorsValid() && Cooling(cfg, sys, u) && Aligned(u)
    requires VenuesFit(cfg, events) && OrderlyClock(events) && RestartsCovered(OnDisk(sys, u), events)
    requires i < |events| && events[i].Cycle? && events[i].bar.time < u
    ensures var before := After(m, cfg, sys, events[..i]);
            var c := RunCycle(m, cfg, before.engine, events[i].venue, events[i].report, events[i].bar);
            && CoolingUntil(before.engine.machine, u) && CoolingUntil(c.engine.machine, u)
            && c.venue == events[i].venue
            && (c.result.Processed? ==> c.result == Processed([], []))
  {
    BarBeforeMeansMomentBefore(events[i].clock, u);
    forall j | 0 <= j < i
      ensures Before(events[..i][j], u)
    {
      assert events[j].clock <= events[i].clock;
      BarBeforeMeansMomentBefore(events[j].clock, u);
    }
    CoveredPrefix(OnDisk(sys, u), events, i);
    CoolingAlong(m, cfg, sys, events[..i], u);
    CoolingCycleIdle(m, cfg, After(m, cfg, sys, events[..i]).engine, events[i].venue, events[i].report, events[i].bar, u);
  }

  lemma CoveredPrefix(onDisk: bool, events: seq<Event>, n: nat)
    requires n <= |events| && RestartsCovered(onDisk, events)
    ensures RestartsCovered(onDisk, events[..n])
  {
    forall i | 0 <= i < n && events[..n][i].Restart?
      ensures onDisk || SavesBefore(events[..n], i)
    {
      assert events[i].Restart?;
      if !onDisk {
        var j :| 0 <= j < i && Saves(events[j]);
        assert Saves(events[..n][j]);
      }
    }
  }

  /** A single leg seen during a cooldown ends it: exactly when its repair succeeds the machine is
      made flat, long before the release. */
  lemma ResidualRepairEndsCooldown(cfg: Config, e: EngineState, v: Venue, x: Report, u: int)
    requires EngineSound(cfg, e) && CoolingUntil(e.machine, u) && x.exposure.HasResidual()
    ensures var r := Reconcile(cfg, e, v, x);
            if r.error.None? then r.engine.machine.status == Flat else CoolingUntil(r.engine.machine, u)
  {
  }

  // ---- how a cooldown starts -------------------------------------------------------------------

  /** The bar ended in a cooldown begun by its own stop-loss exit. */
  ghost predicate StartsCooldown(cfg: Config, bar: BarInput, e: EngineState, result: BarResult) {
    && CoolingUntil(e.machine, Release(cfg, bar))
    && result.Processed? && ExitMade(StopLoss) in result.events
  }

  lemma EntryAvoidsCooldown(cfg: Config, t: Turn, bar: BarInput, output: SignalOutput)
    requires t.engine.machine.status != Cooldown
    ensures EnterIfSignalled(cfg, t, bar, output).turn.engine.machine.status != Cooldown
  {
  }

  lemma ExitStartsCooldown(cfg: Config, t: Turn, bar: BarInput, output: SignalOutput)
    requires TurnSound(cfg, t) && t.engine.machine.status != Cooldown
    ensures var p := ExitIfSignalled(cfg, t, bar, output);
            p.turn.engine.machine.status == Cooldown ==> StartsCooldown(cfg, bar, p.turn.engine, ResultOf(p))
  {
    var s := t.engine.machine;
    if output.exit.Some? && s.position.Some? {
      var (v', r) := ClosePair(t.venue, ExitOrder(cfg, EthPerp, s.position.value.eth.qty, bar.eth),
                               ExitOrder(cfg, BtcPerp, s.position.value.btc.qty, bar.btc), cfg.execution.maxAttempts);
      if r.Ok? {
        assert s.status == InPosition;
      }
    }
  }

  lemma TradeStartsCooldown(m: Maths, cfg: Config, t: Turn, bar: BarInput)
    requires cfg.IndicatorsValid() && TurnSound(cfg, t) && Fits(cfg, t.venue) && t.engine.machine.status != Cooldown
    ensures var p := TradeSignals(m, cfg, t, bar);
            p.turn.engine.machine.status == Cooldown ==> StartsCooldown(cfg, bar, p.turn.engine, ResultOf(p))
  {
    var (signals, output) := PipelineStep(m, cfg, t.engine.signals, TickOf(t.engine, bar));
    StepKeepsSound(m, cfg, t.engine.signals, TickOf(t.engine, bar));
    OutputExclusive(m, cfg, t.engine.signals, TickOf(t.engine, bar));
    var t' := t.(engine := t.engine.(signals := signals));
    if output.Some? {
      EntryAvoidsCooldown(cfg, t', bar, output.value);
      EnterKeeps(cfg, t', bar, output.value);
      var p := EnterIfSignalled(cfg, t', bar, output.value);
      if p.Continue? {
        ExitStartsCooldown(cfg, p.turn, bar, output.value);
      }
    }
  }

  lemma BarStartsCooldown(m: Maths, cfg: Config, e: EngineState, v: Venue, bar: BarInput)
    requires cfg.IndicatorsValid() && EngineSound(cfg, e) && Fits(cfg, v)
    requires e.machine.status != Cooldown
    ensures var (e', v', result) := ProcessBar(m, cfg, e, v, bar);
            e'.machine.status == Cooldown ==> StartsCooldown(cfg, bar, e', result)
  {
    PrepareKeeps(cfg, e, v, bar);
    PrepareAvoidsCooldown(cfg, e, v, bar);
    var p := Prepare(cfg, e, v, bar);
    if p.Continue? {
      TradeStartsCooldown(m, cfg, p.turn, bar);
    }
  }

  lemma PrepareAvoidsCooldown(cfg: Config, e: EngineState, v: Venue, bar: BarInput)
    requires EngineSound(cfg, e) && v.Sound() && e.machine.status != Cooldown
    ensures Prepare(cfg, e, v, bar).turn.engine.machine.status != Cooldown
  {
    var t := TakePending(e, v);
    ExpireKeeps(cfg, t, bar.time);
  }

  lemma ReconcileAvoidsCooldown(cfg: Config, e: EngineState, v: Venue, x: Report)
    requires e.machine.status != Cooldown
    ensures Reconcile(cfg, e, v, x).engine.machine.status != Cooldown
  {
  }

  lemma CycleStartsCooldown(m: Maths, cfg: Config, e: EngineState, v: Venue, report: Option<Report>, bar: BarInput)
    requires cfg.IndicatorsValid() && EngineSound(cfg, e) && Fits(cfg, v)
    requires e.machine.status != Cooldown
    ensures var c := RunCycle(m, cfg, e, v, report, bar);
            c.engine.machine.status == Cooldown ==>
              StartsCooldown(cfg, bar, c.engine, c.result) && c.engine.events == [] && c.engine.logs == []
  {
    var r := ReconcileOf(cfg, e, v, report);
    if report.Some? {
      ReconciliationKeeps(cfg, e, v, report.value);
      ReconcileAvoidsCooldown(cfg, e, v, report.value);
    }
    if r.error.None? {
      BarStartsCooldown(m, cfg, r.engine, r.venue, bar);
      BarKeeps(m, cfg, r.engine, r.venue, bar);
    }
  }

  function Release(cfg: Config, bar: BarInput): int {
    bar.time + cfg.risk.cooldownHours * 3600
  }

  /** A cooldown begins only with a stop-loss exit, lasts the configured hours from that bar, and is
      on disk exactly if the cycle's own save succeeded or an earlier state cools until the same time. */
  lemma CooldownStarts(m: Maths, cfg: Config, sys: System, stop: Event)
    requires cfg.IndicatorsValid() && SystemSound(cfg, sys) && stop.Cycle? && Fits(cfg, stop.venue)
    requires sys.engine.machine.status != Cooldown
    ensures var c := RunCycle(m, cfg, sys.engine, stop.venue, stop.report, stop.bar);
            var u := Release(cfg, stop.bar);
            c.engine.machine.status == Cooldown ==>
              && StartsCooldown(cfg, stop.bar, c.engine, c.result)
              && Cooling(cfg, Next(m, cfg, sys, stop), u)
              && (OnDisk(Next(m, cfg, sys, stop), u) <==> stop.save == Saved || OnDisk(sys, u))
  {
    NextKeeps(m, cfg, sys, stop);
    CycleStartsCooldown(m, cfg, sys.engine, stop.venue, stop.report, stop.bar);
  }

  lemma ReleaseAligned(cfg: Config, bar: BarInput)
    requires Aligned(bar.time)
    ensures Aligned(Release(cfg, bar))
  {
  }

  /** A cycle of a run from a fresh start that ends in a cooldown begun by its stop-loss. */
  ghost predicate Stops(m: Maths, cfg: Config, first: seq<Event>, stop: Event)
    requires cfg.IndicatorsValid()
  {
    && VenuesFit(cfg, first) && stop.Cycle? && Fits(cfg, stop.venue) && Aligned(stop.bar.time)
    && After(m, cfg, FRESH_SYSTEM, first).engine.machine.status != Cooldown
    && Next(m, cfg, After(m, cfg, FRESH_SYSTEM, first), stop).engine.machine.status == Cooldown
  }

  /** In any run from a fresh start: if a cycle begins a cooldown at bar time t, then every later
      cycle whose bar is before t + cooldown_hours is idle, whatever restarts lie between, as long
      as a save succeeded between the stop-loss and each of them, the clock is orderly and no single
      leg is seen. */
  lemma CooldownOverRuns(m: Maths, cfg: Config, first: seq<Event>, stop: Event, rest: seq<Event>, k: nat)
    requires cfg.IndicatorsValid() && Stops(m, cfg, first, stop) && VenuesFit(cfg, rest)
    requires OrderlyClock(rest) && RestartsCovered(stop.save == Saved, rest)
    requires k < |rest| && rest[k].Cycle? && rest[k].bar.time < Release(cfg, stop.bar)
    ensures var stopped := Next(m, cfg, After(m, cfg, FRESH_SYSTEM, first), stop);
            var before := After(m, cfg, stopped, rest[..k]);
            var c := RunCycle(m, cfg, before.engine, rest[k].venue, rest[k].report, rest[k].bar);
            && before.engine.machine.status == Cooldown && c.engine.machine.status == Cooldown
            && c.venue == rest[k].venue && (c.result.Processed? ==> c.result == Processed([], []))
  {
    var sys := After(m, cfg, FRESH_SYSTEM, first);
    ReachableSound(m, cfg, first);
    CooldownStarts(m, cfg, sys, stop);
    ReleaseAligned(cfg, stop.bar);
    var stopped, u := Next(m, cfg, sys, stop), Release(cfg, stop.bar);
    assert RestartsCovered(OnDisk(stopped, u), rest);
    NoEntryBeforeRelease(m, cfg, stopped, rest, k, u);
  }

  /** And the save is needed: after the stop-loss and any cycles, the first restart keeps the
      cooldown if and only if a save has succeeded since the stop-loss, unless an older saved state
      happens to cool until the very same time. */
  lemma CooldownNeedsSave(m: Maths, cfg: Config, first: seq<Event>, stop: Event, cycles: seq<Event>, restart: Event)
    requires cfg.IndicatorsValid() && Stops(m, cfg, first, stop) && VenuesFit(cfg, cycles)
    requires forall i :: 0 <= i < |cycles| ==> cycles[i].Cycle? && Before(cycles[i], Release(cfg, stop.bar))
    requires restart.Restart? && Before(restart, Release(cfg, stop.bar))
    requires !OnDisk(After(m, cfg, FRESH_SYSTEM, first), Release(cfg, stop.bar))
    ensures var stopped := Next(m, cfg, After(m, cfg, FRESH_SYSTEM, first), stop);
            CoolingUntil(After(m, cfg, stopped, cycles + [restart]).engine.machine, Release(cfg, stop.bar))
            <==> stop.save == Saved || SavesBefore(cycles, |cycles|)
  {
    var sys := After(m, cfg, FRESH_SYSTEM, first);
    ReachableSound(m, cfg, first);
    CooldownStarts(m, cfg, sys, stop);
    RestartKeepsCooldownIff(m, cfg, Next(m, cfg, sys, stop), cycles, restart, Release(cfg, stop.bar));
  }

  /** What is lost without the save: a restart from a state saved before the stop-loss, followed by a
      reconciliation with the now flat exchange, is free to trade. */
  lemma UnsavedStopLossIsForgotten(cfg: Config, saved: StrategyState, clock: int, v: Venue, x: Report)
    requires MachineSound(saved) && saved.status == InPosition && x.exposure.IsFlat()
    ensures var e := Restarted(Some(saved), clock);
            e.Some? && Reconcile(cfg, e.value, v, x).error.None?
            && Reconcile(cfg, e.value, v, x).engine.machine.status == Flat
  {
  }
}
