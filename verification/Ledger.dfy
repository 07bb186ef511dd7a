/** What becomes of trade logs and realized PnL over whole runs. */
module Ledger {
  import opened Numbers
  import opened Trading
  import opened State
  import opened Indicators
  import opened Pipeline
  import opened Pricing
  import opened Execution
  import opened Strategy
  import opened EngineInvariants
  import opened Runs

  // ---- one cycle -------------------------------------------------------------------------------

  /** The logs a cycle produces, wherever they end up. */
  function ProducedBy(m: Maths, cfg: Config, e: EngineState, event: Event): seq<TradeLog>
    requires cfg.IndicatorsValid()
  {
    match event
    case Restart(_, _) => []
    case Cycle(_, venue, report, bar, _) =>
      var r := ReconcileOf(cfg, e, venue, report);
      if r.error.Some? then [] else BarPhases(m, cfg, r.engine, r.venue, bar).turn.logs
  }

  /** The logs a cycle hands out: those of a processed bar, unless the write of its state failed. */
  function HandedBy(m: Maths, cfg: Config, e: EngineState, event: Event): seq<TradeLog>
    requires cfg.IndicatorsValid()
  {
    match event
    case Restart(_, _) => []
    case Cycle(_, venue, report, bar, save) =>
      match RunCycle(m, cfg, e, venue, report, bar).result
      case Failed(_) => []
      case Processed(_, logs) => if save == SaveFailed then [] else logs
  }

  // ---- when a bar fails, and when it trades -----------------------------------------------------

  /** An expired pending entry cannot be cancelled. */
  predicate CancelFails(cfg: Config, s: StrategyState, v: Venue, time: int) {
    && s.pending.Some? && s.status == PendingEntry && time >= s.pending.value.expiresAt
    && var (v1, first) := RetryCancel(v, s.pending.value.ethOid, cfg.execution.maxAttempts);
       first.Err? || RetryCancel(v1, s.pending.value.btcOid, cfg.execution.maxAttempts).1.Err?
  }

  /** The plan of the entry that the signals ask for; None without a signal. */
  function PlanOf(cfg: Config, bar: BarInput, output: SignalOutput): Option<Plan> {
    if output.entry.None? || output.vol.eth.None? || output.vol.btc.None? then None
    else Some(EntryPlan(cfg, bar, output.entry.value, output.vol.eth.value, output.vol.btc.value))
  }

  /** The answers to the orders of the entry; None when it sends none. */
  function OpenReply(cfg: Config, v: Venue, plan: Option<Plan>): Option<Reply<PairOpenOutcome>> {
    if plan.Some? && plan.value.PlanOrders?
    then Some(OpenPair(v, plan.value.eth, plan.value.btc, cfg.execution.maxAttempts).1) else None
  }

  /** The answers to the orders of the exit; None when it sends none. */
  function ExitReply(cfg: Config, v: Venue, s: StrategyState, bar: BarInput, output: SignalOutput): Option<Reply<PairFill>> {
    if output.exit.Some? && s.position.Some? then
      Some(ClosePair(v, ExitOrder(cfg, EthPerp, s.position.value.eth.qty, bar.eth),
                     ExitOrder(cfg, BtcPerp, s.position.value.btc.qty, bar.btc), cfg.execution.maxAttempts).1)
    else None
  }

  /** The plan of the entry fails, or its orders do other than for being too passive, or closing does. */
  predicate TradeFails(cfg: Config, t: Turn, bar: BarInput, output: SignalOutput) {
    var plan := PlanOf(cfg, bar, output);
    var entered, closed := OpenReply(cfg, t.venue, plan), ExitReply(cfg, t.venue, t.engine.machine, bar, output);
    || (plan.Some? && plan.value.PlanFails?)
    || (entered.Some? && entered.value.Err? && !PostOnlyWouldTake(entered.value.error))
    || (closed.Some? && closed.value.Err?)
  }

  /** The entry is filled, or the position closed. */
  predicate TradeFills(cfg: Config, t: Turn, bar: BarInput, output: SignalOutput) {
    var entered := OpenReply(cfg, t.venue, PlanOf(cfg, bar, output));
    var closed := ExitReply(cfg, t.venue, t.engine.machine, bar, output);
    (entered.Some? && entered.value.Ok? && entered.value.value.PairFilled?) || (closed.Some? && closed.value.Ok?)
  }

  /** The signals of the bar after its preparation. */
  function BarOutput(m: Maths, cfg: Config, e: EngineState, v: Venue, bar: BarInput): Option<SignalOutput>
    requires cfg.IndicatorsValid()
  {
    PipelineStep(m, cfg, e.signals, TickOf(Prepare(cfg, e, v, bar).turn.engine, bar)).1
  }

  /** What makes a bar fail: a cancellation, a price, or a trade. */
  predicate BarFails(m: Maths, cfg: Config, e: EngineState, v: Venue, bar: BarInput)
    requires cfg.IndicatorsValid()
  {
    || CancelFails(cfg, e.machine, v, bar.time)
    || bar.eth <= 0.0 || bar.btc <= 0.0
    || (BarOutput(m, cfg, e, v, bar).Some?
        && TradeFails(cfg, Prepare(cfg, e, v, bar).turn, bar, BarOutput(m, cfg, e, v, bar).value))
  }

  /** A trade of the bar is filled, so that it writes a log. */
  predicate BarTrades(m: Maths, cfg: Config, e: EngineState, v: Venue, bar: BarInput)
    requires cfg.IndicatorsValid()
  {
    BarOutput(m, cfg, e, v, bar).Some?
    && TradeFills(cfg, Prepare(cfg, e, v, bar).turn, bar, BarOutput(m, cfg, e, v, bar).value)
  }

  lemma PrepareFailsIff(cfg: Config, e: EngineState, v: Venue, bar: BarInput)
    requires EngineSound(cfg, e) && v.Sound()
    ensures var p := Prepare(cfg, e, v, bar);
            && (p.Stop? <==> CancelFails(cfg, e.machine, v, bar.time)) && (p.Stop? ==> p.error.Some?)
            && p.turn.logs == e.logs && p.turn.engine.signals == e.signals
            && TurnSound(cfg, p.turn) && p.turn.venue.paper == v.paper
  {
    PrepareKeeps(cfg, e, v, bar);
    ExpireKeeps(cfg, TakePending(e, v), bar.time);
  }

  lemma EntryFailsIff(cfg: Config, t: Turn, bar: BarInput, output: SignalOutput)
    requires TurnSound(cfg, t) && Fits(cfg, t.venue) && t.engine.machine.status == Flat && output.entry.Some? && output.exit.None?
    ensures var p := EnterIfSignalled(cfg, t, bar, output);
            && (p.Stop? && p.error.Some? <==> TradeFails(cfg, t, bar, output))
            && (!(p.Stop? && p.error.Some?) ==> |p.turn.logs| == |t.logs| + (if TradeFills(cfg, t, bar, output) then 1 else 0))
  {
    var plan := PlanOf(cfg, bar, output);
    if plan.Some? && plan.value.PlanOrders? {
      OrdersPositive(cfg, bar, output.entry.value, output.vol.eth.value, output.vol.btc.value);
      OpenExact(t.venue, plan.value.eth, plan.value.btc, cfg.execution.maxAttempts);
      var (v', r) := OpenPair(t.venue, plan.value.eth, plan.value.btc, cfg.execution.maxAttempts);
      if r.Ok? && r.value.PairFilled? {
        EnterFilledKeeps(cfg, t.(venue := v'), bar, output.entry.value.direction, r.value.fills);
      }
    }
  }

  lemma ExitFailsIff(cfg: Config, t: Turn, bar: BarInput, output: SignalOutput)
    requires TurnSound(cfg, t) && output.entry.None?
    ensures var p := ExitIfSignalled(cfg, t, bar, output);
            && (p.Stop? && p.error.Some? <==> TradeFails(cfg, t, bar, output))
            && (!(p.Stop? && p.error.Some?) ==> |p.turn.logs| == |t.logs| + (if TradeFills(cfg, t, bar, output) then 1 else 0))
  {
    var s := t.engine.machine;
    if output.exit.Some? && s.position.Some? {
      var eth := ExitOrder(cfg, EthPerp, s.position.value.eth.qty, bar.eth);
      var btc := ExitOrder(cfg, BtcPerp, s.position.value.btc.qty, bar.btc);
      CloseExact(t.venue, eth, btc, cfg.execution.maxAttempts);
      var (v', r) := ClosePair(t.venue, eth, btc, cfg.execution.maxAttempts);
      if r.Ok? {
        ExitClosedKeeps(cfg, t.(venue := v'), bar, s.position.value, output.exit.value.reason, r.value);
      }
    }
  }

  lemma TradeFailsIff(m: Maths, cfg: Config, t: Turn, bar: BarInput, o: Option<SignalOutput>)
    requires cfg.IndicatorsValid() && TurnSound(cfg, t) && Fits(cfg, t.venue)
    requires o == PipelineStep(m, cfg, t.engine.signals, TickOf(t.engine, bar)).1
    ensures var p := TradeSignals(m, cfg, t, bar);
            var fails := o.None? || TradeFails(cfg, t, bar, o.value);
            && (p.Stop? && p.error.Some? <==> fails)
            && (!fails ==> |p.turn.logs| == |t.logs| + (if TradeFills(cfg, t, bar, o.value) then 1 else 0))
  {
    var (signals, output) := PipelineStep(m, cfg, t.engine.signals, TickOf(t.engine, bar));
    StepKeepsSound(m, cfg, t.engine.signals, TickOf(t.engine, bar));
    OutputExclusive(m, cfg, t.engine.signals, TickOf(t.engine, bar));
    var t' := t.(engine := t.engine.(signals := signals));
    if output.Some? {
      if output.value.entry.Some? {
        EntryFailsIff(cfg, t', bar, output.value);
      } else {
        ExitFailsIff(cfg, t', bar, output.value);
      }
    }
  }

  /** Bars fail exactly for these reasons, and write a log exactly if a trade is filled. */
  lemma BarFailsIff(m: Maths, cfg: Config, e: EngineState, v: Venue, bar: BarInput)
    requires cfg.IndicatorsValid() && EngineSound(cfg, e) && Fits(cfg, v)
    ensures var result := ProcessBar(m, cfg, e, v, bar).2;
            && (result.Failed? <==> BarFails(m, cfg, e, v, bar))
            && (result.Processed? ==> |result.logs| == |e.logs| + (if BarTrades(m, cfg, e, v, bar) then 1 else 0))
  {
    PrepareFailsIff(cfg, e, v, bar);
    var p := Prepare(cfg, e, v, bar);
    StepKeepsSound(m, cfg, e.signals, TickOf(p.turn.engine, bar));
    if p.Continue? {
      TradeFailsIff(m, cfg, p.turn, bar, BarOutput(m, cfg, e, v, bar));
    }
  }

  /** The bar will fail although the reconciliation before it left logs for it to report, or it will
      report logs and then its state cannot be written. */
  predicate Loses(m: Maths, cfg: Config, e: EngineState, event: Event)
    requires cfg.IndicatorsValid()
  {
    match event
    case Restart(_, _) => false
    case Cycle(_, venue, report, bar, save) =>
      var r := ReconcileOf(cfg, e, venue, report);
      r.error.None?
      && if BarFails(m, cfg, r.engine, r.venue, bar) then r.engine.logs != []
         else save == SaveFailed && (r.engine.logs != [] || BarTrades(m, cfg, r.engine, r.venue, bar))
  }

  // ---- logs of a cycle ---------------------------------------------------------------------------

  /** A bar that fails has written no log of its own. */
  lemma FailedBarWritesNothing(m: Maths, cfg: Config, e: EngineState, v: Venue, bar: BarInput)
    requires cfg.IndicatorsValid() && EngineSound(cfg, e) && Fits(cfg, v)
    requires ProcessBar(m, cfg, e, v, bar).2.Failed?
    ensures BarPhases(m, cfg, e, v, bar).turn.logs == e.logs
  {
    PrepareKeeps(cfg, e, v, bar);
    ExpireKeeps(cfg, TakePending(e, v), bar.time);
    var p := Prepare(cfg, e, v, bar);
    if p.Continue? {
      FailedTradeWritesNothing(m, cfg, p.turn, bar);
    }
  }

  lemma FailedTradeWritesNothing(m: Maths, cfg: Config, t: Turn, bar: BarInput)
    requires cfg.IndicatorsValid() && TurnSound(cfg, t) && Fits(cfg, t.venue)
    requires var p := TradeSignals(m, cfg, t, bar);
             p.Stop? && p.error.Some?
    ensures TradeSignals(m, cfg, t, bar).turn.logs == t.logs
  {
    var (signals, output) := PipelineStep(m, cfg, t.engine.signals, TickOf(t.engine, bar));
    StepKeepsSound(m, cfg, t.engine.signals, TickOf(t.engine, bar));
    OutputExclusive(m, cfg, t.engine.signals, TickOf(t.engine, bar));
    var t' := t.(engine := t.engine.(signals := signals));
    if output.Some? {
      FailedEntryWritesNothing(cfg, t', bar, output.value);
      if output.value.entry.None? {
        FailedExitWritesNothing(cfg, t', bar, output.value);
      }
    }
  }

  lemma FailedEntryWritesNothing(cfg: Config, t: Turn, bar: BarInput, output: SignalOutput)
    requires TurnSound(cfg, t) && Fits(cfg, t.venue) && (output.entry.Some? ==> t.engine.machine.status == Flat)
    ensures var p := EnterIfSignalled(cfg, t, bar, output);
            && (p.Stop? && p.error.Some? ==> p.turn.logs == t.logs)
            && (output.entry.None? ==> p == Continue(t))
  {
    if output.entry.Some? && output.vol.eth.Some? && output.vol.btc.Some? {
      var signal := output.entry.value;
      var plan := EntryPlan(cfg, bar, signal, output.vol.eth.value, output.vol.btc.value);
      OrdersPositive(cfg, bar, signal, output.vol.eth.value, output.vol.btc.value);
      if plan.PlanOrders? {
        OpenExact(t.venue, plan.eth, plan.btc, cfg.execution.maxAttempts);
        var (v', r) := OpenPair(t.venue, plan.eth, plan.btc, cfg.execution.maxAttempts);
        if r.Ok? && r.value.PairFilled? {
          EnterFilledKeeps(cfg, t.(venue := v'), bar, signal.direction, r.value.fills);
        }
      }
    }
  }

  lemma FailedExitWritesNothing(cfg: Config, t: Turn, bar: BarInput, output: SignalOutput)
    requires TurnSound(cfg, t)
    ensures var p := ExitIfSignalled(cfg, t, bar, output);
            p.Stop? && p.error.Some? ==> p.turn.logs == t.logs
  {
    var s := t.engine.machine;
    if output.exit.Some? && s.position.Some? {
      var eth := ExitOrder(cfg, EthPerp, s.position.value.eth.qty, bar.eth);
      var btc := ExitOrder(cfg, BtcPerp, s.position.value.btc.qty, bar.btc);
      CloseExact(t.venue, eth, btc, cfg.execution.maxAttempts);
      var (v', r) := ClosePair(t.venue, eth, btc, cfg.execution.maxAttempts);
      if r.Ok? {
        ExitClosedKeeps(cfg, t.(venue := v'), bar, s.position.value, output.exit.value.reason, r.value);
      }
    }
  }

  /** A cycle hands out nothing or all of what it produces, and the first exactly when it loses
      something or has nothing. */
  lemma CycleHandsOutAllOrNothing(m: Maths, cfg: Config, sys: System, event: Event)
    requires cfg.IndicatorsValid() && SystemSound(cfg, sys) && (event.Cycle? ==> Fits(cfg, event.venue))
    ensures var produced, handed := ProducedBy(m, cfg, sys.engine, event), HandedBy(m, cfg, sys.engine, event);
            && (Loses(m, cfg, sys.engine, event) ==> handed == [] && produced != [])
            && (!Loses(m, cfg, sys.engine, event) ==> handed == produced)
  {
    if event.Cycle? {
      var e, v := sys.engine, event.venue;
      var r := ReconcileOf(cfg, e, v, event.report);
      if event.report.Some? {
        ReconciliationKeeps(cfg, e, v, event.report.value);
      }
      if r.error.None? {
        BarFailsIff(m, cfg, r.engine, r.venue, event.bar);
        if ProcessBar(m, cfg, r.engine, r.venue, event.bar).2.Failed? {
          FailedBarWritesNothing(m, cfg, r.engine, r.venue, event.bar);
        } else {
          BarKeeps(m, cfg, r.engine, r.venue, event.bar);
        }
      }
    }
  }

  /** A cycle changes the cumulative PnL by exactly the PnL of the logs it produces. */
  lemma CycleBooksItsLogs(m: Maths, cfg: Config, sys: System, event: Event)
    requires cfg.IndicatorsValid() && SystemSound(cfg, sys) && event.Cycle? && Fits(cfg, event.venue)
    ensures Next(m, cfg, sys, event).engine.cumulative
            == sys.engine.cumulative + LogSum(ProducedBy(m, cfg, sys.engine, event))
  {
    var e, v := sys.engine, event.venue;
    var r := ReconcileOf(cfg, e, v, event.report);
    if event.report.Some? {
      ReconciliationKeeps(cfg, e, v, event.report.value);
      if r.error.Some? {
        ReconcileErrorKeepsLogs(cfg, e, v, event.report.value);
      }
    }
    if r.error.None? {
      BarKeeps(m, cfg, r.engine, r.venue, event.bar);
    }
  }

  // ---- runs ----------------------------------------------------------------------------------

  function EngineBefore(m: Maths, cfg: Config, events: seq<Event>): EngineState
    requires cfg.IndicatorsValid() && |events| > 0
  {
    After(m, cfg, FRESH_SYSTEM, events[..|events| - 1]).engine
  }

  /** All logs produced in a run. */
  function Produced(m: Maths, cfg: Config, events: seq<Event>): seq<TradeLog>
    requires cfg.IndicatorsValid()
  {
    if |events| == 0 then []
    else Produced(m, cfg, events[..|events| - 1]) + ProducedBy(m, cfg, EngineBefore(m, cfg, events), events[|events| - 1])
  }

  /** All logs handed out in a run. */
  function HandedOut(m: Maths, cfg: Config, events: seq<Event>): seq<TradeLog>
    requires cfg.IndicatorsValid()
  {
    if |events| == 0 then []
    else HandedOut(m, cfg, events[..|events| - 1]) + HandedBy(m, cfg, EngineBefore(m, cfg, events), events[|events| - 1])
  }

  /** The logs whose PnL the saved state does not know yet. */
  function Unsaved(m: Maths, cfg: Config, events: seq<Event>): seq<TradeLog>
    requires cfg.IndicatorsValid()
  {
    if |events| == 0 || events[|events| - 1].Restart? || Saves(events[|events| - 1]) then []
    else Unsaved(m, cfg, events[..|events| - 1]) + ProducedBy(m, cfg, EngineBefore(m, cfg, events), events[|events| - 1])
  }

  /** The logs whose PnL the engine knows: a restart goes back to those known to the saved state. */
  function Booked(m: Maths, cfg: Config, events: seq<Event>): (logs: seq<TradeLog>)
    requires cfg.IndicatorsValid()
    ensures |Unsaved(m, cfg, events)| <= |logs|
  {
    if |events| == 0 then []
    else
      var before := Booked(m, cfg, events[..|events| - 1]);
      if events[|events| - 1].Restart? then before[..|before| - |Unsaved(m, cfg, events[..|events| - 1])|]
      else before + ProducedBy(m, cfg, EngineBefore(m, cfg, events), events[|events| - 1])
  }

  function BookedOnDisk(m: Maths, cfg: Config, events: seq<Event>): seq<TradeLog>
    requires cfg.IndicatorsValid()
  {
    var booked := Booked(m, cfg, events);
    booked[..|booked| - |Unsaved(m, cfg, events)|]
  }

  /** No cycle of the run loses a log. */
  predicate LosesNothing(m: Maths, cfg: Config, events: seq<Event>)
    requires cfg.IndicatorsValid()
  {
    |events| > 0 ==>
      && LosesNothing(m, cfg, events[..|events| - 1])
      && !Loses(m, cfg, EngineBefore(m, cfg, events), events[|events| - 1])
  }

  /** No restart of the run comes before the PnL of all logs was saved. */
  predicate ForgetsNothing(m: Maths, cfg: Config, events: seq<Event>)
    requires cfg.IndicatorsValid()
  {
    |events| > 0 ==>
      && ForgetsNothing(m, cfg, events[..|events| - 1])
      && (events[|events| - 1].Restart? ==> Unsaved(m, cfg, events[..|events| - 1]) == [])
  }

  /** Every log of a run is handed out, in order, if and only if no bar fails with logs left to it by
      its reconciliation and no state write fails after a bar with logs. */
  lemma {:induction false} LogsHandedOutIff(m: Maths, cfg: Config, events: seq<Event>)
    requires cfg.IndicatorsValid() && VenuesFit(cfg, events)
    ensures |HandedOut(m, cfg, events)| <= |Produced(m, cfg, events)|
    ensures HandedOut(m, cfg, events) == Produced(m, cfg, events) <==> LosesNothing(m, cfg, events)
    ensures LosesNothing(m, cfg, events) || |HandedOut(m, cfg, events)| < |Produced(m, cfg, events)|
  {
    if |events| > 0 {
      var init, last := events[..|events| - 1], events[|events| - 1];
      LogsHandedOutIff(m, cfg, init);
      ReachableSound(m, cfg, init);
      CycleHandsOutAllOrNothing(m, cfg, After(m, cfg, FRESH_SYSTEM, init), last);
    }
  }

  lemma {:induction false} LogSumAppend(a: seq<TradeLog>, b: seq<TradeLog>)
    ensures LogSum(a + b) == LogSum(a) + LogSum(b)
  {
    if |b| == 0 {
      assert a + b == a;
    } else {
      var init, last := b[..|b| - 1], b[|b| - 1];
      LogSumAppend(a, init);
      LogSumSnoc(a + init, last);
      LogSumSnoc(init, last);
      assert a + b == (a + init) + [last] && b == init + [last];
    }
  }

  /** The engine knows exactly the PnL of the booked logs, and the saved state that of those booked
      when it was written. */
  ghost predicate PnlBooked(m: Maths, cfg: Config, events: seq<Event>)
    requires cfg.IndicatorsValid()
  {
    var sys := After(m, cfg, FRESH_SYSTEM, events);
    && sys.engine.machine.cumulative == sys.engine.cumulative == LogSum(Booked(m, cfg, events))
    && (if sys.saved.Some? then sys.saved.value.cumulative else 0.0) == LogSum(BookedOnDisk(m, cfg, events))
  }

  lemma PnlBookedRestart(m: Maths, cfg: Config, events: seq<Event>)
    requires cfg.IndicatorsValid() && |events| > 0 && events[|events| - 1].Restart?
    requires SystemSound(cfg, After(m, cfg, FRESH_SYSTEM, events[..|events| - 1]))
    requires PnlBooked(m, cfg, events[..|events| - 1])
    ensures PnlBooked(m, cfg, events)
  {
    var last := events[|events| - 1];
    var sys := After(m, cfg, FRESH_SYSTEM, events[..|events| - 1]);
    RestartKeeps(cfg, sys.saved, last.clock);
    WarmUpKeeps(m, cfg, Restarted(sys.saved, last.clock).value, last.records);
    assert BookedOnDisk(m, cfg, events) == Booked(m, cfg, events);
  }

  /** Logs produced and not saved do not change the part that is on disk. */
  lemma SamePrefix(booked: seq<TradeLog>, unsaved: seq<TradeLog>, produced: seq<TradeLog>)
    requires |unsaved| <= |booked|
    ensures (booked + produced)[..|booked + produced| - |unsaved + produced|] == booked[..|booked| - |unsaved|]
  {
  }

  lemma BookedAfterCycle(m: Maths, cfg: Config, events: seq<Event>)
    requires cfg.IndicatorsValid() && |events| > 0 && events[|events| - 1].Cycle?
    ensures var init, last := events[..|events| - 1], events[|events| - 1];
            var produced := ProducedBy(m, cfg, EngineBefore(m, cfg, events), last);
            && Booked(m, cfg, events) == Booked(m, cfg, init) + produced
            && BookedOnDisk(m, cfg, events)
               == (if last.save == Saved then Booked(m, cfg, events) else BookedOnDisk(m, cfg, init))
  {
    var init, last := events[..|events| - 1], events[|events| - 1];
    if last.save == Saved {
      assert Unsaved(m, cfg, events) == [];
    } else {
      SamePrefix(Booked(m, cfg, init), Unsaved(m, cfg, init), ProducedBy(m, cfg, EngineBefore(m, cfg, events), last));
    }
  }

  lemma WrittenAfterCycle(m: Maths, cfg: Config, sys: System, event: Event)
    requires cfg.IndicatorsValid() && event.Cycle?
    ensures var sys' := Next(m, cfg, sys, event);
            sys'.saved == (if event.save == Saved then Some(sys'.engine.machine) else sys.saved)
  {
  }

  lemma PnlBookedCycle(m: Maths, cfg: Config, events: seq<Event>)
    requires cfg.IndicatorsValid() && |events| > 0 && events[|events| - 1].Cycle? && Fits(cfg, events[|events| - 1].venue)
    requires SystemSound(cfg, After(m, cfg, FRESH_SYSTEM, events[..|events| - 1]))
    requires PnlBooked(m, cfg, events[..|events| - 1])
    ensures PnlBooked(m, cfg, events)
  {
    var init, last := events[..|events| - 1], events[|events| - 1];
    var sys := After(m, cfg, FRESH_SYSTEM, init);
    NextKeeps(m, cfg, sys, last);
    CycleBooksItsLogs(m, cfg, sys, last);
    BookedAfterCycle(m, cfg, events);
    WrittenAfterCycle(m, cfg, sys, last);
    LogSumAppend(Booked(m, cfg, init), ProducedBy(m, cfg, sys.engine, last));
  }

  lemma {:induction false} PnlIsBooked(m: Maths, cfg: Config, events: seq<Event>)
    requires cfg.IndicatorsValid() && VenuesFit(cfg, events)
    ensures PnlBooked(m, cfg, events)
  {
    if |events| > 0 {
      PnlIsBooked(m, cfg, events[..|events| - 1]);
      ReachableSound(m, cfg, events[..|events| - 1]);
      if events[|events| - 1].Restart? {
        PnlBookedRestart(m, cfg, events);
      } else {
        PnlBookedCycle(m, cfg, events);
      }
    }
  }

  /** The engine knows the PnL of all logs of a run if and only if no restart comes before the PnL of
      all logs was saved. */
  lemma {:induction false} AllBookedIff(m: Maths, cfg: Config, events: seq<Event>)
    requires cfg.IndicatorsValid()
    ensures |Booked(m, cfg, events)| <= |Produced(m, cfg, events)|
    ensures Booked(m, cfg, events) == Produced(m, cfg, events) <==> ForgetsNothing(m, cfg, events)
    ensures ForgetsNothing(m, cfg, events) || |Booked(m, cfg, events)| < |Produced(m, cfg, events)|
  {
    if |events| > 0 {
      var init := events[..|events| - 1];
      AllBookedIff(m, cfg, init);
      var before := Booked(m, cfg, init);
      if events[|events| - 1].Restart? && Unsaved(m, cfg, init) == [] {
        assert Booked(m, cfg, events) == before;
      }
    }
  }

  /** The ledger of every run from a fresh start.  The cumulative PnL of engine and machine is that of
      the booked logs.  These are all logs exactly if no restart forgets any, and all logs are handed
      out exactly if no cycle loses any; so without either the handed-out logs explain the PnL. */
  lemma PnlIsLogged(m: Maths, cfg: Config, events: seq<Event>)
    requires cfg.IndicatorsValid() && VenuesFit(cfg, events)
    ensures var sys := After(m, cfg, FRESH_SYSTEM, events);
            && sys.engine.machine.cumulative == sys.engine.cumulative == LogSum(Booked(m, cfg, events))
            && (Booked(m, cfg, events) == Produced(m, cfg, events) <==> ForgetsNothing(m, cfg, events))
            && (HandedOut(m, cfg, events) == Produced(m, cfg, events) <==> LosesNothing(m, cfg, events))
            && (ForgetsNothing(m, cfg, events) && LosesNothing(m, cfg, events) ==>
                  sys.engine.cumulative == LogSum(HandedOut(m, cfg, events)))
  {
    PnlIsBooked(m, cfg, events);
    AllBookedIff(m, cfg, events);
    LogsHandedOutIff(m, cfg, events);
  }

  // ---- in money --------------------------------------------------------------------------------

  function SavedPnl(sys: System): real {
    if sys.saved.Some? then sys.saved.value.cumulative else 0.0
  }

  /** What the restarts of a run forget: at each the running PnL less the saved one. */
  function ForgottenPnl(m: Maths, cfg: Config, events: seq<Event>): real
    requires cfg.IndicatorsValid()
  {
    if |events| == 0 then 0.0
    else
      var before := After(m, cfg, FRESH_SYSTEM, events[..|events| - 1]);
      ForgottenPnl(m, cfg, events[..|events| - 1])
      + (if events[|events| - 1].Restart? then before.engine.cumulative - SavedPnl(before) else 0.0)
  }

  lemma RestartGoesBack(m: Maths, cfg: Config, sys: System, restart: Event)
    requires cfg.IndicatorsValid() && SystemSound(cfg, sys) && restart.Restart?
    ensures Next(m, cfg, sys, restart).engine.cumulative == SavedPnl(sys)
  {
    RestartKeeps(cfg, sys.saved, restart.clock);
    WarmUpKeeps(m, cfg, Restarted(sys.saved, restart.clock).value, restart.records);
  }

  /** PnL is conserved over every run: the PnL the engine knows and the PnL its restarts forgot make
      the PnL of all logs. */
  lemma {:induction false} PnlConserved(m: Maths, cfg: Config, events: seq<Event>)
    requires cfg.IndicatorsValid() && VenuesFit(cfg, events)
    ensures After(m, cfg, FRESH_SYSTEM, events).engine.cumulative + ForgottenPnl(m, cfg, events)
            == LogSum(Produced(m, cfg, events))
  {
    if |events| > 0 {
      var init, last := events[..|events| - 1], events[|events| - 1];
      var sys := After(m, cfg, FRESH_SYSTEM, init);
      PnlConserved(m, cfg, init);
      ReachableSound(m, cfg, init);
      LogSumAppend(Produced(m, cfg, init), ProducedBy(m, cfg, sys.engine, last));
      if last.Cycle? {
        CycleBooksItsLogs(m, cfg, sys, last);
      } else {
        RestartGoesBack(m, cfg, sys, last);
      }
    }
  }

  // ---- a run that loses a log ------------------------------------------------------------------

  /** Windows of two bars, entries at one deviation, and a capital beyond its limit. */
  ghost predicate RefusingSettings(m: Maths, cfg: Config) {
    && m.Sound() && cfg.IndicatorsValid() && cfg.strategy.nZ == 2 && cfg.position.nVol == 1
    && cfg.sigmaFloor.mode == Const && cfg.sigmaFloor.floorConst <= (m.ln(2.0) - m.ln(1.0)) / 2.0
    && cfg.extreme.enabled && cfg.extreme.allowShortEthLongBtc && cfg.extreme.minAbsZ <= 1.0 < cfg.strategy.slZ
    && cfg.position.cMode == FixedNotional && cfg.position.cValue == Some(2.0)
    && cfg.position.maxNotional == Some(1.0) && cfg.multipliers.shortEthLongBtc == 1.0
  }

  /** A single ETH leg bought at 1, which the exchange will sell at 3. */
  predicate ShowsEthLeg(v: Venue, report: Report) {
    && report.exposure == PairExposure(Some(ExchangePosition(1.0, 1.0, 1.0)), None) && report.fills.None?
    && !v.paper && v.book.eth == 1.0 && v.script == [FillAnswer(1.0, Some(3.0), None)]
  }

  predicate PricesAre(bar: BarInput, eth: real, btc: real) {
    bar.eth == eth && bar.btc == btc
  }

  lemma RootUnique(m: Maths, a: real)
    requires m.Sound() && a >= 0.0
    ensures m.sqrt(Sq(a)) == a
  {
    var root := m.sqrt(Sq(a));
    assert Sq(root) == Sq(a) by {
      assert root * root == Sq(a);
    }
    if root < a {
      ProductOrder(root, a, a, root * a, Sq(a));
      ProductOrder(root, a, root, Sq(root), root * a);
    } else if a < root {
      ProductOrder(a, root, root, a * root, Sq(root));
      ProductOrder(a, root, a, Sq(a), a * root);
    }
  }

  /** The newer of two values is one deviation above their mean. */
  lemma TwoValueScore(m: Maths, a: real, b: real)
    requires m.Sound() && a < b
    ensures Mean([a, b]) == (a + b) / 2.0 && Std(m, [a, b]) == (b - a) / 2.0
  {
    var w, d := [a, b], (b - a) / 2.0;
    assert w[..1] == [a] && w[..1][..0] == [];
    assert Sum(w[..1][..0]) == 0.0;
    assert Sum(w[..1]) == a;
    assert Sum(w) == a + b;
    var mean := Mean(w);
    assert b - mean == d && a - mean == -d;
    assert Sq(-d) == Sq(d);
    assert SumSq(w[..1], mean) == Sq(-d);
    assert SumSq(w, mean) == Sq(d) + Sq(d);
    assert Variance(w) == Sq(d);
    RootUnique(m, d);
  }

  /** A first bar at (1, 1) then one at (2, 1) on which ETH is one deviation dear. */
  lemma SecondBarSignals(m: Maths, cfg: Config, first: PriceTick, second: PriceTick)
    requires RefusingSettings(m, cfg)
    requires first.eth == 1.0 && first.btc == 1.0 && second.eth == 2.0 && second.btc == 1.0
    requires first.status == Flat && first.position.None? && second.status == Flat && second.position.None?
    ensures var (s, output) := PipelineStep(m, cfg, FRESH_PIPELINE, first);
            && output.Some? && output.value.entry.None? && output.value.exit.None?
            && var output' := PipelineStep(m, cfg, s, second).1;
               && output'.Some? && output'.value.entry == Some(EntrySignal(ShortEthLongBtc, 1.0))
               && output'.value.vol.eth.Some? && output'.value.vol.btc.Some?
  {
    var a, b := m.ln(1.0) - m.ln(1.0), m.ln(2.0) - m.ln(1.0);
    TwoValueScore(m, a, b);
    var (s, output) := PipelineStep(m, cfg, FRESH_PIPELINE, first);
    assert s.z.window == [a] && s.entry.prevZ.None?;
    assert Push(s.z.window, 2, b) == [a, b];
    OneDeviation(a, b);
  }

  lemma OneDeviation(a: real, b: real)
    requires a < b
    ensures (b - (a + b) / 2.0) / ((b - a) / 2.0) == 1.0
  {
    var half := (b - a) / 2.0;
    assert b - (a + b) / 2.0 == half;
    TimesQuotient(1.0, half);
  }

  /** Nothing is open or pending. */
  predicate Idle(s: StrategyState) {
    s.status == Flat && s.position.None? && s.pending.None?
  }

  lemma FirstBarIsIdle(m: Maths, cfg: Config, e: EngineState, v: Venue, bar: BarInput)
    requires cfg.IndicatorsValid() && Idle(e.machine) && e.events == [] && e.logs == []
    requires var output := PipelineStep(m, cfg, e.signals, TickOf(e, bar)).1;
             output.Some? && output.value.entry.None? && output.value.exit.None?
    ensures RunCycle(m, cfg, e, v, None, bar)
            == CycleResult(e.(signals := PipelineStep(m, cfg, e.signals, TickOf(e, bar)).0), v, Processed([], []))
    ensures BarPhases(m, cfg, e, v, bar).turn.logs == []
  {
  }

  lemma LegIsSold(cfg: Config, e: EngineState, v: Venue, x: Report)
    requires Idle(e.machine) && e.logs == [] && ShowsEthLeg(v, x)
    ensures var r := Reconcile(cfg, e, v, x);
            && r.error.None? && r.engine.signals == e.signals && Idle(r.engine.machine)
            && |r.engine.logs| == 1 && r.engine.logs[0].realizedPnl == 2.0
  {
    var p := ExposureToPosition(x.exposure, x.time).value;
    var order := ResidualOrder(p).value;
    assert order.side == Sell && order.qty == 1.0 && order.limitPrice == Some(1.0) && order.orderType == Market;
    assert RequotedMarketPrice(1.0, Sell, 0) == Some(1.0);
    var fill := OrderFill(1.0, Some(3.0), None);
    assert RetryMarket(v, order, 1.0, 0, Max4(cfg.execution.maxAttempts)).1 == Ok(Filled(fill));
    assert RepairResidual(v, p, cfg.execution.maxAttempts).1 == Ok(Some((EthPerp, fill)));
    assert PositionPnl(p, 3.0, x.btc) == 2.0;
  }

  lemma EntryIsRefused(m: Maths, cfg: Config, e: EngineState, v: Venue, bar: BarInput)
    requires RefusingSettings(m, cfg) && Idle(e.machine)
    requires var output := PipelineStep(m, cfg, e.signals, TickOf(e, bar)).1;
             && output.Some? && output.value.entry == Some(EntrySignal(ShortEthLongBtc, 1.0))
             && output.value.vol.eth.Some? && output.value.vol.btc.Some?
    ensures ProcessBar(m, cfg, e, v, bar).2 == Failed(CapitalExceeded)
    ensures BarPhases(m, cfg, e, v, bar).turn.logs == e.logs
  {
    var output := PipelineStep(m, cfg, e.signals, TickOf(e, bar)).1.value;
    assert EntryCapital(cfg, EntryEquity(cfg, bar), Multiplier(cfg, ShortEthLongBtc)) == NoCapital(CapitalExceeded);
    assert EntryPlan(cfg, bar, output.entry.value, output.vol.eth.value, output.vol.btc.value) == PlanFails(CapitalExceeded);
  }

  lemma AfterIdleEvent(m: Maths, cfg: Config, first: Event, second: Event)
    requires cfg.IndicatorsValid()
    requires ProducedBy(m, cfg, FRESH_SYSTEM.engine, first) == HandedBy(m, cfg, FRESH_SYSTEM.engine, first) == []
    ensures var e := Next(m, cfg, FRESH_SYSTEM, first).engine;
            && Produced(m, cfg, [first, second]) == ProducedBy(m, cfg, e, second)
            && HandedOut(m, cfg, [first, second]) == HandedBy(m, cfg, e, second)
            && (LosesNothing(m, cfg, [first, second]) ==> !Loses(m, cfg, e, second))
  {
    var run := [first, second];
    assert run[..1] == [first] && run[..1][..0] == [];
    assert After(m, cfg, FRESH_SYSTEM, []) == FRESH_SYSTEM;
    assert EngineBefore(m, cfg, [first]) == FRESH_SYSTEM.engine;
    assert Produced(m, cfg, [first]) == [];
    assert HandedOut(m, cfg, [first]) == [];
    assert EngineBefore(m, cfg, run) == Next(m, cfg, FRESH_SYSTEM, first).engine;
  }

  lemma FirstEventIsIdle(m: Maths, cfg: Config, e: EngineState, first: Event)
    requires cfg.IndicatorsValid() && Idle(e.machine) && e.events == [] && e.logs == []
    requires first.Cycle? && first.report.None?
    requires var output := PipelineStep(m, cfg, e.signals, TickOf(e, first.bar)).1;
             output.Some? && output.value.entry.None? && output.value.exit.None?
    ensures ProducedBy(m, cfg, e, first) == HandedBy(m, cfg, e, first) == []
    ensures Next(m, cfg, System(e, None), first).engine
            == e.(signals := PipelineStep(m, cfg, e.signals, TickOf(e, first.bar)).0)
  {
    FirstBarIsIdle(m, cfg, e, first.venue, first.bar);
  }

  lemma SecondEventLoses(m: Maths, cfg: Config, e: EngineState, second: Event)
    requires RefusingSettings(m, cfg) && Idle(e.machine) && e.logs == []
    requires second.Cycle? && second.report.Some? && ShowsEthLeg(second.venue, second.report.value)
    requires var output := PipelineStep(m, cfg, e.signals, PriceTick(second.bar.time, second.bar.eth, second.bar.btc, Flat, None)).1;
             && output.Some? && output.value.entry == Some(EntrySignal(ShortEthLongBtc, 1.0))
             && output.value.vol.eth.Some? && output.value.vol.btc.Some?
    ensures HandedBy(m, cfg, e, second) == [] && Loses(m, cfg, e, second)
    ensures LogSum(ProducedBy(m, cfg, e, second)) == 2.0
  {
    LegIsSold(cfg, e, second.venue, second.report.value);
    var r := Reconcile(cfg, e, second.venue, second.report.value);
    EntryIsRefused(m, cfg, r.engine, r.venue, second.bar);
    assert r.engine.logs == [] + [r.engine.logs[0]];
    LogSumSnoc([], r.engine.logs[0]);
  }

  /** A run that loses a log.  The second cycle repairs a leg and books 2, its entry asks for more
      capital than allowed, and the log of the repair is handed out by neither cycle. */
  lemma RepairLogIsLost(m: Maths, cfg: Config, first: Event, second: Event)
    requires RefusingSettings(m, cfg) && first.Cycle? && second.Cycle?
    requires first.report.None? && PricesAre(first.bar, 1.0, 1.0)
    requires second.report.Some? && ShowsEthLeg(second.venue, second.report.value) && PricesAre(second.bar, 2.0, 1.0)
    ensures HandedOut(m, cfg, [first, second]) == [] && LogSum(Produced(m, cfg, [first, second])) == 2.0
    ensures !LosesNothing(m, cfg, [first, second])
  {
    var e := FRESH_SYSTEM.engine;
    SecondBarSignals(m, cfg, TickOf(e, first.bar), PriceTick(second.bar.time, 2.0, 1.0, Flat, None));
    FirstEventIsIdle(m, cfg, e, first);
    AfterIdleEvent(m, cfg, first, second);
    SecondEventLoses(m, cfg, Next(m, cfg, FRESH_SYSTEM, first).engine, second);
  }
}
