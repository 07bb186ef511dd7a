/** The live loop around the engine: restart, cycle, and the writing of the state. */
module Runner {
  import opened Trading
  import opened State
  import opened Indicators
  import opened Execution
  import opened Strategy
  import opened Engine
  import opened Runs
  import opened Ledger

  /** The one saved state. */
  class StateStore {
    var saved: Option<StrategyState>

    constructor ()
      ensures saved == None
    {
      saved := None;
    }

    method Save(state: StrategyState, works: bool) returns (ok: bool)
      modifies this
      ensures ok == works && saved == if works then Some(state) else old(saved)
    {
      if works {
        saved := Some(state);
      }
      return works;
    }
  }

  /** What a cycle reports to the loop. */
  datatype RunResult = Outcome(events: seq<LogEvent>, logs: seq<TradeLog>) | StrategyFailed(error: StrategyError) | StateNotSaved
  {
    function Logs(): seq<TradeLog> {
      if Outcome? then logs else []
    }
  }

  /** The result of a cycle: an error exactly if the engine failed, or else the write. */
  function Reported(result: BarResult, save: Save): RunResult {
    match result
    case Failed(error) => StrategyFailed(error)
    case Processed(events, logs) => if save == SaveFailed then StateNotSaved else Outcome(events, logs)
  }

  function Cycled(m: Maths, cfg: Config, sys: System, event: Event): (System, Venue, RunResult)
    requires cfg.IndicatorsValid() && event.Cycle?
  {
    var c := RunCycle(m, cfg, sys.engine, event.venue, event.report, event.bar);
    (Written(sys, c.engine, event.save), c.venue, Reported(c.result, event.save))
  }

  lemma CycledBy(m: Maths, cfg: Config, sys: System, event: Event, c: CycleResult)
    requires cfg.IndicatorsValid() && event.Cycle?
    requires c == RunCycle(m, cfg, sys.engine, event.venue, event.report, event.bar)
    ensures Cycled(m, cfg, sys, event) == (Written(sys, c.engine, event.save), c.venue, Reported(c.result, event.save))
  {
  }

  /** The loop's cycle is the step of the runs, and hands out their logs. */
  lemma CycledIsNext(m: Maths, cfg: Config, sys: System, event: Event)
    requires cfg.IndicatorsValid() && event.Cycle?
    ensures Cycled(m, cfg, sys, event).0 == Next(m, cfg, sys, event)
    ensures Cycled(m, cfg, sys, event).2.Logs() == HandedBy(m, cfg, sys.engine, event)
  {
  }

  class LiveRunner {
    const engine: StrategyEngine
    const store: StateStore

    constructor (engine: StrategyEngine, store: StateStore)
      requires engine.Valid()
      ensures Valid() && this.engine == engine && this.store == store
    {
      this.engine := engine;
      this.store := store;
    }

    ghost predicate Valid()
      reads engine.Repr()
    {
      engine.Valid() && store !in engine.Repr()
    }

    ghost function System(): System
      reads engine.Repr(), store
    {
      Runs.System(engine.View(), store.saved)
    }

    /** The state is written, if there is a store; with the outcome of the write. */
    method SaveState(save: Save) returns (ok: bool)
      requires Valid()
      modifies store
      ensures Valid() && ok == (save != SaveFailed) && engine.View() == old(engine.View())
      ensures System() == Written(old(System()), old(engine.View()), save)
    {
      ok := true;
      if save != NoStore {
        ok := store.Save(engine.machine.state, save == Saved);
      }
    }

    /** A failed reconciliation ends the cycle before the bar. */
    method ReconcileThenTrade(report: Option<Report>, bar: BarInput) returns (result: BarResult)
      requires Valid()
      modifies engine.Repr()
      ensures Valid()
      ensures CycleResult(engine.View(), engine.execution.exchange.venue, result)
              == RunCycle(engine.m, engine.cfg, old(engine.View()), old(engine.execution.exchange.venue), report, bar)
    {
      if report.Some? {
        var error := engine.ReconcileExchangePosition(report.value);
        if error.Some? {
          return Failed(error.value);
        }
      }
      result := engine.ProcessBar(bar);
    }

    /** One cycle.  The state is written after a failure too, and only after a success is a failed
        write an error of its own. */
    method RunOnce(ghost clock: int, report: Option<Report>, bar: BarInput, save: Save) returns (r: RunResult)
      requires Valid()
      modifies engine.Repr(), store
      ensures Valid()
      ensures (System(), engine.execution.exchange.venue, r)
              == Cycled(engine.m, engine.cfg, old(System()), Cycle(clock, old(engine.execution.exchange.venue), report, bar, save))
    {
      ghost var sys, event := System(), Cycle(clock, engine.execution.exchange.venue, report, bar, save);
      var result := ReconcileThenTrade(report, bar);
      ghost var c := CycleResult(engine.View(), engine.execution.exchange.venue, result);
      var ok := SaveState(save);
      CycledBy(engine.m, engine.cfg, sys, event, c);
      match result
      case Failed(error) =>
        return StrategyFailed(error);
      case Processed(events, logs) =>
        return if ok then Outcome(events, logs) else StateNotSaved;
    }

    method MeetExchange(venue: Venue)
      requires Valid()
      modifies engine.execution.exchange
      ensures Valid() && System() == old(System()) && engine.execution.exchange.venue == venue
    {
      engine.execution.exchange.venue := venue;
    }

    method RunEvent(event: Event) returns (r: RunResult)
      requires Valid() && event.Cycle?
      modifies engine.Repr(), store
      ensures Valid() && System() == Next(engine.m, engine.cfg, old(System()), event)
      ensures r.Logs() == HandedBy(engine.m, engine.cfg, old(System()).engine, event)
    {
      CycledIsNext(engine.m, engine.cfg, System(), event);
      MeetExchange(event.venue);
      r := RunOnce(event.clock, event.report, event.bar, event.save);
    }

    /** One more event of a run. */
    method Continue(event: Event, ghost run: seq<Event>) returns (r: RunResult)
      requires Valid() && event.Cycle? && System() == After(engine.m, engine.cfg, FRESH_SYSTEM, run)
      modifies engine.Repr(), store
      ensures Valid() && System() == After(engine.m, engine.cfg, FRESH_SYSTEM, run + [event])
      ensures HandedOut(engine.m, engine.cfg, run + [event]) == HandedOut(engine.m, engine.cfg, run) + r.Logs()
    {
      ghost var sys := System();
      r := RunEvent(event);
      Extended(engine.m, engine.cfg, run, sys, event, System(), r.Logs());
    }

    /** One input of the loop: a tick runs a cycle, a signal only asks to stop or not. */
    method Take(input: LoopInput, before: RunResult, ghost past: seq<Event>, ghost run: seq<Event>, logs: seq<TradeLog>)
      returns (last: RunResult, stopped: bool, logs': seq<TradeLog>, ghost run': seq<Event>)
      requires Valid() && (input.Tick? ==> input.event.Cycle?) && System() == After(engine.m, engine.cfg, FRESH_SYSTEM, run)
      requires HandedOut(engine.m, engine.cfg, run) == HandedOut(engine.m, engine.cfg, past) + logs
      modifies engine.Repr(), store
      ensures Valid() && System() == After(engine.m, engine.cfg, FRESH_SYSTEM, run')
      ensures HandedOut(engine.m, engine.cfg, run') == HandedOut(engine.m, engine.cfg, past) + logs'
      ensures run' == (if input.Tick? then run + [input.event] else run) && stopped == (input == Shutdown(true))
      ensures input.Shutdown? ==> last == before && logs' == logs
    {
      last, stopped, logs', run' := before, input == Shutdown(true), logs, run;
      if input.Tick? {
        last := Continue(input.event, run);
        Appended(HandedOut(engine.m, engine.cfg, past), logs, last.Logs());
        run' := run + [input.event];
        logs' := logs + last.Logs();
      }
    }

    /** Ticks run cycles until one reports an error or a shutdown is signalled, after any past.  Before
        each the exchange is as the event says. */
    method RunLoop(inputs: seq<LoopInput>, ghost past: seq<Event>)
      returns (done: nat, last: RunResult, stopped: bool, logs: seq<TradeLog>, ghost run: seq<Event>)
      requires Valid() && forall i :: 0 <= i < |inputs| && inputs[i].Tick? ==> inputs[i].event.Cycle?
      requires System() == After(engine.m, engine.cfg, FRESH_SYSTEM, past)
      modifies engine.Repr(), store
      ensures done <= |inputs| && run == past + Ticks(inputs[..done])
      ensures done < |inputs| ==> stopped || !last.Outcome?
      ensures stopped <==> Shutdown(true) in inputs[..done]
      ensures Valid() && System() == After(engine.m, engine.cfg, FRESH_SYSTEM, run)
      ensures HandedOut(engine.m, engine.cfg, run) == HandedOut(engine.m, engine.cfg, past) + logs
    {
      done, last, stopped, logs, run := 0, Outcome([], []), false, [], past;
      while done < |inputs| && last.Outcome? && !stopped
        invariant done <= |inputs| && run == past + Ticks(inputs[..done])
        invariant stopped <==> Shutdown(true) in inputs[..done]
        invariant Valid() && System() == After(engine.m, engine.cfg, FRESH_SYSTEM, run)
        invariant HandedOut(engine.m, engine.cfg, run) == HandedOut(engine.m, engine.cfg, past) + logs
      {
        TakeOneMore(past, inputs, done);
        last, stopped, logs, run := Take(inputs[done], last, past, run, logs);
        done := done + 1;
      }
    }
  }

  /** The loop waits for a tick of the clock or a change of the shutdown signal. */
  datatype LoopInput = Tick(event: Event) | Shutdown(signal: bool)

  function Ticks(inputs: seq<LoopInput>): seq<Event> {
    if |inputs| == 0 then []
    else
      var init, last := Ticks(inputs[..|inputs| - 1]), inputs[|inputs| - 1];
      if last.Tick? then init + [last.event] else init
  }

  lemma TakeOneMore(past: seq<Event>, inputs: seq<LoopInput>, n: nat)
    requires n < |inputs|
    ensures past + Ticks(inputs[..n + 1])
            == if inputs[n].Tick? then (past + Ticks(inputs[..n])) + [inputs[n].event] else past + Ticks(inputs[..n])
    ensures Shutdown(true) in inputs[..n + 1] <==> Shutdown(true) in inputs[..n] || inputs[n] == Shutdown(true)
  {
    assert inputs[..n + 1][..n] == inputs[..n];
    assert inputs[..n + 1] == inputs[..n] + [inputs[n]];
  }

  lemma Appended<T>(a: seq<T>, b: seq<T>, c: seq<T>)
    ensures (a + b) + c == a + (b + c)
  {
  }

  lemma Extended(m: Maths, cfg: Config, run: seq<Event>, sys: System, event: Event, sys': System, logs: seq<TradeLog>)
    requires cfg.IndicatorsValid() && sys == After(m, cfg, FRESH_SYSTEM, run)
    requires sys' == Next(m, cfg, sys, event) && logs == HandedBy(m, cfg, sys.engine, event)
    ensures sys' == After(m, cfg, FRESH_SYSTEM, run + [event])
    ensures HandedOut(m, cfg, run + [event]) == HandedOut(m, cfg, run) + logs
  {
    assert (run + [event])[..|run|] == run;
  }

  /** A new engine with the recovered saved state, if there is one. */
  method Restore(cfg: Config, m: Maths, exchange: Exchange, store: StateStore, clock: int)
    returns (engine: StrategyEngine, ok: bool)
    requires cfg.IndicatorsValid()
    ensures engine.Valid() && engine.cfg == cfg && engine.m == m && engine.execution.exchange == exchange
    ensures fresh(engine) && fresh(engine.Repr() - {exchange})
    ensures ok == Restarted(store.saved, clock).Some? && (ok ==> engine.View() == Restarted(store.saved, clock).value)
  {
    engine := new StrategyEngine(cfg, m, exchange);
    ok := true;
    if store.saved.Some? {
      var report := RecoverState(store.saved.value, clock);
      ok := engine.ApplyState(report.state);
    }
  }

  /** A new process: the saved state is recovered and applied, then price records are replayed. */
  method Start(cfg: Config, m: Maths, exchange: Exchange, store: StateStore, clock: int, records: seq<PriceRecord>)
    returns (engine: StrategyEngine, ok: bool)
    requires cfg.IndicatorsValid()
    modifies exchange
    ensures exchange.venue == old(exchange.venue)
    ensures engine.Valid() && engine.cfg == cfg && engine.m == m && engine.execution.exchange == exchange
    ensures fresh(engine) && fresh(engine.Repr() - {exchange})
    ensures var e := Restarted(store.saved, clock);
            && (ok <==> e.Some? && WarmUp(m, cfg, e.value, records).1)
            && (e.Some? ==> engine.View() == WarmUp(m, cfg, e.value, records).0)
  {
    engine, ok := Restore(cfg, m, exchange, store, clock);
    if ok {
      ok := engine.WarmUpWithRecords(records);
    }
  }
}
