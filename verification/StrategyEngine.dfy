/** The live engine as the object the program runs, step by step. */
module Engine {
  import opened Trading
  import opened State
  import opened Indicators
  import opened Pipeline
  import opened Execution
  import opened Sizing
  import opened Strategy

  method SummarizeExchangeFills(fills: seq<ExchangeFill>, fallbackEth: real, fallbackBtc: real) returns (a: FillAccounting)
    ensures a == SummarizeFills(fills, fallbackEth, fallbackBtc)
  {
    var ethPxSz, ethSz, btcPxSz, btcSz, fee, closedPnl := 0.0, 0.0, 0.0, 0.0, 0.0, 0.0;
    for i := 0 to |fills|
      invariant FillTotals(ethPxSz, ethSz, btcPxSz, btcSz, fee, closedPnl) == TotalFills(fills[..i])
    {
      var fill := fills[i];
      assert fills[..i + 1][..i] == fills[..i];
      fee := fee + fill.fee;
      closedPnl := closedPnl + fill.closedPnl;
      match fill.coin {
        case EthPerp =>
          ethPxSz := ethPxSz + Notional(fill.size, fill.price);
          ethSz := ethSz + fill.size;
        case BtcPerp =>
          btcPxSz := btcPxSz + Notional(fill.size, fill.price);
          btcSz := btcSz + fill.size;
      }
    }
    assert fills[..|fills|] == fills;
    return FillAccounting(if ethSz > 0.0 then ethPxSz / ethSz else fallbackEth,
                          if btcSz > 0.0 then btcPxSz / btcSz else fallbackBtc,
                          closedPnl - fee);
  }

  class StrategyEngine {
    const cfg: Config
    const m: Maths
    const pipeline: SignalPipeline
    const machine: StateMachine
    const execution: ExecutionEngine
    var cumulative: real
    var pendingEvents: seq<LogEvent>
    var pendingLogs: seq<TradeLog>

    ghost function Repr(): set<object> {
      {this, machine, execution.exchange} + pipeline.Repr()
    }

    ghost predicate Valid()
      reads Repr()
    {
      && pipeline.Valid(cfg)
      && machine.cooldownHours == cfg.risk.cooldownHours
      && execution.maxAttempts == cfg.execution.maxAttempts
    }

    ghost function View(): EngineState
      reads Repr()
    {
      EngineState(pipeline.View(), machine.state, cumulative, pendingEvents, pendingLogs)
    }

    /** The bar in progress, with what it has reported so far. */
    ghost function Now(events: seq<LogEvent>, logs: seq<TradeLog>): Turn
      reads Repr()
    {
      Turn(View(), execution.exchange.venue, events, logs)
    }

    /** The state in which a step of the bar ended. */
    ghost function Ended(stop: bool, error: Option<StrategyError>, events: seq<LogEvent>, logs: seq<TradeLog>): Phase
      reads Repr()
    {
      if stop then Stop(Now(events, logs), error) else Continue(Now(events, logs))
    }

    constructor (cfg: Config, m: Maths, exchange: Exchange)
      requires cfg.IndicatorsValid()
      ensures Valid() && View() == FRESH_ENGINE && this.cfg == cfg && this.m == m
      ensures execution.exchange == exchange && fresh(Repr() - {exchange})
    {
      this.cfg := cfg;
      this.m := m;
      pipeline := new SignalPipeline(cfg);
      machine := new StateMachine(cfg.risk.cooldownHours);
      execution := new ExecutionEngine(exchange, cfg.execution.maxAttempts);
      cumulative := 0.0;
      pendingEvents := [];
      pendingLogs := [];
    }

    method ApplyState(saved: StrategyState) returns (ok: bool)
      requires Valid()
      modifies this, machine
      ensures Valid() && ok == Applied(old(View()), saved).Some?
      ensures View() == if ok then Applied(old(View()), saved).value else old(View())
    {
      ok := machine.Hydrate(saved);
      if ok {
        cumulative := saved.cumulative;
      }
    }

    method BookPnl(pnl: real)
      requires Valid()
      modifies this, machine
      ensures Valid() && View() == AddRealizedPnl(old(View()), pnl)
    {
      cumulative := cumulative + pnl;
      machine.SetCumulativeRealizedPnl(cumulative);
    }

    // ---- the bar ---------------------------------------------------------------------------

    method ExpirePendingEntry(time: int, events: seq<LogEvent>, ghost logs: seq<TradeLog>)
      returns (stop: bool, error: Option<StrategyError>, events': seq<LogEvent>)
      requires Valid()
      modifies machine, execution.exchange
      ensures Valid() && Ended(stop, error, events', logs) == ExpirePending(cfg, old(Now(events, logs)), time)
    {
      var s := machine.state;
      if s.pending.Some? && s.status == PendingEntry && time >= s.pending.value.expiresAt {
        var first := execution.CancelWithRetry(s.pending.value.ethOid);
        if first.Err? {
          return true, Some(ExecutionFailed(first.error)), events;
        }
        var second := execution.CancelWithRetry(s.pending.value.btcOid);
        if second.Err? {
          return true, Some(ExecutionFailed(second.error)), events;
        }
        machine.ForceFlat();
        return false, None, events + [EntryCancelled];
      }
      return false, None, events;
    }

    /** The log of a repaired leg, with its PnL booked. */
    method BookRepair(p: PositionSnapshot, time: int, ethPrice: real, btcPrice: real,
                      fill: Option<(Symbol, OrderFill)>, fetched: Fetched) returns (log: TradeLog)
      requires Valid()
      modifies this, machine
      ensures Valid()
      ensures (View(), log) == RepairBooked(old(View()), p, time, ethPrice, btcPrice, fill, fetched)
    {
      var fillEth, fillBtc := ethPrice, btcPrice;
      if fill.Some? && fill.value.1.avgPrice.Some? {
        if fill.value.0 == EthPerp {
          fillEth := fill.value.1.avgPrice.value;
        } else {
          fillBtc := fill.value.1.avgPrice.value;
        }
      }
      var pnl := PositionPnl(p, fillEth, fillBtc);
      var a := FillAccounting(fillEth, fillBtc, pnl);
      if fill.Some? {
        a := AccountFor(fetched, OidSet(fill.value.1.oid), {fill.value.0}, fillEth, fillBtc, pnl);
      }
      BookPnl(a.realizedPnl);
      return TradeLog(time, RepairTrade, p.direction, p.eth.qty, p.btc.qty, a.ethPrice, a.btcPrice,
                      p.entryTime, a.realizedPnl, cumulative);
    }

    method RepairLocalResidual(bar: BarInput, events: seq<LogEvent>, logs: seq<TradeLog>)
      returns (stop: bool, error: Option<StrategyError>, events': seq<LogEvent>, logs': seq<TradeLog>)
      requires Valid()
      modifies this, machine, execution.exchange
      ensures Valid() && Ended(stop, error, events', logs') == RepairLocal(cfg, old(Now(events, logs)), bar)
    {
      var s := machine.state;
      if s.position.Some? && s.position.value.HasResidual() {
        var reply := execution.Repair(s.position.value);
        if reply.Err? {
          return true, Some(ExecutionFailed(reply.error)), events, logs;
        }
        var log := BookRepair(s.position.value, bar.time, bar.eth, bar.btc, reply.value, bar.repairFills);
        machine.ForceFlat();
        return false, None, events + [ResidualRepaired], logs + [log];
      }
      return false, None, events, logs;
    }

    method EnterOnFill(bar: BarInput, direction: TradeDirection, fills: PairFill, events: seq<LogEvent>, logs: seq<TradeLog>)
      returns (stop: bool, error: Option<StrategyError>, events': seq<LogEvent>, logs': seq<TradeLog>)
      requires Valid()
      modifies this, machine
      ensures Valid() && Ended(stop, error, events', logs') == EnterFilled(old(Now(events, logs)), bar, direction, fills)
    {
      var a := PairAccounting(bar.entryFills, fills, bar, 0.0);
      BookPnl(a.realizedPnl);
      var position := Opened(direction, bar.time, fills, a);
      var ok := machine.Enter(position, bar.time);
      if !ok {
        return true, Some(TransitionRefused), events, logs;
      }
      return false, None, events + [EntryMade], logs + [EntryLog(position, bar.time, a, cumulative)];
    }

    method Enter(bar: BarInput, output: SignalOutput, events: seq<LogEvent>, logs: seq<TradeLog>)
      returns (stop: bool, error: Option<StrategyError>, events': seq<LogEvent>, logs': seq<TradeLog>)
      requires Valid()
      modifies this, machine, execution.exchange
      ensures Valid() && Ended(stop, error, events', logs') == EnterIfSignalled(cfg, old(Now(events, logs)), bar, output)
    {
      if output.entry.None? || output.vol.eth.None? || output.vol.btc.None? {
        return false, None, events, logs;
      }
      var signal := output.entry.value;
      var plan := EntryPlan(cfg, bar, signal, output.vol.eth.value, output.vol.btc.value);
      if plan.PlanFails? {
        return true, Some(plan.error), events, logs;
      }
      if plan.PlanSkips? {
        return true, None, events, logs;
      }
      var reply := execution.Open(plan.eth, plan.btc);
      if reply.Err? {
        if PostOnlyWouldTake(reply.error) {
          return true, None, events + [EntryCancelled], logs;
        }
        return true, Some(ExecutionFailed(reply.error)), events, logs;
      }
      match reply.value
      case PairFilled(fills) =>
        stop, error, events', logs' := EnterOnFill(bar, signal.direction, fills, events, logs);
      case PairResting(ethOid, btcOid) =>
        var ok := machine.EnterPending(PendingEntrySnapshot(
          signal.direction, Signed(plan.eth.side, plan.eth.qty), Signed(plan.btc.side, plan.btc.qty), ethOid, btcOid,
          bar.time, bar.time + cfg.execution.postOnlyTtlSecs));
        if !ok {
          return true, Some(TransitionRefused), events, logs;
        }
        return false, None, events + [EntrySubmitted], logs;
    }

    method Exit(bar: BarInput, output: SignalOutput, events: seq<LogEvent>, logs: seq<TradeLog>)
      returns (stop: bool, error: Option<StrategyError>, events': seq<LogEvent>, logs': seq<TradeLog>)
      requires Valid()
      modifies this, machine, execution.exchange
      ensures Valid() && Ended(stop, error, events', logs') == ExitIfSignalled(cfg, old(Now(events, logs)), bar, output)
    {
      if output.exit.None? || machine.state.position.None? {
        return false, None, events, logs;
      }
      var position := machine.state.position.value;
      var reply := execution.Close(ExitOrder(cfg, EthPerp, position.eth.qty, bar.eth),
                                   ExitOrder(cfg, BtcPerp, position.btc.qty, bar.btc));
      if reply.Err? {
        return true, Some(ExecutionFailed(reply.error)), events, logs;
      }
      stop, error, events', logs' := ExitOnFill(bar, position, output.exit.value.reason, reply.value, events, logs);
    }

    method ExitOnFill(bar: BarInput, position: PositionSnapshot, reason: ExitReason, fills: PairFill,
                      events: seq<LogEvent>, logs: seq<TradeLog>)
      returns (stop: bool, error: Option<StrategyError>, events': seq<LogEvent>, logs': seq<TradeLog>)
      requires Valid()
      modifies this, machine
      ensures Valid()
      ensures Ended(stop, error, events', logs') == ExitClosed(cfg, old(Now(events, logs)), bar, position, reason, fills)
    {
      var a := PairAccounting(bar.exitFills, fills, bar, ExitModelPnl(position, bar, fills));
      BookPnl(a.realizedPnl);
      logs' := logs + [ExitLog(position, bar.time, reason, a, cumulative)];
      var ok := machine.Exit(reason, bar.time);
      if !ok {
        return true, Some(TransitionRefused), events, logs';
      }
      return false, None, events + [ExitMade(reason)], logs';
    }

    method TradeBar(bar: BarInput, events: seq<LogEvent>, logs: seq<TradeLog>)
      returns (stop: bool, error: Option<StrategyError>, events': seq<LogEvent>, logs': seq<TradeLog>)
      requires Valid()
      modifies Repr()
      ensures Valid() && Ended(stop, error, events', logs') == TradeSignals(m, cfg, old(Now(events, logs)), bar)
    {
      var output := pipeline.Update(m, cfg, PriceTick(bar.time, bar.eth, bar.btc, machine.state.status, machine.state.position));
      if output.None? {
        return true, Some(IndicatorFailed), events, logs;
      }
      stop, error, events', logs' := Enter(bar, output.value, events, logs);
      if stop {
        return;
      }
      stop, error, events', logs' := Exit(bar, output.value, events', logs');
    }

    method PrepareBar(bar: BarInput)
      returns (stop: bool, error: Option<StrategyError>, events: seq<LogEvent>, logs: seq<TradeLog>)
      requires Valid()
      modifies Repr()
      ensures Valid()
      ensures Ended(stop, error, events, logs) == Prepare(cfg, old(View()), old(execution.exchange.venue), bar)
    {
      events, logs := pendingEvents, pendingLogs;
      pendingEvents := [];
      pendingLogs := [];
      stop, error, events := ExpirePendingEntry(bar.time, events, logs);
      if stop {
        return;
      }
      machine.Update(bar.time);
      stop, error, events, logs := RepairLocalResidual(bar, events, logs);
    }

    method ProcessBar(bar: BarInput) returns (result: BarResult)
      requires Valid()
      modifies Repr()
      ensures Valid()
      ensures (View(), execution.exchange.venue, result)
              == Strategy.ProcessBar(m, cfg, old(View()), old(execution.exchange.venue), bar)
    {
      var stop, error, events, logs := PrepareBar(bar);
      if !stop {
        stop, error, events, logs := TradeBar(bar, events, logs);
      }
      return if stop && error.Some? then Failed(error.value) else Processed(events, logs);
    }

    // ---- reconciliation ----------------------------------------------------------------------

    method ReconcileExchangePosition(x: Report) returns (error: Option<StrategyError>)
      requires Valid()
      modifies this, machine, execution.exchange
      ensures Valid()
      ensures Reconciled(View(), execution.exchange.venue, error)
              == Reconcile(cfg, old(View()), old(execution.exchange.venue), x)
    {
      var s := machine.state;
      if x.exposure.IsFlat() {
        if s.position.Some? {
          machine.ForceFlat();
        }
        return None;
      }
      if x.exposure.HasResidual() {
        error := RepairExchangeResidual(x);
        return;
      }
      match s.status
      case PendingEntry =>
        error := ConfirmFromExposure(x);
      case InPosition =>
        if s.position.None? {
          return Some(SnapshotMissing);
        }
        if x.exposure.EthQty() != s.position.value.eth.qty || x.exposure.BtcQty() != s.position.value.btc.qty {
          return Some(BookMismatch);
        }
        return None;
      case _ =>
        return Some(BookMismatch);
    }

    method RepairExchangeResidual(x: Report) returns (error: Option<StrategyError>)
      requires Valid()
      modifies this, machine, execution.exchange
      ensures Valid()
      ensures Reconciled(View(), execution.exchange.venue, error)
              == ReconcileResidual(cfg, old(View()), old(execution.exchange.venue), x)
    {
      var s := machine.state;
      if s.status == PendingEntry && s.pending.Some? {
        var ignoredEth := execution.CancelWithRetry(s.pending.value.ethOid);
        var ignoredBtc := execution.CancelWithRetry(s.pending.value.btcOid);
      }
      var position := ExposureToPosition(x.exposure, x.time);
      if position.None? {
        return Some(SnapshotMissing);
      }
      var reply := execution.Repair(position.value);
      if reply.Err? {
        return Some(ExecutionFailed(reply.error));
      }
      var log := BookRepair(position.value, x.time, x.eth, x.btc, reply.value, x.fills);
      machine.ForceFlat();
      pendingEvents := pendingEvents + [ResidualRepaired];
      pendingLogs := pendingLogs + [log];
      return None;
    }

    method ConfirmFromExposure(x: Report) returns (error: Option<StrategyError>)
      requires Valid()
      modifies this, machine
      ensures Valid()
      ensures Reconciled(View(), execution.exchange.venue, error)
              == ReconcilePending(old(View()), old(execution.exchange.venue), x)
    {
      var position := ExposureToPosition(x.exposure, x.time);
      if position.None? || machine.state.pending.None? {
        return Some(SnapshotMissing);
      }
      var p, pending := position.value, machine.state.pending.value;
      var a := AccountFor(x.fills, {pending.ethOid, pending.btcOid}, {EthPerp, BtcPerp},
                          p.eth.avgPrice, p.btc.avgPrice, 0.0);
      p := p.(eth := p.eth.(avgPrice := a.ethPrice), btc := p.btc.(avgPrice := a.btcPrice));
      BookPnl(a.realizedPnl);
      var ok := machine.ConfirmPendingEntry(p);
      if !ok {
        return Some(TransitionRefused);
      }
      pendingEvents := pendingEvents + [EntryMade];
      pendingLogs := pendingLogs + [EntryLog(p, x.time, a, cumulative)];
      return None;
    }

    method WarmUpOne(r: PriceRecord) returns (ok: bool)
      requires Valid()
      modifies Repr()
      ensures Valid() && (View(), ok) == WarmUpStep(m, cfg, old(View()), r)
      ensures execution.exchange.venue == old(execution.exchange.venue)
    {
      machine.Update(r.time);
      var eth := r.eth.Selected(cfg.priceField);
      if eth.None? {
        return false;
      }
      var btc := r.btc.Selected(cfg.priceField);
      if btc.None? {
        return false;
      }
      var output := pipeline.Update(
        m, cfg, PriceTick(r.time, eth.value, btc.value, machine.state.status, machine.state.position));
      return output.Some?;
    }

    method WarmUpWithRecords(records: seq<PriceRecord>) returns (ok: bool)
      requires Valid()
      modifies Repr()
      ensures Valid() && (View(), ok) == WarmUp(m, cfg, old(View()), records)
      ensures execution.exchange.venue == old(execution.exchange.venue)
    {
      var sorted := SortByTime(records);
      ghost var all := ReplayRecords(m, cfg, View(), sorted);
      for i := 0 to |sorted|
        invariant Valid() && all == ReplayRecords(m, cfg, View(), sorted[i..])
        invariant execution.exchange.venue == old(execution.exchange.venue)
      {
        assert sorted[i..][0] == sorted[i] && sorted[i..][1..] == sorted[i + 1..];
        ok := WarmUpOne(sorted[i]);
        if !ok {
          return;
        }
      }
      return true;
    }
  }
}
