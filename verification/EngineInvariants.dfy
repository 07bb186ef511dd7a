/** What every bar and every reconciliation of the live engine keeps. */
module EngineInvariants {
  import opened Trading
  import opened State
  import opened Indicators
  import opened Pipeline
  import opened Execution
  import opened PairProtocol
  import opened Sizing
  import opened Strategy

  /** The state carries exactly its payload, and an open position has both legs. */
  predicate MachineSound(s: StrategyState) {
    && WellFormed(s)
    && (s.position.Some? ==> s.position.value.eth.qty != 0.0 && s.position.value.btc.qty != 0.0)
  }

  predicate EngineSound(cfg: Config, e: EngineState) {
    && MachineSound(e.machine) && e.machine.cumulative == e.cumulative && Pipeline.Sound(cfg, e.signals)
  }

  /** Settings under which every order has a positive quantity (`OrdersPositiveIff`). */
  predicate SizesPositive(cfg: Config) {
    RaisesToSomething(cfg.eth, cfg.position.minSizePolicy) && RaisesToSomething(cfg.btc, cfg.position.minSizePolicy)
  }

  /** A live exchange reports positive fills whatever it is asked for; paper trading echoes the
      order, so there the settings must give positive quantities. */
  ghost predicate Fits(cfg: Config, v: Venue) {
    v.Sound() && (v.paper ==> SizesPositive(cfg))
  }

  /** Realized PnL of a list of logs. */
  function LogSum(logs: seq<TradeLog>): real {
    if |logs| == 0 then 0.0 else LogSum(logs[..|logs| - 1]) + logs[|logs| - 1].realizedPnl
  }

  lemma LogSumSnoc(logs: seq<TradeLog>, log: TradeLog)
    ensures LogSum(logs + [log]) == LogSum(logs) + log.realizedPnl
  {
    assert (logs + [log])[..|logs|] == logs;
  }

  /** PnL of the engine not yet explained by the logs at hand. */
  function Unlogged(t: Turn): real {
    t.engine.cumulative - LogSum(t.logs)
  }

  /** What every phase of a bar keeps. */
  ghost predicate TurnSound(cfg: Config, t: Turn) {
    EngineSound(cfg, t.engine) && t.venue.Sound() && t.engine.events == [] && t.engine.logs == []
  }

  /** A phase keeps soundness and the ledger of realized PnL, and refuses no transition. */
  ghost predicate PhaseKeeps(cfg: Config, t: Turn, p: Phase) {
    && TurnSound(cfg, p.turn) && p.turn.venue.paper == t.venue.paper
    && Unlogged(p.turn) == Unlogged(t)
    && (p.Stop? ==> p.error != Some(TransitionRefused) && p.error != Some(SnapshotMissing))
  }

  lemma PaperCancel(v: Venue, oid: nat, attempt: nat, attempts: nat)
    requires v.paper && attempt < attempts
    ensures var (v', r) := RetryCancelFrom(v, oid, attempt, attempts);
            r.Ok? && v'.book == v.book && v'.paper && v'.script == v.script
  {
  }

  /** Cancelling keeps the exchange sound and touches no exposure. */
  lemma CancelKeeps(v: Venue, oid: nat, maxAttempts: nat)
    requires v.Sound()
    ensures var v' := RetryCancel(v, oid, maxAttempts).0;
            v'.Sound() && v'.paper == v.paper && v'.book.eth == v.book.eth && v'.book.btc == v.book.btc
  {
    if v.paper {
      PaperCancel(v, oid, 0, Max1(maxAttempts));
    } else {
      CancelExact(v, oid, 0, Max1(maxAttempts));
    }
  }

  lemma ExpireKeeps(cfg: Config, t: Turn, time: int)
    requires TurnSound(cfg, t)
    ensures PhaseKeeps(cfg, t, ExpirePending(cfg, t, time))
    ensures var v' := ExpirePending(cfg, t, time).turn.venue;
            v'.book.eth == t.venue.book.eth && v'.book.btc == t.venue.book.btc
    ensures ExpirePending(cfg, t, time).turn.engine.machine.position == t.engine.machine.position
  {
    var s := t.engine.machine;
    if s.pending.Some? {
      CancelKeeps(t.venue, s.pending.value.ethOid, cfg.execution.maxAttempts);
      CancelKeeps(RetryCancel(t.venue, s.pending.value.ethOid, cfg.execution.maxAttempts).0,
                  s.pending.value.btcOid, cfg.execution.maxAttempts);
    }
  }

  /** The local repair never runs: a sound position has both legs. */
  lemma RepairLocalUnreachable(cfg: Config, t: Turn, bar: BarInput)
    requires TurnSound(cfg, t)
    ensures RepairLocal(cfg, t, bar) == Continue(t)
  {
  }

  lemma PrepareKeeps(cfg: Config, e: EngineState, v: Venue, bar: BarInput)
    requires EngineSound(cfg, e) && v.Sound()
    ensures PhaseKeeps(cfg, TakePending(e, v), Prepare(cfg, e, v, bar))
    ensures var t := Prepare(cfg, e, v, bar).turn;
            && t.venue.book.eth == v.book.eth && t.venue.book.btc == v.book.btc
            && t.engine.machine.position == e.machine.position && t.engine.signals == e.signals
  {
    var t := TakePending(e, v);
    ExpireKeeps(cfg, t, bar.time);
    var p := ExpirePending(cfg, t, bar.time);
    if p.Continue? {
      RepairLocalUnreachable(cfg, p.turn.(engine := p.turn.engine.(machine := Updated(p.turn.engine.machine, bar.time))), bar);
    }
  }

  // ---- entry -----------------------------------------------------------------------------

  /** Orders for the two legs, on opposite sides given by the direction. */
  predicate EntryOrders(direction: TradeDirection, eth: OrderRequest, btc: OrderRequest) {
    && IsPair(eth, btc)
    && eth.side == EntrySide(direction, EthPerp) && btc.side == EntrySide(direction, BtcPerp)
  }

  predicate Positive(eth: OrderRequest, btc: OrderRequest) {
    eth.qty > 0.0 && btc.qty > 0.0
  }

  lemma OrdersPositive(cfg: Config, bar: BarInput, signal: EntrySignal, volEth: real, volBtc: real)
    ensures var plan := EntryPlan(cfg, bar, signal, volEth, volBtc);
            plan.PlanOrders? ==>
              EntryOrders(signal.direction, plan.eth, plan.btc) && (SizesPositive(cfg) ==> Positive(plan.eth, plan.btc))
  {
    var plan := EntryPlan(cfg, bar, signal, volEth, volBtc);
    if plan.PlanOrders? && SizesPositive(cfg) {
      var capital := EntryCapital(cfg, EntryEquity(cfg, bar), Multiplier(cfg, signal.direction)).amount;
      var w := RiskParityWeights(volEth, volBtc);
      RaisedForSomething(cfg.eth, cfg.position.minSizePolicy, Share(capital, w.eth), bar.eth);
      RaisedForSomething(cfg.btc, cfg.position.minSizePolicy, Share(capital, w.btc), bar.btc);
    }
  }

  /** The orders of an entry at these prices, if it sends any, are for something. */
  predicate PositiveAt(cfg: Config, bar: BarInput, signal: EntrySignal, volEth: real, volBtc: real, eth: real, btc: real) {
    var plan := EntryPlan(cfg, bar.(eth := eth, btc := btc), signal, volEth, volBtc);
    plan.PlanOrders? ==> Positive(plan.eth, plan.btc)
  }

  /** The entry asks for a capital, and the gates let it pass. */
  predicate EntryFunded(cfg: Config, bar: BarInput, signal: EntrySignal) {
    bar.gate == Pass && EntryCapital(cfg, EntryEquity(cfg, bar), Multiplier(cfg, signal.direction)).Capital?
  }

  lemma FundedEntryOrders(cfg: Config, bar: BarInput, signal: EntrySignal, volEth: real, volBtc: real, eth: real, btc: real)
    requires EntryFunded(cfg, bar, signal) && cfg.position.minSizePolicy == Adjust
    requires eth > 0.0 && btc > 0.0 && cfg.eth.stepSize > 0.0 && cfg.btc.stepSize > 0.0
    ensures var plan := EntryPlan(cfg, bar.(eth := eth, btc := btc), signal, volEth, volBtc);
            var capital := EntryCapital(cfg, EntryEquity(cfg, bar), Multiplier(cfg, signal.direction)).amount;
            var w := RiskParityWeights(volEth, volBtc);
            && plan.PlanOrders?
            && plan.eth.qty == ConvertNotional(cfg.eth, Adjust, Share(capital, w.eth), eth).order.qty
            && plan.btc.qty == ConvertNotional(cfg.btc, Adjust, Share(capital, w.btc), btc).order.qty
  {
  }

  /** For any funded entry: its orders are positive at all prices if and only if sizes below the
      minimum are skipped, or neither coin's minimum quantity rounds away. */
  lemma OrdersPositiveIff(cfg: Config, bar: BarInput, signal: EntrySignal, volEth: real, volBtc: real)
    requires EntryFunded(cfg, bar, signal)
    requires cfg.eth.minQty > 0.0 && cfg.eth.stepSize > 0.0 && cfg.btc.minQty > 0.0 && cfg.btc.stepSize > 0.0
    ensures (forall eth: real, btc: real :: PositiveAt(cfg, bar, signal, volEth, volBtc, eth, btc)) <==> SizesPositive(cfg)
  {
    if SizesPositive(cfg) {
      forall eth: real, btc: real
        ensures PositiveAt(cfg, bar, signal, volEth, volBtc, eth, btc)
      {
        OrdersPositive(cfg, bar.(eth := eth, btc := btc), signal, volEth, volBtc);
      }
    } else {
      var eth, btc := SomePricesOrderNothing(cfg, bar, signal, volEth, volBtc);
      assert !PositiveAt(cfg, bar, signal, volEth, volBtc, eth, btc);
    }
  }

  lemma SomePricesOrderNothing(cfg: Config, bar: BarInput, signal: EntrySignal, volEth: real, volBtc: real)
    returns (eth: real, btc: real)
    requires EntryFunded(cfg, bar, signal) && !SizesPositive(cfg)
    requires cfg.eth.minQty > 0.0 && cfg.eth.stepSize > 0.0 && cfg.btc.minQty > 0.0 && cfg.btc.stepSize > 0.0
    ensures var plan := EntryPlan(cfg, bar.(eth := eth, btc := btc), signal, volEth, volBtc);
            plan.PlanOrders? && (plan.eth.qty == 0.0 || plan.btc.qty == 0.0)
  {
    var capital := EntryCapital(cfg, EntryEquity(cfg, bar), Multiplier(cfg, signal.direction)).amount;
    var w := RiskParityWeights(volEth, volBtc);
    eth := HighPrice(Share(capital, w.eth), cfg.eth.stepSize, cfg.eth.minNotional, cfg.eth.minQty);
    btc := HighPrice(Share(capital, w.btc), cfg.btc.stepSize, cfg.btc.minNotional, cfg.btc.minQty);
    FundedEntryOrders(cfg, bar, signal, volEth, volBtc, eth, btc);
    if !RaisesToSomething(cfg.eth, Adjust) {
      RaisedNotNegative(cfg.eth);
      HighPriceOrdersNothing(cfg.eth, Share(capital, w.eth), eth);
    } else {
      RaisedNotNegative(cfg.btc);
      HighPriceOrdersNothing(cfg.btc, Share(capital, w.btc), btc);
    }
  }

  /** The notional wanted for a leg of an entry. */
  function LegNotional(cfg: Config, bar: BarInput, direction: TradeDirection, weight: real): real {
    match EntryCapital(cfg, EntryEquity(cfg, bar), Multiplier(cfg, direction))
    case NoCapital(_) => 0.0
    case Capital(capital) => Share(capital, weight)
  }

  /** Neither leg of the entry was raised to the minimum size; the skipping policy never does. */
  predicate NotRaised(cfg: Config, bar: BarInput, direction: TradeDirection, w: Weights) {
    || cfg.position.minSizePolicy == Skip
    || (Unadjusted(cfg.eth, LegNotional(cfg, bar, direction, w.eth), bar.eth)
        && Unadjusted(cfg.btc, LegNotional(cfg, bar, direction, w.btc), bar.btc))
  }

  /** Two whole-step, floor-mode legs of an entry that raises neither are together worth at most
      its capital, less than a step per leg below it, and so at most the configured maximum. */
  lemma PlanWithinCapital(cfg: Config, bar: BarInput, signal: EntrySignal, volEth: real, volBtc: real)
    requires StepRepresentable(cfg.eth) && StepRepresentable(cfg.btc)
    requires cfg.eth.roundingMode == FloorMode && cfg.btc.roundingMode == FloorMode
    requires EntryPlan(cfg, bar, signal, volEth, volBtc).PlanOrders?
    requires NotRaised(cfg, bar, signal.direction, RiskParityWeights(volEth, volBtc))
    ensures var plan := EntryPlan(cfg, bar, signal, volEth, volBtc);
            var capital := EntryCapital(cfg, EntryEquity(cfg, bar), Multiplier(cfg, signal.direction));
            var worth := Notional(plan.eth.qty, bar.eth) + Notional(plan.btc.qty, bar.btc);
            && capital.Capital? && worth <= capital.amount
            && capital.amount - Notional(cfg.eth.stepSize, bar.eth) - Notional(cfg.btc.stepSize, bar.btc) < worth
            && (cfg.position.maxNotional.Some? ==> worth <= capital.amount <= cfg.position.maxNotional.value)
  {
    var capital := EntryCapital(cfg, EntryEquity(cfg, bar), Multiplier(cfg, signal.direction)).amount;
    LegsWithinCapital(cfg.eth, cfg.btc, cfg.position.minSizePolicy, capital, volEth, volBtc, bar.eth, bar.btc);
  }

  /** A successful open moved each leg by its reported fill and left the resting orders alone, or
      rests both and moved nothing. */
  ghost predicate OpenedExactly(v: Venue, eth: OrderRequest, btc: OrderRequest, v': Venue, r: Reply<PairOpenOutcome>) {
    && v'.Sound() && v'.paper == v.paper
    && (r.Ok? && r.value.PairFilled? ==>
          && r.value.fills.eth.qty > 0.0 && r.value.fills.btc.qty > 0.0
          && v'.book.eth == v.book.eth + Signed(eth.side, r.value.fills.eth.qty)
          && v'.book.btc == v.book.btc + Signed(btc.side, r.value.fills.btc.qty))
    && (r.Ok? && r.value.PairResting? ==> v'.book.eth == v.book.eth && v'.book.btc == v.book.btc)
    && (r.Err? && !r.error.PartialFill? ==> v'.book.eth == v.book.eth && v'.book.btc == v.book.btc)
  }

  lemma OpenExact(v: Venue, eth: OrderRequest, btc: OrderRequest, maxAttempts: nat)
    requires v.Sound() && IsPair(eth, btc) && (v.paper ==> Positive(eth, btc))
    ensures var (v', r) := OpenPair(v, eth, btc, maxAttempts);
            OpenedExactly(v, eth, btc, v', r)
  {
    RetryExact(v, eth, maxAttempts);
    var (v1, first) := RetrySubmitResult(v, eth, maxAttempts);
    if first.Ok? {
      RetryExact(v1, btc, maxAttempts);
      var (v2, second) := RetrySubmitResult(v1, btc, maxAttempts);
      if first.value.Filled? {
        RetryExact(v2, RollbackOrder(eth, first.value.fill), maxAttempts);
      } else if second.Err? {
        CancelKeeps(v2, first.value.oid, maxAttempts);
      } else if second.value.Filled? {
        RetryExact(v2, RollbackOrder(btc, second.value.fill), maxAttempts);
      }
    }
  }

  /** A successful close moved each leg by its reported fill. */
  lemma CloseExact(v: Venue, eth: OrderRequest, btc: OrderRequest, maxAttempts: nat)
    requires v.Sound() && IsPair(eth, btc)
    ensures var (v', r) := ClosePair(v, eth, btc, maxAttempts);
            && v'.Sound() && v'.paper == v.paper
            && (r.Ok? ==> v'.book.eth == v.book.eth + Signed(eth.side, r.value.eth.qty)
                          && v'.book.btc == v.book.btc + Signed(btc.side, r.value.btc.qty))
  {
    RetryExact(v, eth, maxAttempts);
    var (v1, first) := RetryFilled(v, eth, maxAttempts);
    if first.Ok? {
      RetryExact(v1, btc, maxAttempts);
      var (v2, second) := RetryFilled(v1, btc, maxAttempts);
      if second.Err? {
        RetryExact(v2, ReopenOrder(eth, first.value), maxAttempts);
      }
    }
  }

  lemma EnterFilledKeeps(cfg: Config, t: Turn, bar: BarInput, direction: TradeDirection, fills: PairFill)
    requires TurnSound(cfg, t) && t.engine.machine.status == Flat && fills.eth.qty > 0.0 && fills.btc.qty > 0.0
    ensures var p := EnterFilled(t, bar, direction, fills);
            && PhaseKeeps(cfg, t, p) && p.Continue? && p.turn.venue == t.venue
            && p.turn.engine.machine.status == InPosition
            && p.turn.engine.machine.position.value.eth.qty == Signed(EntrySide(direction, EthPerp), fills.eth.qty)
            && p.turn.engine.machine.position.value.btc.qty == Signed(EntrySide(direction, BtcPerp), fills.btc.qty)
  {
    var a := PairAccounting(bar.entryFills, fills, bar, 0.0);
    var e := AddRealizedPnl(t.engine, a.realizedPnl);
    LogSumSnoc(t.logs, EntryLog(Opened(direction, bar.time, fills, a), bar.time, a, e.cumulative));
  }

  lemma SubmitEntryKeeps(cfg: Config, t: Turn, bar: BarInput, signal: EntrySignal, plan: Plan)
    requires TurnSound(cfg, t) && t.engine.machine.status == Flat
    requires plan.PlanOrders? && EntryOrders(signal.direction, plan.eth, plan.btc)
    requires t.venue.paper ==> Positive(plan.eth, plan.btc)
    ensures PhaseKeeps(cfg, t, SubmitEntry(cfg, t, bar, signal, plan))
  {
    OpenExact(t.venue, plan.eth, plan.btc, cfg.execution.maxAttempts);
    var (v', r) := OpenPair(t.venue, plan.eth, plan.btc, cfg.execution.maxAttempts);
    if r.Ok? && r.value.PairFilled? {
      EnterFilledKeeps(cfg, t.(venue := v'), bar, signal.direction, r.value.fills);
    }
  }

  /** What an order for nothing does on paper: it is filled for nothing.  A filled entry leaves a
      sound engine if and only if neither order is for nothing; with one it holds a single leg. */
  lemma OrderForNothingOnPaper(cfg: Config, t: Turn, bar: BarInput, signal: EntrySignal, plan: Plan)
    requires TurnSound(cfg, t) && t.venue.paper && t.engine.machine.status == Flat
    requires plan.PlanOrders? && EntryOrders(signal.direction, plan.eth, plan.btc)
    requires OpenPair(t.venue, plan.eth, plan.btc, cfg.execution.maxAttempts).1.Ok?
    ensures var p := SubmitEntry(cfg, t, bar, signal, plan);
            && p.Continue? && p.turn.engine.machine.status == InPosition
            && (EngineSound(cfg, p.turn.engine) <==> plan.eth.qty != 0.0 && plan.btc.qty != 0.0)
            && (p.turn.engine.machine.position.value.HasResidual() <==> (plan.eth.qty == 0.0) != (plan.btc.qty == 0.0))
  {
    PaperOpened(t.venue, plan.eth, plan.btc, cfg.execution.maxAttempts);
  }

  /** The entry at these prices, if it sends orders, leaves the engine sound. */
  predicate EntersSoundly(cfg: Config, t: Turn, bar: BarInput, signal: EntrySignal, volEth: real, volBtc: real,
                          eth: real, btc: real)
  {
    var priced := bar.(eth := eth, btc := btc);
    var plan := EntryPlan(cfg, priced, signal, volEth, volBtc);
    plan.PlanOrders? ==> EngineSound(cfg, SubmitEntry(cfg, t, priced, signal, plan).turn.engine)
  }

  /** So the condition on sizes is exact: on paper any funded entry of limit orders leaves the engine
      sound at all prices if and only if the settings meet it. */
  lemma PaperEntriesSoundIff(cfg: Config, t: Turn, bar: BarInput, signal: EntrySignal, volEth: real, volBtc: real)
    requires TurnSound(cfg, t) && t.venue.paper && t.engine.machine.status == Flat
    requires EntryFunded(cfg, bar, signal) && cfg.execution.orderType == Limit
    requires cfg.eth.minQty > 0.0 && cfg.eth.stepSize > 0.0 && cfg.btc.minQty > 0.0 && cfg.btc.stepSize > 0.0
    ensures (forall eth: real, btc: real :: EntersSoundly(cfg, t, bar, signal, volEth, volBtc, eth, btc)) <==> SizesPositive(cfg)
  {
    if SizesPositive(cfg) {
      forall eth: real, btc: real
        ensures EntersSoundly(cfg, t, bar, signal, volEth, volBtc, eth, btc)
      {
        LimitEntrySoundIff(cfg, t, bar.(eth := eth, btc := btc), signal, volEth, volBtc);
        OrdersPositive(cfg, bar.(eth := eth, btc := btc), signal, volEth, volBtc);
      }
    } else {
      var eth, btc := SomePricesOrderNothing(cfg, bar, signal, volEth, volBtc);
      LimitEntrySoundIff(cfg, t, bar.(eth := eth, btc := btc), signal, volEth, volBtc);
      assert !EntersSoundly(cfg, t, bar, signal, volEth, volBtc, eth, btc);
    }
  }

  lemma LimitEntrySoundIff(cfg: Config, t: Turn, bar: BarInput, signal: EntrySignal, volEth: real, volBtc: real)
    requires TurnSound(cfg, t) && t.venue.paper && t.engine.machine.status == Flat && cfg.execution.orderType == Limit
    ensures var plan := EntryPlan(cfg, bar, signal, volEth, volBtc);
            plan.PlanOrders? ==>
              (EngineSound(cfg, SubmitEntry(cfg, t, bar, signal, plan).turn.engine) <==> plan.eth.qty != 0.0 && plan.btc.qty != 0.0)
  {
    var plan := EntryPlan(cfg, bar, signal, volEth, volBtc);
    if plan.PlanOrders? {
      OrdersPositive(cfg, bar, signal, volEth, volBtc);
      PaperLimitFill(t.venue, plan.eth, cfg.execution.maxAttempts);
      PaperLimitFill(RetrySubmitResult(t.venue, plan.eth, cfg.execution.maxAttempts).0, plan.btc, cfg.execution.maxAttempts);
      OrderForNothingOnPaper(cfg, t, bar, signal, plan);
    }
  }

  lemma PaperLimitFill(v: Venue, order: OrderRequest, maxAttempts: nat)
    requires v.paper && order.orderType == Limit
    ensures var (v', r) := RetrySubmitResult(v, order, maxAttempts);
            v'.paper && r == Ok(Filled(OrderFill(order.qty, None, None)))
  {
  }

  lemma PaperSubmitted(v: Venue, order: OrderRequest, maxAttempts: nat)
    requires v.paper
    ensures var (v', r) := RetrySubmitResult(v, order, maxAttempts);
            v'.paper && (r.Ok? ==> r == Ok(Filled(OrderFill(order.qty, None, None))))
  {
  }

  lemma PaperOpened(v: Venue, eth: OrderRequest, btc: OrderRequest, maxAttempts: nat)
    requires v.paper && OpenPair(v, eth, btc, maxAttempts).1.Ok?
    ensures OpenPair(v, eth, btc, maxAttempts).1
            == Ok(PairFilled(PairFill(OrderFill(eth.qty, None, None), OrderFill(btc.qty, None, None))))
  {
    PaperSubmitted(v, eth, maxAttempts);
    PaperSubmitted(RetrySubmitResult(v, eth, maxAttempts).0, btc, maxAttempts);
  }

  lemma EnterKeeps(cfg: Config, t: Turn, bar: BarInput, output: SignalOutput)
    requires TurnSound(cfg, t) && Fits(cfg, t.venue)
    requires output.entry.Some? ==> t.engine.machine.status == Flat
    ensures PhaseKeeps(cfg, t, EnterIfSignalled(cfg, t, bar, output))
  {
    if output.entry.Some? && output.vol.eth.Some? && output.vol.btc.Some? {
      var plan := EntryPlan(cfg, bar, output.entry.value, output.vol.eth.value, output.vol.btc.value);
      OrdersPositive(cfg, bar, output.entry.value, output.vol.eth.value, output.vol.btc.value);
      if plan.PlanOrders? {
        SubmitEntryKeeps(cfg, t, bar, output.entry.value, plan);
      }
    }
  }

  // ---- exit ------------------------------------------------------------------------------

  lemma ExitClosedKeeps(cfg: Config, t: Turn, bar: BarInput, p: PositionSnapshot, reason: ExitReason, fills: PairFill)
    requires TurnSound(cfg, t) && t.engine.machine.status == InPosition
    ensures var q := ExitClosed(cfg, t, bar, p, reason, fills);
            && PhaseKeeps(cfg, t, q) && q.Continue? && q.turn.venue == t.venue
            && q.turn.engine.machine.position.None?
            && (reason == StopLoss ==>
                  q.turn.engine.machine.status == Cooldown
                  && q.turn.engine.machine.cooldownUntil == Some(bar.time + cfg.risk.cooldownHours * 3600))
            && (reason != StopLoss ==> q.turn.engine.machine.status == Flat)
  {
    var a := PairAccounting(bar.exitFills, fills, bar, ExitModelPnl(p, bar, fills));
    var e := AddRealizedPnl(t.engine, a.realizedPnl);
    LogSumSnoc(t.logs, ExitLog(p, bar.time, reason, a, e.cumulative));
  }

  lemma ExitKeeps(cfg: Config, t: Turn, bar: BarInput, output: SignalOutput)
    requires TurnSound(cfg, t)
    ensures PhaseKeeps(cfg, t, ExitIfSignalled(cfg, t, bar, output))
  {
    var s := t.engine.machine;
    if output.exit.Some? && s.position.Some? {
      var eth := ExitOrder(cfg, EthPerp, s.position.value.eth.qty, bar.eth);
      var btc := ExitOrder(cfg, BtcPerp, s.position.value.btc.qty, bar.btc);
      CloseExact(t.venue, eth, btc, cfg.execution.maxAttempts);
      var (v', r) := ClosePair(t.venue, eth, btc, cfg.execution.maxAttempts);
      if r.Ok? {
        ExitClosedKeeps(cfg, t.(venue := v'), bar, s.position.value, output.exit.value.reason, r.value);
      }
    }
  }

  // ---- the whole bar -----------------------------------------------------------------------

  lemma TradeKeeps(m: Maths, cfg: Config, t: Turn, bar: BarInput)
    requires cfg.IndicatorsValid() && TurnSound(cfg, t) && Fits(cfg, t.venue)
    ensures PhaseKeeps(cfg, t, TradeSignals(m, cfg, t, bar))
  {
    var (signals, output) := PipelineStep(m, cfg, t.engine.signals, TickOf(t.engine, bar));
    StepKeepsSound(m, cfg, t.engine.signals, TickOf(t.engine, bar));
    OutputExclusive(m, cfg, t.engine.signals, TickOf(t.engine, bar));
    var t' := t.(engine := t.engine.(signals := signals));
    if output.Some? {
      EnterKeeps(cfg, t', bar, output.value);
      var p := EnterIfSignalled(cfg, t', bar, output.value);
      if p.Continue? {
        ExitKeeps(cfg, p.turn, bar, output.value);
      }
    }
  }

  /** Every bar, whatever the exchange answers and whether it succeeds or fails, keeps the engine
      sound, refuses no transition, and changes the cumulative PnL by exactly the PnL of the logs
      it took over and wrote. */
  lemma BarKeeps(m: Maths, cfg: Config, e: EngineState, v: Venue, bar: BarInput)
    requires cfg.IndicatorsValid() && EngineSound(cfg, e) && Fits(cfg, v)
    ensures var (e', v', result) := ProcessBar(m, cfg, e, v, bar);
            var logs := BarPhases(m, cfg, e, v, bar).turn.logs;
            && EngineSound(cfg, e') && v'.Sound() && v'.paper == v.paper
            && result != Failed(TransitionRefused) && result != Failed(SnapshotMissing)
            && e'.events == [] && e'.logs == []
            && e'.cumulative - e.cumulative == LogSum(logs) - LogSum(e.logs)
            && (result.Processed? ==> result.logs == logs)
  {
    PrepareKeeps(cfg, e, v, bar);
    var p := Prepare(cfg, e, v, bar);
    if p.Continue? {
      TradeKeeps(m, cfg, p.turn, bar);
    }
  }

  // ---- reconciliation ------------------------------------------------------------------------

  /** A reconciliation keeps the engine sound, refuses no transition, and changes the cumulative
      PnL by exactly the PnL of the logs it appends. */
  ghost predicate ReconcileKeeps(cfg: Config, e: EngineState, v: Venue, r: Reconciled) {
    && EngineSound(cfg, r.engine) && r.venue.Sound() && r.venue.paper == v.paper
    && r.error != Some(TransitionRefused) && r.error != Some(SnapshotMissing)
    && r.engine.cumulative - e.cumulative == LogSum(r.engine.logs) - LogSum(e.logs)
    && r.engine.signals == e.signals
  }

  lemma RepairBookedKeeps(e: EngineState, p: PositionSnapshot, time: int, ethPrice: real, btcPrice: real,
                          fill: Option<(Symbol, OrderFill)>, fetched: Fetched, logs: seq<TradeLog>)
    ensures var (e', log) := RepairBooked(e, p, time, ethPrice, btcPrice, fill, fetched);
            && e'.cumulative - e.cumulative == LogSum(logs + [log]) - LogSum(logs)
            && e'.machine == e.machine.(cumulative := e'.cumulative) && e'.signals == e.signals
  {
    LogSumSnoc(logs, RepairBooked(e, p, time, ethPrice, btcPrice, fill, fetched).1);
  }

  lemma CancelBothKeeps(v: Venue, pending: PendingEntrySnapshot, maxAttempts: nat)
    requires v.Sound()
    ensures var v' := CancelBoth(v, pending, maxAttempts);
            v'.Sound() && v'.paper == v.paper && v'.book.eth == v.book.eth && v'.book.btc == v.book.btc
  {
    CancelKeeps(v, pending.ethOid, maxAttempts);
    CancelKeeps(RetryCancel(v, pending.ethOid, maxAttempts).0, pending.btcOid, maxAttempts);
  }

  lemma ReconcileResidualKeeps(cfg: Config, e: EngineState, v: Venue, x: Report)
    requires EngineSound(cfg, e) && v.Sound() && x.exposure.HasResidual()
    ensures ReconcileKeeps(cfg, e, v, ReconcileResidual(cfg, e, v, x))
  {
    var s := e.machine;
    if s.pending.Some? {
      CancelBothKeeps(v, s.pending.value, cfg.execution.maxAttempts);
    }
    var v1 := if s.status == PendingEntry && s.pending.Some?
              then CancelBoth(v, s.pending.value, cfg.execution.maxAttempts) else v;
    var p := ExposureToPosition(x.exposure, x.time).value;
    RetryExact(v1, ResidualOrder(p).value, cfg.execution.maxAttempts);
    var (v2, r) := RepairResidual(v1, p, cfg.execution.maxAttempts);
    if r.Ok? {
      RepairBookedKeeps(e, p, x.time, x.eth, x.btc, r.value, x.fills, e.logs);
    }
  }

  lemma ReconcilePendingKeeps(cfg: Config, e: EngineState, v: Venue, x: Report)
    requires EngineSound(cfg, e) && v.Sound() && e.machine.status == PendingEntry
    requires !x.exposure.IsFlat() && !x.exposure.HasResidual()
    ensures ReconcileKeeps(cfg, e, v, ReconcilePending(e, v, x))
    ensures var r := ReconcilePending(e, v, x);
            && r.venue == v && r.error.None? && r.engine.machine.position.Some?
            && r.engine.machine.position.value.eth.qty == x.exposure.EthQty()
            && r.engine.machine.position.value.btc.qty == x.exposure.BtcQty()
  {
    var r := ReconcilePending(e, v, x);
    LogSumSnoc(e.logs, r.engine.logs[|r.engine.logs| - 1]);
  }

  lemma ReconciliationKeeps(cfg: Config, e: EngineState, v: Venue, x: Report)
    requires EngineSound(cfg, e) && v.Sound()
    ensures ReconcileKeeps(cfg, e, v, Reconcile(cfg, e, v, x))
  {
    if !x.exposure.IsFlat() {
      if x.exposure.HasResidual() {
        ReconcileResidualKeeps(cfg, e, v, x);
      } else if e.machine.status == PendingEntry {
        ReconcilePendingKeeps(cfg, e, v, x);
      }
    }
  }

  /** One cycle of the loop. */
  lemma CycleKeeps(m: Maths, cfg: Config, e: EngineState, v: Venue, report: Option<Report>, bar: BarInput)
    requires cfg.IndicatorsValid() && EngineSound(cfg, e) && Fits(cfg, v)
    ensures var c := RunCycle(m, cfg, e, v, report, bar);
            EngineSound(cfg, c.engine) && c.venue.Sound()
            && c.result != Failed(TransitionRefused) && c.result != Failed(SnapshotMissing)
  {
    var r := if report.Some? then Reconcile(cfg, e, v, report.value) else Reconciled(e, v, None);
    if report.Some? {
      ReconciliationKeeps(cfg, e, v, report.value);
    }
    if r.error.None? {
      BarKeeps(m, cfg, r.engine, r.venue, bar);
    }
  }
}
