/** What positions say of themselves in every run: direction, time, prices and quantities. */
module Positions {
  import opened Numbers
  import opened Trading
  import opened State
  import opened Indicators
  import opened Pipeline
  import opened Pricing
  import opened Execution
  import opened Sizing
  import opened Strategy
  import opened EngineInvariants
  import opened Accounts
  import R = Runs

  /** One leg long, the other short. */
  predicate Opposite(ethQty: real, btcQty: real) {
    (ethQty > 0.0 && btcQty < 0.0) || (ethQty < 0.0 && btcQty > 0.0)
  }

  predicate Opposed(p: PositionSnapshot) {
    Opposite(p.eth.qty, p.btc.qty)
  }

  /** Long ETH and short BTC is called so, and so is the opposite. */
  predicate Directed(p: PositionSnapshot) {
    && (p.eth.qty > 0.0 && p.btc.qty < 0.0 ==> p.direction == LongEthShortBtc)
    && (p.eth.qty < 0.0 && p.btc.qty > 0.0 ==> p.direction == ShortEthLongBtc)
  }

  /** Every position is directed and, if it must be, opposed. */
  predicate Named(s: StrategyState, opposed: bool) {
    s.position.Some? ==> Directed(s.position.value) && (opposed ==> Opposed(s.position.value))
  }

  // ---- confirmed entries -------------------------------------------------------------------------

  /** The entry of a position as the log tells it. */
  predicate LogsEntry(log: TradeLog, p: PositionSnapshot, time: int) {
    && log.event == EntryTrade && log.time == log.entryTime == time && log.direction == p.direction
    && log.ethQty == p.eth.qty && log.btcQty == p.btc.qty
    && log.ethPrice == p.eth.avgPrice && log.btcPrice == p.btc.avgPrice
  }

  /** The accounting of two orders: each price and the PnL are those of the exchange's fills if it
      reports some of both coins; else the prices stand and the PnL is the model's. */
  predicate Accounted(fetched: Fetched, oids: set<nat>, ethPrice: real, btcPrice: real, pnl: real,
                      accountedEth: real, accountedBtc: real, accountedPnl: real)
  {
    if Found(fetched, oids, EthPerp) && Found(fetched, oids, BtcPerp) then
      var fills := Matching(fetched.value, oids);
      && accountedEth == PriceOf(SummarizeFills(fills, ethPrice, btcPrice), EthPerp)
      && accountedBtc == PriceOf(SummarizeFills(fills, ethPrice, btcPrice), BtcPerp)
      && accountedPnl == SumOf(fills, CLOSED_PNL) - SumOf(fills, FEE)
    else accountedEth == ethPrice && accountedBtc == btcPrice && accountedPnl == pnl
  }

  lemma PairAccounted(fetched: Fetched, oids: set<nat>, ethPrice: real, btcPrice: real, pnl: real)
    ensures var a := AccountFor(fetched, oids, {EthPerp, BtcPerp}, ethPrice, btcPrice, pnl);
            Accounted(fetched, oids, ethPrice, btcPrice, pnl, a.ethPrice, a.btcPrice, a.realizedPnl)
  {
    AccountOfPair(fetched, oids, ethPrice, btcPrice, pnl);
    if Found(fetched, oids, EthPerp) && Found(fetched, oids, BtcPerp) {
      TotalsAreSums(Matching(fetched.value, oids));
    }
  }

  /** The position and the log that a confirmation makes of the report. */
  predicate ConfirmedBy(pending: PendingEntrySnapshot, x: Report, p: PositionSnapshot, log: TradeLog) {
    && x.exposure.eth.Some? && x.exposure.btc.Some?
    && var eth, btc := x.exposure.eth.value, x.exposure.btc.value;
       && p.entryTime == x.time && Directed(p)
       && p.eth.qty == eth.qty && p.btc.qty == btc.qty
       && p.eth.notional == eth.notional && p.btc.notional == btc.notional
       && Accounted(x.fills, {pending.ethOid, pending.btcOid}, eth.entryPrice, btc.entryPrice, 0.0,
                    p.eth.avgPrice, p.btc.avgPrice, log.realizedPnl)
       && LogsEntry(log, p, x.time)
  }

  /** A pending entry whose two legs the exchange reports is confirmed as reported: at the report's time,
      with the reported quantities, each leg at its own entry price unless the exchange's fills tell
      another, and in the direction of its legs. */
  lemma ConfirmsAsReported(cfg: Config, e: EngineState, v: Venue, x: Report)
    requires WellFormed(e.machine) && e.machine.status == PendingEntry
    requires x.exposure.EthQty() != 0.0 && x.exposure.BtcQty() != 0.0
    ensures var r := Reconcile(cfg, e, v, x);
            && r.error.None? && r.venue == v && r.engine.machine.position.Some?
            && |r.engine.logs| == |e.logs| + 1 && r.engine.logs[..|e.logs|] == e.logs
            && var log := r.engine.logs[|e.logs|];
               && ConfirmedBy(e.machine.pending.value, x, r.engine.machine.position.value, log)
               && r.engine.cumulative == e.cumulative + log.realizedPnl && log.cumulative == r.engine.cumulative
               && r.engine.events == e.events + [EntryMade]
  {
    var pending := e.machine.pending.value;
    var p := ExposureToPosition(x.exposure, x.time).value;
    PairAccounted(x.fills, {pending.ethOid, pending.btcOid}, p.eth.avgPrice, p.btc.avgPrice, 0.0);
  }

  /** A flat report makes the engine drop a position it no longer has, and nothing else: an entry still
      pending, a cooldown and the PnL stay as they are. */
  lemma FlatReportDropsPosition(cfg: Config, e: EngineState, v: Venue, x: Report)
    requires WellFormed(e.machine) && x.exposure.EthQty() == 0.0 && x.exposure.BtcQty() == 0.0
    ensures var r := Reconcile(cfg, e, v, x);
            && r.error.None? && r.venue == v && r.engine.events == e.events && r.engine.logs == e.logs
            && r.engine.cumulative == e.cumulative && r.engine.machine.cumulative == e.machine.cumulative
            && (e.machine.position.None? ==> r.engine == e)
            && (e.machine.position.Some? ==> r.engine.machine.status == Flat && r.engine.machine.position.None?)
  {
  }

  // ---- repaired legs -----------------------------------------------------------------------------

  /** The order of a repair: the whole leg, on the side that reduces it, from its entry price. */
  predicate RepairsLeg(order: OrderRequest, coin: Symbol, leg: ExchangePosition) {
    order == OrderRequest(coin, if leg.qty > 0.0 then Sell else Buy, Abs(leg.qty), Market, Some(leg.entryPrice), true)
  }

  /** What a repair books for the one leg it closed: the exchange's figures, or the gain of the leg from
      its entry price to the reported price or the bar's own. */
  predicate RepairBooks(x: Report, coin: Symbol, leg: ExchangePosition, barPrice: real, fill: OrderFill, log: TradeLog) {
    && log.event == RepairTrade && log.time == log.entryTime == x.time
    && log.ethQty == x.exposure.EthQty() && log.btcQty == x.exposure.BtcQty()
    && (if Found(x.fills, OidSet(fill.oid), coin) then
          var fills := Matching(x.fills.value, OidSet(fill.oid));
          log.realizedPnl == SumOf(fills, CLOSED_PNL) - SumOf(fills, FEE)
        else
          var price := if coin == EthPerp then log.ethPrice else log.btcPrice;
          PricedAt(price, fill, barPrice) && log.realizedPnl == Notional(leg.qty, price - leg.entryPrice))
  }

  /** The one leg of a residual exposure. */
  function LoneCoin(x: PairExposure): Symbol {
    if x.EthQty() != 0.0 then EthPerp else BtcPerp
  }

  function LoneLeg(x: PairExposure): ExchangePosition
    requires x.HasResidual()
  {
    if x.EthQty() != 0.0 then x.eth.value else x.btc.value
  }

  function BarPrice(x: Report, coin: Symbol): real {
    if coin == EthPerp then x.eth else x.btc
  }

  lemma GainOfNothing(price: real)
    ensures 0.0 * price == 0.0
  {
  }

  lemma RepairLogs(e: EngineState, p: PositionSnapshot, x: Report, fill: OrderFill)
    requires x.exposure.HasResidual() && ExposureToPosition(x.exposure, x.time) == Some(p)
    ensures var coin := LoneCoin(x.exposure);
            var (e', log) := RepairBooked(e, p, x.time, x.eth, x.btc, Some((coin, fill)), x.fills);
            && RepairBooks(x, coin, LoneLeg(x.exposure), BarPrice(x, coin), fill, log)
            && e'.cumulative == e.cumulative + log.realizedPnl && log.cumulative == e'.cumulative
  {
    var coin := LoneCoin(x.exposure);
    var ethPrice := if coin == EthPerp && fill.avgPrice.Some? then fill.avgPrice.value else x.eth;
    var btcPrice := if coin == BtcPerp && fill.avgPrice.Some? then fill.avgPrice.value else x.btc;
    AccountOfLeg(x.fills, OidSet(fill.oid), coin, ethPrice, btcPrice, PositionPnl(p, ethPrice, btcPrice));
    GainOfNothing(ethPrice - p.eth.avgPrice);
    GainOfNothing(btcPrice - p.btc.avgPrice);
    if Found(x.fills, OidSet(fill.oid), coin) {
      TotalsAreSums(Matching(x.fills.value, OidSet(fill.oid)));
    }
  }

  /** A single leg is closed by an order for the whole of it, and its gain is booked. */
  lemma RepairsAsReported(cfg: Config, e: EngineState, v: Venue, x: Report)
    requires EngineSound(cfg, e) && v.Sound() && x.exposure.HasResidual()
    ensures var r := Reconcile(cfg, e, v, x);
            r.error.None? ==>
              && |r.engine.logs| == |e.logs| + 1 && r.engine.logs[..|e.logs|] == e.logs
              && r.engine.cumulative == e.cumulative + r.engine.logs[|e.logs|].realizedPnl
              && r.engine.machine.status == Flat && r.engine.machine.position.None?
              && r.engine.events == e.events + [ResidualRepaired]
              && var before := if e.machine.status == PendingEntry
                               then CancelBoth(v, e.machine.pending.value, cfg.execution.maxAttempts) else v;
                 var coin, leg := LoneCoin(x.exposure), LoneLeg(x.exposure);
                 exists order, fill ::
                   && RepairsLeg(order, coin, leg)
                   && RetryFilled(before, order, cfg.execution.maxAttempts) == (r.venue, Ok(fill))
                   && RepairBooks(x, coin, leg, BarPrice(x, coin), fill, r.engine.logs[|e.logs|])
  {
    var r := Reconcile(cfg, e, v, x);
    if r.error.None? {
      var before := if e.machine.status == PendingEntry
                    then CancelBoth(v, e.machine.pending.value, cfg.execution.maxAttempts) else v;
      var p := ExposureToPosition(x.exposure, x.time).value;
      var order := ResidualOrder(p).value;
      var fill := RetryFilled(before, order, cfg.execution.maxAttempts).1.value;
      assert RepairsLeg(order, LoneCoin(x.exposure), LoneLeg(x.exposure));
      RepairLogs(e, p, x, fill);
      assert RetryFilled(before, order, cfg.execution.maxAttempts) == (r.venue, Ok(fill));
    }
  }

  // ---- direction in every run --------------------------------------------------------------------

  /** Where two legs are reported, they are opposed. */
  predicate ReportOpposed(x: Report) {
    x.exposure.EthQty() != 0.0 && x.exposure.BtcQty() != 0.0 ==> Opposite(x.exposure.EthQty(), x.exposure.BtcQty())
  }

  lemma ReconcileNames(cfg: Config, e: EngineState, v: Venue, x: Report, opposed: bool)
    requires EngineSound(cfg, e) && Named(e.machine, opposed) && (opposed ==> ReportOpposed(x))
    ensures Named(Reconcile(cfg, e, v, x).engine.machine, opposed)
  {
    if !x.exposure.IsFlat() && !x.exposure.HasResidual() && e.machine.status == PendingEntry {
      ConfirmsAsReported(cfg, e, v, x);
    }
  }

  lemma EntryNames(cfg: Config, t: Turn, bar: BarInput, output: SignalOutput)
    requires TurnSound(cfg, t) && Fits(cfg, t.venue) && Named(t.engine.machine, true)
    requires output.entry.Some? ==> t.engine.machine.status == Flat
    ensures Named(EnterIfSignalled(cfg, t, bar, output).turn.engine.machine, true)
  {
    if output.entry.Some? && output.vol.eth.Some? && output.vol.btc.Some? {
      var signal := output.entry.value;
      var plan := EntryPlan(cfg, bar, signal, output.vol.eth.value, output.vol.btc.value);
      OrdersPositive(cfg, bar, signal, output.vol.eth.value, output.vol.btc.value);
      if plan.PlanOrders? {
        OpenExact(t.venue, plan.eth, plan.btc, cfg.execution.maxAttempts);
        var (v', r) := OpenPair(t.venue, plan.eth, plan.btc, cfg.execution.maxAttempts);
        if r.Ok? && r.value.PairFilled? {
          EnterFilledKeeps(cfg, t.(venue := v'), bar, signal.direction, r.value.fills);
        }
      }
    }
  }

  lemma ExitNames(cfg: Config, t: Turn, bar: BarInput, output: SignalOutput)
    requires TurnSound(cfg, t)
    ensures var s := ExitIfSignalled(cfg, t, bar, output).turn.engine.machine;
            s.position.None? || s.position == t.engine.machine.position
  {
  }

  lemma BarNames(m: Maths, cfg: Config, e: EngineState, v: Venue, bar: BarInput, opposed: bool)
    requires cfg.IndicatorsValid() && EngineSound(cfg, e) && Fits(cfg, v) && Named(e.machine, opposed)
    ensures Named(ProcessBar(m, cfg, e, v, bar).0.machine, opposed)
  {
    PrepareKeeps(cfg, e, v, bar);
    var p := Prepare(cfg, e, v, bar);
    if p.Continue? {
      TradeNames(m, cfg, p.turn, bar, opposed);
    }
  }

  lemma TradeNames(m: Maths, cfg: Config, t: Turn, bar: BarInput, opposed: bool)
    requires cfg.IndicatorsValid() && TurnSound(cfg, t) && Fits(cfg, t.venue) && Named(t.engine.machine, opposed)
    ensures Named(TradeSignals(m, cfg, t, bar).turn.engine.machine, opposed)
  {
    var (signals, output) := PipelineStep(m, cfg, t.engine.signals, TickOf(t.engine, bar));
    StepKeepsSound(m, cfg, t.engine.signals, TickOf(t.engine, bar));
    OutputExclusive(m, cfg, t.engine.signals, TickOf(t.engine, bar));
    var t' := t.(engine := t.engine.(signals := signals));
    if output.Some? {
      if output.value.entry.Some? {
        EntryNames(cfg, t', bar, output.value);
      } else {
        ExitNames(cfg, t', bar, output.value);
      }
    }
  }

  ghost predicate SystemNamed(sys: R.System, opposed: bool) {
    Named(sys.engine.machine, opposed) && (sys.saved.Some? ==> Named(sys.saved.value, opposed))
  }

  lemma CycleNames(m: Maths, cfg: Config, e: EngineState, v: Venue, report: Option<Report>, bar: BarInput, opposed: bool)
    requires cfg.IndicatorsValid() && EngineSound(cfg, e) && Fits(cfg, v) && Named(e.machine, opposed)
    requires opposed && report.Some? ==> ReportOpposed(report.value)
    ensures Named(RunCycle(m, cfg, e, v, report, bar).engine.machine, opposed)
  {
    var r := R.ReconcileOf(cfg, e, v, report);
    if report.Some? {
      ReconciliationKeeps(cfg, e, v, report.value);
      ReconcileNames(cfg, e, v, report.value, opposed);
    }
    if r.error.None? {
      BarNames(m, cfg, r.engine, r.venue, bar, opposed);
    }
  }

  lemma RestartNames(m: Maths, cfg: Config, sys: R.System, restart: R.Event, opposed: bool)
    requires cfg.IndicatorsValid() && R.SystemSound(cfg, sys) && SystemNamed(sys, opposed) && restart.Restart?
    ensures SystemNamed(R.Next(m, cfg, sys, restart), opposed)
  {
    R.RestartKeeps(cfg, sys.saved, restart.clock);
    R.WarmUpKeeps(m, cfg, R.Restarted(sys.saved, restart.clock).value, restart.records);
  }

  ghost predicate ReportsOpposed(events: seq<R.Event>) {
    forall i :: 0 <= i < |events| && events[i].Cycle? && events[i].report.Some? ==> ReportOpposed(events[i].report.value)
  }

  /** In every run, through failed cycles, confirmations and restarts, a position that is long ETH and
      short BTC is called so, and so is the opposite; and if the exchange only ever reports opposed
      legs, every position is one of the two. */
  lemma {:induction false} RunNames(m: Maths, cfg: Config, events: seq<R.Event>, opposed: bool)
    requires cfg.IndicatorsValid() && R.VenuesFit(cfg, events) && (opposed ==> ReportsOpposed(events))
    ensures SystemNamed(R.After(m, cfg, R.FRESH_SYSTEM, events), opposed)
  {
    if |events| > 0 {
      var init, last := events[..|events| - 1], events[|events| - 1];
      var sys := R.After(m, cfg, R.FRESH_SYSTEM, init);
      RunNames(m, cfg, init, opposed);
      R.ReachableSound(m, cfg, init);
      if last.Cycle? {
        CycleNames(m, cfg, sys.engine, last.venue, last.report, last.bar, opposed);
      } else {
        RestartNames(m, cfg, sys, last, opposed);
      }
    }
  }
}
