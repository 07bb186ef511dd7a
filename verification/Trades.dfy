/** What a bar books for the trades it makes. */
module Trades {
  import opened Numbers
  import opened Trading
  import opened State
  import opened Indicators
  import opened Pipeline
  import opened Pricing
  import opened Execution
  import opened Sizing
  import opened Strategy
  import opened EngineInvariants
  import opened Accounts
  import opened Positions
  import opened Ledger

  // ---- prices of orders --------------------------------------------------------------------------

  /** Basis points by which an order's price is worse for the program than the bar's: the slippage at
      the market, minus the offset for a passive order. */
  function Worse(x: ExecutionConfig, orderType: OrderType): real {
    match orderType
    case Market => x.slippageBps as real
    case Limit => 0.0
    case PostOnly => -(x.postOnlyBps as real)
  }

  predicate LimitAt(x: ExecutionConfig, orderType: OrderType, buys: bool, price: real, limit: real) {
    var worse := Worse(x, orderType);
    limit * 10000.0 == if buys then Notional(10000.0 + worse, price) else Notional(10000.0 - worse, price)
  }

  lemma LimitPriceIs(x: ExecutionConfig, orderType: OrderType, side: OrderSide, price: real)
    ensures LimitAt(x, orderType, side == Buy, price, LimitPrice(x, orderType, side, price))
  {
    match orderType
    case Market => BasisPoints(price, x.slippageBps as real);
    case Limit =>
    case PostOnly => BasisPoints(price, x.postOnlyBps as real);
  }

  lemma BasisPoints(price: real, bps: real)
    ensures price * (1.0 + bps / 10000.0) * 10000.0 == Notional(10000.0 + bps, price)
    ensures price * (1.0 - bps / 10000.0) * 10000.0 == Notional(10000.0 - bps, price)
  {
    var part := bps / 10000.0;
    assert price * (1.0 + part) == price + price * part;
    assert price * (1.0 - part) == price - price * part;
    assert price * part * 10000.0 == price * bps;
  }

  // ---- exits -------------------------------------------------------------------------------------

  /** Hours between funding payments, as reported or else 8. */
  function Interval(bar: BarInput): (hours: nat)
    ensures hours > 0
  {
    if bar.fundingInterval.Some? && bar.fundingInterval.value > 0 then bar.fundingInterval.value else 8
  }

  /** The funding of a position up to the bar: nothing without both rates. */
  ghost predicate FundingDue(p: PositionSnapshot, bar: BarInput, due: real) {
    if bar.fundingEth.Some? && bar.fundingBtc.Some? then
      exists intervals: nat ::
        && Begun(intervals, Interval(bar), HoursHeld(p, bar.time))
        && due == MaxReal(Notional(intervals as real, PaidPerInterval(p.direction, p.eth.notional, p.btc.notional,
                                                                      bar.fundingEth.value, bar.fundingBtc.value)), 0.0)
    else due == 0.0
  }

  /** The order that closes a leg: the whole of it, reduce-only, on the side that reduces it, at a price
      from the bar price of its own coin; a passive entry too is left at the market. */
  predicate ExitFor(cfg: Config, coin: Symbol, order: OrderRequest, qty: real, price: real) {
    && order.symbol == coin && order.qty == Abs(qty) && order.reduceOnly
    && order.side == (if qty > 0.0 then Sell else Buy)
    && order.orderType == (if cfg.execution.orderType == Limit then Limit else Market)
    && order.limitPrice.Some? && LimitAt(cfg.execution, order.orderType, qty <= 0.0, price, order.limitPrice.value)
  }

  lemma ExitOrderIs(cfg: Config, coin: Symbol, qty: real, price: real)
    ensures ExitFor(cfg, coin, ExitOrder(cfg, coin, qty, price), qty, price)
  {
    LimitPriceIs(cfg.execution, ExitOrderType(cfg.execution), CloseForQty(qty), price);
  }

  /** The log of an exit.  Its figures are those of the exchange's fills if it reports some of both
      coins; else each leg gains from its entry price to the reported price or the bar's own, and the
      funding due is paid. */
  ghost predicate BooksExit(p: PositionSnapshot, bar: BarInput, reason: ExitReason, fills: PairFill, log: TradeLog) {
    && log.event == ExitTrade(reason) && log.time == bar.time && log.entryTime == p.entryTime
    && log.direction == p.direction && log.ethQty == p.eth.qty && log.btcQty == p.btc.qty
    && exists ethPrice, btcPrice, due ::
         && PricedAt(ethPrice, fills.eth, bar.eth) && PricedAt(btcPrice, fills.btc, bar.btc) && FundingDue(p, bar, due)
         && Accounted(bar.exitFills, OidSet(fills.eth.oid) + OidSet(fills.btc.oid), ethPrice, btcPrice,
                      Gain(p.eth, ethPrice) + Gain(p.btc, btcPrice) - due, log.ethPrice, log.btcPrice, log.realizedPnl)
  }

  lemma ModelPnl(p: PositionSnapshot, bar: BarInput, fills: PairFill) returns (due: real)
    ensures FundingDue(p, bar, due)
    ensures ExitModelPnl(p, bar, fills)
            == Gain(p.eth, FillPrice(fills.eth, bar.eth)) + Gain(p.btc, FillPrice(fills.btc, bar.btc)) - due
  {
    due := 0.0;
    if bar.fundingEth.Some? && bar.fundingBtc.Some? {
      var intervals := IntervalsBegun(Interval(bar), HoursHeld(p, bar.time));
      FundingIsPaid(p.direction, p.eth.notional, p.btc.notional, bar.fundingEth.value, bar.fundingBtc.value,
                    Interval(bar), HoursHeld(p, bar.time), intervals);
      due := FundingCost(p.direction, p.eth.notional, p.btc.notional, bar.fundingEth.value, bar.fundingBtc.value,
                         Interval(bar), HoursHeld(p, bar.time));
    }
  }

  lemma ExitIsBooked(cfg: Config, t: Turn, bar: BarInput, p: PositionSnapshot, reason: ExitReason, fills: PairFill)
    requires t.engine.machine.status == InPosition
    ensures var q := ExitClosed(cfg, t, bar, p, reason, fills);
            && q.Continue? && |q.turn.logs| == |t.logs| + 1 && q.turn.logs[..|t.logs|] == t.logs
            && BooksExit(p, bar, reason, fills, q.turn.logs[|t.logs|])
            && q.turn.engine.cumulative == t.engine.cumulative + q.turn.logs[|t.logs|].realizedPnl
            && q.turn.logs[|t.logs|].cumulative == q.turn.engine.cumulative && q.turn.events == t.events + [ExitMade(reason)]
  {
    var ethPrice, btcPrice := FillPrice(fills.eth, bar.eth), FillPrice(fills.btc, bar.btc);
    var due := ModelPnl(p, bar, fills);
    PairAccounted(bar.exitFills, OidSet(fills.eth.oid) + OidSet(fills.btc.oid), ethPrice, btcPrice, ExitModelPnl(p, bar, fills));
    assert PricedAt(ethPrice, fills.eth, bar.eth) && PricedAt(btcPrice, fills.btc, bar.btc);
  }

  /** In a position nothing happens before the signals of the bar. */
  lemma HoldingIsPrepared(cfg: Config, e: EngineState, v: Venue, bar: BarInput)
    requires EngineSound(cfg, e) && v.Sound() && e.machine.status == InPosition
    ensures Prepare(cfg, e, v, bar) == Continue(TakePending(e, v))
  {
    RepairLocalUnreachable(cfg, TakePending(e, v), bar);
  }

  lemma ExitLeg(cfg: Config, t: Turn, bar: BarInput, output: SignalOutput)
    requires TurnSound(cfg, t) && t.engine.machine.status == InPosition && output.entry.None?
    requires EnterIfSignalled(cfg, t, bar, output) == Continue(t)
    requires ExitIfSignalled(cfg, t, bar, output).turn.engine.machine.position.None?
    ensures var p, q := t.engine.machine.position.value, ExitIfSignalled(cfg, t, bar, output);
            var reply := ClosePair(t.venue, ExitOrder(cfg, EthPerp, p.eth.qty, bar.eth),
                                   ExitOrder(cfg, BtcPerp, p.btc.qty, bar.btc), cfg.execution.maxAttempts).1;
            && q.Continue? && reply.Ok? && output.exit.Some?
            && |q.turn.logs| == |t.logs| + 1 && q.turn.logs[..|t.logs|] == t.logs
            && BooksExit(p, bar, output.exit.value.reason, reply.value, q.turn.logs[|t.logs|])
            && q.turn.engine.cumulative == t.engine.cumulative + q.turn.logs[|t.logs|].realizedPnl
            && q.turn.logs[|t.logs|].cumulative == q.turn.engine.cumulative
            && q.turn.events == t.events + [ExitMade(output.exit.value.reason)]
  {
    var p := t.engine.machine.position.value;
    var (v', r) := ClosePair(t.venue, ExitOrder(cfg, EthPerp, p.eth.qty, bar.eth),
                             ExitOrder(cfg, BtcPerp, p.btc.qty, bar.btc), cfg.execution.maxAttempts);
    if r.Ok? {
      ExitIsBooked(cfg, t.(venue := v'), bar, p, output.exit.value.reason, r.value);
    }
  }

  /** A bar that leaves a position has closed both its legs by orders for the whole of them, and books
      exactly their gain: the PnL of its log, by which the cumulative PnL rises. */
  lemma ExitBooksItsGain(m: Maths, cfg: Config, e: EngineState, v: Venue, bar: BarInput)
    requires cfg.IndicatorsValid() && EngineSound(cfg, e) && Fits(cfg, v)
    requires e.machine.position.Some? && ProcessBar(m, cfg, e, v, bar).0.machine.position.None?
    ensures var (e', v', result) := ProcessBar(m, cfg, e, v, bar);
            var p := e.machine.position.value;
            var eth, btc := ExitOrder(cfg, EthPerp, p.eth.qty, bar.eth), ExitOrder(cfg, BtcPerp, p.btc.qty, bar.btc);
            var reply := ClosePair(v, eth, btc, cfg.execution.maxAttempts).1;
            && ExitFor(cfg, EthPerp, eth, p.eth.qty, bar.eth) && ExitFor(cfg, BtcPerp, btc, p.btc.qty, bar.btc)
            && reply.Ok? && result.Processed? && |result.logs| == |e.logs| + 1 && result.logs[..|e.logs|] == e.logs
            && var log := result.logs[|e.logs|];
               && (exists reason :: BooksExit(p, bar, reason, reply.value, log) && result.events == e.events + [ExitMade(reason)])
               && e'.cumulative == e.cumulative + log.realizedPnl && log.cumulative == e'.cumulative
  {
    ExitOrderIs(cfg, EthPerp, e.machine.position.value.eth.qty, bar.eth);
    ExitOrderIs(cfg, BtcPerp, e.machine.position.value.btc.qty, bar.btc);
    HoldingIsPrepared(cfg, e, v, bar);
    var t := TakePending(e, v);
    var (signals, output) := PipelineStep(m, cfg, t.engine.signals, TickOf(t.engine, bar));
    StepKeepsSound(m, cfg, t.engine.signals, TickOf(t.engine, bar));
    OutputExclusive(m, cfg, t.engine.signals, TickOf(t.engine, bar));
    if output.Some? {
      ExitLeg(cfg, t.(engine := t.engine.(signals := signals)), bar, output.value);
    }
  }

  /** The reported price of a fill, or the bar's own. */
  function PriceGot(fill: OrderFill, barPrice: real): real {
    Or(fill.avgPrice, Some(barPrice)).value
  }

  /** Without funding rates, and unless the exchange reports fills of both coins, the cumulative PnL rises
      by what each leg gained from its entry price to its own exit price. */
  lemma PlainExitGains(m: Maths, cfg: Config, e: EngineState, v: Venue, bar: BarInput, fills: PairFill)
    requires cfg.IndicatorsValid() && EngineSound(cfg, e) && Fits(cfg, v)
    requires e.machine.position.Some? && ProcessBar(m, cfg, e, v, bar).0.machine.position.None?
    requires var p := e.machine.position.value;
             ClosePair(v, ExitOrder(cfg, EthPerp, p.eth.qty, bar.eth), ExitOrder(cfg, BtcPerp, p.btc.qty, bar.btc),
                       cfg.execution.maxAttempts).1 == Ok(fills)
    requires bar.fundingEth.None? || bar.fundingBtc.None?
    requires bar.exitFills.None? || (fills.eth.oid.None? && fills.btc.oid.None?)
    ensures var p := e.machine.position.value;
            ProcessBar(m, cfg, e, v, bar).0.cumulative - e.cumulative
            == Notional(p.eth.qty, PriceGot(fills.eth, bar.eth) - p.eth.avgPrice)
               + Notional(p.btc.qty, PriceGot(fills.btc, bar.btc) - p.btc.avgPrice)
  {
    ExitBooksItsGain(m, cfg, e, v, bar);
    var result := ProcessBar(m, cfg, e, v, bar).2;
    var log := result.logs[|e.logs|];
    var reason :| BooksExit(e.machine.position.value, bar, reason, fills, log);
    PlainGains(e.machine.position.value, bar, reason, fills, log);
  }

  lemma PlainGains(p: PositionSnapshot, bar: BarInput, reason: ExitReason, fills: PairFill, log: TradeLog)
    requires BooksExit(p, bar, reason, fills, log)
    requires bar.fundingEth.None? || bar.fundingBtc.None?
    requires bar.exitFills.None? || (fills.eth.oid.None? && fills.btc.oid.None?)
    ensures log.realizedPnl == Notional(p.eth.qty, PriceGot(fills.eth, bar.eth) - p.eth.avgPrice)
                               + Notional(p.btc.qty, PriceGot(fills.btc, bar.btc) - p.btc.avgPrice)
  {
    if bar.exitFills.Some? {
      NoOrdersNoFills(bar.exitFills, EthPerp);
      assert OidSet(fills.eth.oid) + OidSet(fills.btc.oid) == {};
    }
  }

  // ---- entries -----------------------------------------------------------------------------------

  /** The position and the log of a filled entry: the direction of the signal, the reported quantities,
      each leg at the exchange's figures, or at its reported price or the bar's own. */
  ghost predicate BooksEntry(bar: BarInput, signal: EntrySignal, fills: PairFill, p: PositionSnapshot, log: TradeLog) {
    var long := signal.direction == LongEthShortBtc;
    && p.direction == signal.direction && p.entryTime == bar.time
    && p.eth.qty == (if long then fills.eth.qty else -fills.eth.qty)
    && p.btc.qty == (if long then -fills.btc.qty else fills.btc.qty)
    && p.eth.notional == Notional(Abs(fills.eth.qty), p.eth.avgPrice)
    && p.btc.notional == Notional(Abs(fills.btc.qty), p.btc.avgPrice)
    && LogsEntry(log, p, bar.time)
    && exists ethPrice, btcPrice ::
         && PricedAt(ethPrice, fills.eth, bar.eth) && PricedAt(btcPrice, fills.btc, bar.btc)
         && Accounted(bar.entryFills, OidSet(fills.eth.oid) + OidSet(fills.btc.oid), ethPrice, btcPrice, 0.0,
                      p.eth.avgPrice, p.btc.avgPrice, log.realizedPnl)
  }

  lemma EntryIsBooked(t: Turn, bar: BarInput, signal: EntrySignal, fills: PairFill)
    requires WellFormed(t.engine.machine) && t.engine.machine.status == Flat
    ensures var q := EnterFilled(t, bar, signal.direction, fills);
            && q.Continue? && |q.turn.logs| == |t.logs| + 1 && q.turn.logs[..|t.logs|] == t.logs
            && q.turn.engine.machine.position.Some?
            && BooksEntry(bar, signal, fills, q.turn.engine.machine.position.value, q.turn.logs[|t.logs|])
            && q.turn.engine.cumulative == t.engine.cumulative + q.turn.logs[|t.logs|].realizedPnl
            && q.turn.logs[|t.logs|].cumulative == q.turn.engine.cumulative && q.turn.events == t.events + [EntryMade]
  {
    var ethPrice, btcPrice := FillPrice(fills.eth, bar.eth), FillPrice(fills.btc, bar.btc);
    PairAccounted(bar.entryFills, OidSet(fills.eth.oid) + OidSet(fills.btc.oid), ethPrice, btcPrice, 0.0);
    assert PricedAt(ethPrice, fills.eth, bar.eth) && PricedAt(btcPrice, fills.btc, bar.btc);
  }

  /** What a resting entry waits for: the two orders, until their time is over. */
  predicate WaitsFor(cfg: Config, bar: BarInput, signal: EntrySignal, eth: OrderRequest, btc: OrderRequest,
                     ethOid: nat, btcOid: nat, p: PendingEntrySnapshot)
  {
    var long := signal.direction == LongEthShortBtc;
    && p.direction == signal.direction && p.ethOid == ethOid && p.btcOid == btcOid
    && p.ethQty == (if long then eth.qty else -eth.qty) && p.btcQty == (if long then -btc.qty else btc.qty)
    && p.submittedAt == bar.time && p.expiresAt == bar.time + cfg.execution.postOnlyTtlSecs
  }

  /** The end of an entry that sent its orders. */
  ghost predicate EntryEnds(cfg: Config, t: Turn, bar: BarInput, signal: EntrySignal, eth: OrderRequest, btc: OrderRequest, q: Phase) {
    match OpenPair(t.venue, eth, btc, cfg.execution.maxAttempts).1
    case Ok(PairFilled(fills)) =>
      && q.Continue? && |q.turn.logs| == |t.logs| + 1 && q.turn.logs[..|t.logs|] == t.logs
      && q.turn.engine.machine.position.Some?
      && BooksEntry(bar, signal, fills, q.turn.engine.machine.position.value, q.turn.logs[|t.logs|])
      && q.turn.engine.cumulative == t.engine.cumulative + q.turn.logs[|t.logs|].realizedPnl
      && q.turn.logs[|t.logs|].cumulative == q.turn.engine.cumulative && q.turn.events == t.events + [EntryMade]
    case Ok(PairResting(ethOid, btcOid)) =>
      && q.Continue? && q.turn.logs == t.logs && q.turn.engine.cumulative == t.engine.cumulative
      && q.turn.engine.machine.status == PendingEntry && q.turn.engine.machine.pending.Some?
      && WaitsFor(cfg, bar, signal, eth, btc, ethOid, btcOid, q.turn.engine.machine.pending.value)
      && q.turn.events == t.events + [EntrySubmitted]
    case Err(_) => q.Stop? && q.turn.engine.machine == t.engine.machine && q.turn.logs == t.logs
  }

  lemma SubmittedEnds(cfg: Config, t: Turn, bar: BarInput, signal: EntrySignal, plan: Plan)
    requires TurnSound(cfg, t) && t.engine.machine.status == Flat
    requires plan.PlanOrders? && EntryOrders(signal.direction, plan.eth, plan.btc)
    ensures EntryEnds(cfg, t, bar, signal, plan.eth, plan.btc, SubmitEntry(cfg, t, bar, signal, plan))
  {
    var (v', r) := OpenPair(t.venue, plan.eth, plan.btc, cfg.execution.maxAttempts);
    if r.Ok? && r.value.PairFilled? {
      EntryIsBooked(t.(venue := v'), bar, signal, r.value.fills);
    }
  }

  /** The capital of an entry: the fixed notional, or the ratio of the equity, times the multiplier of
      its direction, and at most the limit. */
  predicate CapitalOf(cfg: Config, bar: BarInput, direction: TradeDirection, capital: real) {
    var base := if cfg.position.cMode == FixedNotional then cfg.position.cValue
                else
                  var equity := Or(bar.equity, cfg.position.equityValue);
                  if equity.Some? && cfg.position.equityRatioK.Some?
                  then Some(Notional(equity.value, cfg.position.equityRatioK.value)) else None;
    && base.Some?
    && capital == Notional(base.value, if direction == LongEthShortBtc then cfg.multipliers.longEthShortBtc
                                       else cfg.multipliers.shortEthLongBtc)
    && (cfg.position.maxNotional.Some? ==> capital <= cfg.position.maxNotional.value)
  }

  /** The order for a notional of one coin, at a price from its own bar price: worse than it at the
      market, better when passive, and exactly it for a limit order. */
  predicate OrderFor(cfg: Config, coin: Symbol, order: OrderRequest, buys: bool, worth: real, price: real) {
    var c := if coin == EthPerp then cfg.eth else cfg.btc;
    var sized := ConvertNotional(c, cfg.position.minSizePolicy, worth, price);
    && order.symbol == coin && order.side == (if buys then Buy else Sell) && !order.reduceOnly
    && order.orderType == cfg.execution.orderType
    && sized.Sized? && order.qty == sized.order.qty
    && order.limitPrice.Some? && LimitAt(cfg.execution, order.orderType, buys, price, order.limitPrice.value)
  }

  /** What the plan of an entry orders: a leg of each coin on its side, sized from notionals that share
      the capital by equal risk. */
  ghost predicate PlansFor(cfg: Config, bar: BarInput, signal: EntrySignal, volEth: real, volBtc: real,
                           eth: OrderRequest, btc: OrderRequest)
  {
    exists capital, worthEth, worthBtc ::
      && CapitalOf(cfg, bar, signal.direction, capital) && SharesRisk(capital, worthEth, worthBtc, volEth, volBtc)
      && OrderFor(cfg, EthPerp, eth, signal.direction == LongEthShortBtc, worthEth, bar.eth)
      && OrderFor(cfg, BtcPerp, btc, signal.direction == ShortEthLongBtc, worthBtc, bar.btc)
  }

  lemma CapitalIs(cfg: Config, bar: BarInput, direction: TradeDirection)
    ensures var capital := EntryCapital(cfg, EntryEquity(cfg, bar), Multiplier(cfg, direction));
            capital.Capital? ==> CapitalOf(cfg, bar, direction, capital.amount)
  {
  }

  lemma PlanIsFor(cfg: Config, bar: BarInput, signal: EntrySignal, volEth: real, volBtc: real)
    ensures var plan := EntryPlan(cfg, bar, signal, volEth, volBtc);
            plan.PlanOrders? ==> PlansFor(cfg, bar, signal, volEth, volBtc, plan.eth, plan.btc) && bar.gate == Pass
  {
    var plan := EntryPlan(cfg, bar, signal, volEth, volBtc);
    if plan.PlanOrders? {
      var capital := EntryCapital(cfg, EntryEquity(cfg, bar), Multiplier(cfg, signal.direction)).amount;
      var w := RiskParityWeights(volEth, volBtc);
      CapitalIs(cfg, bar, signal.direction);
      RiskIsShared(capital, volEth, volBtc);
      LimitPriceIs(cfg.execution, cfg.execution.orderType, EntrySide(signal.direction, EthPerp), bar.eth);
      LimitPriceIs(cfg.execution, cfg.execution.orderType, EntrySide(signal.direction, BtcPerp), bar.btc);
      assert OrderFor(cfg, EthPerp, plan.eth, signal.direction == LongEthShortBtc, Share(capital, w.eth), bar.eth);
      assert OrderFor(cfg, BtcPerp, plan.btc, signal.direction == ShortEthLongBtc, Share(capital, w.btc), bar.btc);
    }
  }

  /** An entry fails for want of capital or of funding data, or on a size that cannot be had; it is skipped
      when a gate blocks it or a size is below its minimum. */
  lemma PlanKinds(cfg: Config, bar: BarInput, signal: EntrySignal, volEth: real, volBtc: real)
    requires bar.eth > 0.0 && bar.btc > 0.0 && cfg.eth.stepSize > 0.0 && cfg.btc.stepSize > 0.0
    ensures var plan := EntryPlan(cfg, bar, signal, volEth, volBtc);
            var funded := exists capital :: CapitalOf(cfg, bar, signal.direction, capital);
            && (plan.PlanFails? <==> !funded || bar.gate == GateError)
            && (funded && bar.gate == Block ==> plan.PlanSkips?)
            && (funded && bar.gate == Pass && cfg.position.minSizePolicy == Adjust ==> plan.PlanOrders?)
  {
    var capital := EntryCapital(cfg, EntryEquity(cfg, bar), Multiplier(cfg, signal.direction));
    CapitalIs(cfg, bar, signal.direction);
    if any :| CapitalOf(cfg, bar, signal.direction, any) {
      assert capital == Capital(any);
    }
  }

  lemma EntryOfBar(cfg: Config, t: Turn, bar: BarInput, output: SignalOutput)
    requires TurnSound(cfg, t) && t.engine.machine.status == Flat && output.entry.Some?
    ensures var q := EnterIfSignalled(cfg, t, bar, output);
            || q.turn.engine.machine == t.engine.machine
            || (output.vol.eth.Some? && output.vol.btc.Some?
                && exists eth, btc ::
                     && PlansFor(cfg, bar, output.entry.value, output.vol.eth.value, output.vol.btc.value, eth, btc)
                     && EntryEnds(cfg, t, bar, output.entry.value, eth, btc, q))
  {
    if output.vol.eth.Some? && output.vol.btc.Some? {
      var signal := output.entry.value;
      var plan := EntryPlan(cfg, bar, signal, output.vol.eth.value, output.vol.btc.value);
      PlanIsFor(cfg, bar, signal, output.vol.eth.value, output.vol.btc.value);
      OrdersPositive(cfg, bar, signal, output.vol.eth.value, output.vol.btc.value);
      if plan.PlanOrders? {
        SubmittedEnds(cfg, t, bar, signal, plan);
      }
    }
  }

  /** A bar that enters, or leaves an entry resting, has sent the two orders that its signal, the
      volatilities and the capital ask for, and records what the exchange made of them. */
  lemma EntryIsAsSignalled(m: Maths, cfg: Config, e: EngineState, v: Venue, bar: BarInput)
    requires cfg.IndicatorsValid() && EngineSound(cfg, e) && Fits(cfg, v) && e.machine.position.None?
    requires var s := ProcessBar(m, cfg, e, v, bar).0.machine;
             s.position.Some? || (s.status == PendingEntry && e.machine.status != PendingEntry)
    ensures var start, output := Prepare(cfg, e, v, bar), BarOutput(m, cfg, e, v, bar);
            && start.Continue? && start.turn.logs == e.logs
            && output.Some? && output.value.entry.Some? && output.value.vol.eth.Some? && output.value.vol.btc.Some?
            && exists eth, btc ::
                 && PlansFor(cfg, bar, output.value.entry.value, output.value.vol.eth.value, output.value.vol.btc.value, eth, btc)
                 && EntryEnds(cfg, start.turn, bar, output.value.entry.value, eth, btc, BarPhases(m, cfg, e, v, bar))
  {
    PrepareFailsIff(cfg, e, v, bar);
    PrepareKeeps(cfg, e, v, bar);
    var t := Prepare(cfg, e, v, bar).turn;
    var (signals, output) := PipelineStep(m, cfg, t.engine.signals, TickOf(t.engine, bar));
    StepKeepsSound(m, cfg, t.engine.signals, TickOf(t.engine, bar));
    OutputExclusive(m, cfg, t.engine.signals, TickOf(t.engine, bar));
    if output.Some? && output.value.entry.Some? {
      EntryOfBar(cfg, t.(engine := t.engine.(signals := signals)), bar, output.value);
    }
  }

  // ---- bars without a trade ----------------------------------------------------------------------

  lemma EntryPnlNeedsPosition(cfg: Config, t: Turn, bar: BarInput, output: SignalOutput)
    requires TurnSound(cfg, t) && t.engine.machine.status == Flat && output.entry.Some?
    ensures var e := EnterIfSignalled(cfg, t, bar, output).turn.engine;
            e.machine.position.None? ==> e.cumulative == t.engine.cumulative
  {
    EntryOfBar(cfg, t, bar, output);
  }

  lemma ExitPnlNeedsClose(cfg: Config, t: Turn, bar: BarInput, output: SignalOutput)
    requires TurnSound(cfg, t)
    ensures var e := ExitIfSignalled(cfg, t, bar, output).turn.engine;
            e.machine.position.Some? || t.engine.machine.position.None? ==>
              e.cumulative == t.engine.cumulative && e.machine == t.engine.machine
  {
    var s := t.engine.machine;
    if output.exit.Some? && s.position.Some? {
      var p := s.position.value;
      var (v', r) := ClosePair(t.venue, ExitOrder(cfg, EthPerp, p.eth.qty, bar.eth),
                               ExitOrder(cfg, BtcPerp, p.btc.qty, bar.btc), cfg.execution.maxAttempts);
      if r.Ok? {
        ExitClosedNeedsNothing(cfg, t.(venue := v'), bar, p, output.exit.value.reason, r.value);
      }
    }
  }

  lemma ExitClosedNeedsNothing(cfg: Config, t: Turn, bar: BarInput, p: PositionSnapshot, reason: ExitReason, fills: PairFill)
    requires t.engine.machine.status == InPosition
    ensures ExitClosed(cfg, t, bar, p, reason, fills).turn.engine.machine.position.None?
  {
  }

  /** A bar that neither takes nor leaves a position changes no PnL. */
  lemma NoTradeNoPnl(m: Maths, cfg: Config, e: EngineState, v: Venue, bar: BarInput)
    requires cfg.IndicatorsValid() && EngineSound(cfg, e) && Fits(cfg, v)
    requires ProcessBar(m, cfg, e, v, bar).0.machine.position.Some? == e.machine.position.Some?
    ensures ProcessBar(m, cfg, e, v, bar).0.cumulative == e.cumulative
  {
    PrepareFailsIff(cfg, e, v, bar);
    PrepareKeeps(cfg, e, v, bar);
    PrepareKeepsPnl(cfg, e, v, bar);
    var t := Prepare(cfg, e, v, bar).turn;
    var (signals, output) := PipelineStep(m, cfg, t.engine.signals, TickOf(t.engine, bar));
    StepKeepsSound(m, cfg, t.engine.signals, TickOf(t.engine, bar));
    OutputExclusive(m, cfg, t.engine.signals, TickOf(t.engine, bar));
    if output.Some? {
      var t' := t.(engine := t.engine.(signals := signals));
      if output.value.entry.Some? {
        EntryPnlNeedsPosition(cfg, t', bar, output.value);
      } else {
        ExitPnlNeedsClose(cfg, t', bar, output.value);
      }
    }
  }

  lemma PrepareKeepsPnl(cfg: Config, e: EngineState, v: Venue, bar: BarInput)
    requires EngineSound(cfg, e) && v.Sound()
    ensures Prepare(cfg, e, v, bar).turn.engine.cumulative == e.cumulative
  {
    ExpireKeeps(cfg, TakePending(e, v), bar.time);
  }
}
