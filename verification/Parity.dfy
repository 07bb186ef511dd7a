/** The live engine on a paper exchange and the backtest take the same trades. */
module Parity {
  import opened Numbers
  import opened Trading
  import opened State
  import opened Indicators
  import opened Pipeline
  import opened Pricing
  import opened Execution
  import opened Sizing
  import opened Strategy
  import opened EngineInvariants
  import opened Positions
  import opened Backtest

  /** Fixed capital and neutral multipliers: what equal sizes need. */
  predicate EqualCapital(cfg: Config) {
    && cfg.position.cMode == FixedNotional && cfg.position.cValue.Some?
    && cfg.multipliers.longEthShortBtc == 1.0 && cfg.multipliers.shortEthLongBtc == 1.0
  }

  /** Equal capital, and orders for something. */
  predicate ParitySetup(cfg: Config) {
    cfg.Valid() && SizesPositive(cfg) && EqualCapital(cfg)
  }

  /** The same with a slippage that keeps market prices positive. */
  predicate ParityConfig(cfg: Config) {
    ParitySetup(cfg) && (cfg.execution.orderType == Limit || cfg.execution.slippageBps < 10000)
  }

  /** A bar as the live engine gets it: no funding data, open gates, no exchange fills. */
  function LiveBar(bar: BacktestBar): BarInput {
    BarInput(bar.time, bar.eth, bar.btc, None, None, None, None, Pass, None, None, None)
  }

  // ---- agreement -----------------------------------------------------------------------------

  /** Positions with the same direction, time, quantities and prices; the notionals are booked
      differently. */
  predicate SamePosition(a: Option<PositionSnapshot>, b: Option<PositionSnapshot>) {
    match (a, b)
    case (None, None) => true
    case (Some(p), Some(q)) =>
      && p.direction == q.direction && p.entryTime == q.entryTime
      && p.eth.qty == q.eth.qty && p.btc.qty == q.btc.qty
      && p.eth.avgPrice == q.eth.avgPrice && p.btc.avgPrice == q.btc.avgPrice
    case _ => false
  }

  predicate SameMachine(a: StrategyState, b: StrategyState) {
    a.status == b.status && a.cooldownUntil == b.cooldownUntil && SamePosition(a.position, b.position)
  }

  ghost predicate Agree(cfg: Config, e: EngineState, s: BtState) {
    && EngineSound(cfg, e) && e.events == [] && e.logs == [] && e.machine.status != PendingEntry
    && e.signals == s.signals && SameMachine(e.machine, s.machine)
    && (e.machine.position.Some? ==> Opposed(e.machine.position.value))
    && WellFormed(s.machine) && (s.open.Some? <==> s.machine.status == InPosition)
    && (s.open.Some? ==> s.machine.position == Some(s.open.value.position)
                         && s.open.value.entryEth > 0.0 && s.open.value.entryBtc > 0.0)
  }

  /** Trading actions, with signed quantities. */
  datatype Action =
    | Enters(time: int, direction: TradeDirection, ethQty: real, btcQty: real)
    | Leaves(time: int, reason: ExitReason, direction: TradeDirection, ethQty: real, btcQty: real, entryTime: int)

  function LogAction(log: TradeLog): seq<Action> {
    match log.event
    case EntryTrade => [Enters(log.time, log.direction, log.ethQty, log.btcQty)]
    case ExitTrade(reason) => [Leaves(log.time, reason, log.direction, log.ethQty, log.btcQty, log.entryTime)]
    case RepairTrade => []
  }

  function LogActions(logs: seq<TradeLog>): seq<Action> {
    if |logs| == 0 then [] else LogActions(logs[..|logs| - 1]) + LogAction(logs[|logs| - 1])
  }

  /** The action of a backtest bar, read off the books before and after it. */
  function BtActions(s: BtState, s': BtState, time: int): seq<Action> {
    if s.open.None? && s'.open.Some? then
      var p := s'.open.value.position;
      [Enters(time, p.direction, p.eth.qty, p.btc.qty)]
    else if s.open.Some? && s'.open.None? && |s'.trades| > 0 then
      var p := s.open.value.position;
      [Leaves(time, s'.trades[|s'.trades| - 1].reason, p.direction, p.eth.qty, p.btc.qty, p.entryTime)]
    else []
  }

  // ---- signals ---------------------------------------------------------------------------------

  /** The signals look at nothing of a position but its entry time. */
  lemma SignalsIgnoreNotional(m: Maths, cfg: Config, s: PipelineState, a: PriceTick, b: PriceTick)
    requires cfg.IndicatorsValid()
    requires a.time == b.time && a.eth == b.eth && a.btc == b.btc && a.status == b.status
    requires SamePosition(a.position, b.position)
    ensures PipelineStep(m, cfg, s, a) == PipelineStep(m, cfg, s, b)
  {
  }

  // ---- paper orders ------------------------------------------------------------------------------

  /** A request that a paper exchange fills in full at once. */
  lemma PaperFill(v: Venue, order: OrderRequest, maxAttempts: nat)
    requires v.paper && (order.orderType == Market ==> order.limitPrice.Some? && order.limitPrice.value > 0.0)
    ensures var (v', r) := RetrySubmitResult(v, order, maxAttempts);
            v'.paper && r == Ok(Filled(OrderFill(order.qty, None, None)))
  {
  }

  lemma PaperOpen(v: Venue, eth: OrderRequest, btc: OrderRequest, maxAttempts: nat)
    requires v.paper
    requires eth.orderType == Market ==> eth.limitPrice.Some? && eth.limitPrice.value > 0.0
    requires btc.orderType == Market ==> btc.limitPrice.Some? && btc.limitPrice.value > 0.0
    ensures OpenPair(v, eth, btc, maxAttempts).1
            == Ok(PairFilled(PairFill(OrderFill(eth.qty, None, None), OrderFill(btc.qty, None, None))))
  {
    PaperFill(v, eth, maxAttempts);
    PaperFill(RetrySubmitResult(v, eth, maxAttempts).0, btc, maxAttempts);
  }

  lemma PaperClose(v: Venue, eth: OrderRequest, btc: OrderRequest, maxAttempts: nat)
    requires v.paper
    requires eth.orderType == Market ==> eth.limitPrice.Some? && eth.limitPrice.value > 0.0
    requires btc.orderType == Market ==> btc.limitPrice.Some? && btc.limitPrice.value > 0.0
    ensures ClosePair(v, eth, btc, maxAttempts).1 == Ok(PairFill(OrderFill(eth.qty, None, None), OrderFill(btc.qty, None, None)))
  {
    PaperFill(v, eth, maxAttempts);
    PaperFill(RetrySubmitResult(v, eth, maxAttempts).0, btc, maxAttempts);
  }

  /** Entries, and exits, have usable prices. */
  predicate EntryPriced(cfg: Config) {
    cfg.execution.orderType != Market || cfg.execution.slippageBps < 10000
  }

  predicate ExitPriced(cfg: Config) {
    cfg.execution.orderType == Limit || cfg.execution.slippageBps < 10000
  }

  /** With a slippage of 100% or more no market sale has a usable price. */
  lemma MarketSaleUnpriced(x: ExecutionConfig, price: real)
    requires price > 0.0 && x.slippageBps >= 10000
    ensures LimitPrice(x, Market, Sell, price) <= 0.0 < LimitPrice(x, Market, Buy, price)
  {
    var slippage := x.slippageBps as real / 10000.0;
    assert slippage >= 1.0;
    ProductOrder(1.0 - slippage, 0.0, price, (1.0 - slippage) * price, 0.0);
    ProductOrder(1.0, 1.0 + slippage, price, price, (1.0 + slippage) * price);
    assert price * (1.0 - slippage) == (1.0 - slippage) * price && price * (1.0 + slippage) == (1.0 + slippage) * price;
  }

  lemma UnpricedFails(v: Venue, order: OrderRequest, maxAttempts: nat)
    requires order.orderType == Market && order.limitPrice.Some? && order.limitPrice.value <= 0.0
    ensures RetrySubmitResult(v, order, maxAttempts) == (v, Err(Fatal(BadPrice, PLAIN)))
  {
  }

  /** With slippage below 100% every market price is positive. */
  lemma MarketPricePositive(x: ExecutionConfig, side: OrderSide, price: real)
    requires price > 0.0 && x.slippageBps < 10000
    ensures LimitPrice(x, Market, side, price) > 0.0
  {
    var slippage := x.slippageBps as real / 10000.0;
    assert 0.0 <= slippage < 1.0;
    ProductOrder(0.0, price, 1.0 + slippage, 0.0, price * (1.0 + slippage));
    ProductOrder(0.0, price, 1.0 - slippage, 0.0, price * (1.0 - slippage));
  }

  // ---- entry -------------------------------------------------------------------------------------

  /** What the backtest enters with, if it enters. */
  datatype Sizes = Error | Nothing | Quantities(eth: real, btc: real)

  function PlanSizes(plan: Plan): Sizes {
    match plan
    case PlanFails(_) => Error
    case PlanSkips => Nothing
    case PlanOrders(eth, btc) => Quantities(eth.qty, btc.qty)
  }

  function BtSizes(cfg: Config, s: BtState, bar: BacktestBar, output: SignalOutput): Sizes
    requires output.vol.eth.Some? && output.vol.btc.Some?
  {
    match ComputeCapital(cfg.position, s.equity)
    case None => Error
    case Some(capital) =>
      if cfg.position.maxNotional.Some? && capital > cfg.position.maxNotional.value then Error
      else
        var w := RiskParityWeights(output.vol.eth.value, output.vol.btc.value);
        match (ConvertNotional(cfg.eth, cfg.position.minSizePolicy, Share(capital, w.eth), bar.eth),
               ConvertNotional(cfg.btc, cfg.position.minSizePolicy, Share(capital, w.btc), bar.btc))
        case (Sized(eth), Sized(btc)) => Quantities(eth.qty, btc.qty)
        case (Sized(_), BelowMinimum) => Nothing
        case (BelowMinimum, Sized(_)) => Nothing
        case (BelowMinimum, BelowMinimum) => Nothing
        case _ => Error
  }

  /** With a fixed notional and neutral multipliers both engines enter with the same capital. */
  lemma SameCapital(cfg: Config, s: BtState, bar: BacktestBar, direction: TradeDirection)
    requires EqualCapital(cfg)
    ensures var live := EntryCapital(cfg, EntryEquity(cfg, LiveBar(bar)), Multiplier(cfg, direction));
            match ComputeCapital(cfg.position, s.equity)
            case None => live.NoCapital?
            case Some(capital) =>
              if cfg.position.maxNotional.Some? && capital > cfg.position.maxNotional.value then live.NoCapital?
              else live == Capital(capital)
  {
    assert Multiplier(cfg, direction) == 1.0;
    assert cfg.position.cValue.value * 1.0 == cfg.position.cValue.value;
  }

  /** Both engines size an entry alike. */
  lemma SameSizes(cfg: Config, s: BtState, bar: BacktestBar, output: SignalOutput)
    requires EqualCapital(cfg) && cfg.eth.stepSize > 0.0 && cfg.btc.stepSize > 0.0 && bar.eth > 0.0 && bar.btc > 0.0
    requires output.entry.Some? && output.vol.eth.Some? && output.vol.btc.Some?
    ensures PlanSizes(EntryPlan(cfg, LiveBar(bar), output.entry.value, output.vol.eth.value, output.vol.btc.value))
            == BtSizes(cfg, s, bar, output)
  {
    SameCapital(cfg, s, bar, output.entry.value.direction);
  }

  /** The plan's orders can be filled on paper. */
  lemma PlanFillable(cfg: Config, bar: BacktestBar, signal: EntrySignal, volEth: real, volBtc: real)
    requires ParitySetup(cfg) && EntryPriced(cfg) && bar.eth > 0.0 && bar.btc > 0.0
    ensures var plan := EntryPlan(cfg, LiveBar(bar), signal, volEth, volBtc);
            plan.PlanOrders? ==>
              && (plan.eth.orderType == Market ==> plan.eth.limitPrice.Some? && plan.eth.limitPrice.value > 0.0)
              && (plan.btc.orderType == Market ==> plan.btc.limitPrice.Some? && plan.btc.limitPrice.value > 0.0)
              && EntryOrders(signal.direction, plan.eth, plan.btc) && Positive(plan.eth, plan.btc)
  {
    OrdersPositive(cfg, LiveBar(bar), signal, volEth, volBtc);
    if cfg.execution.orderType == Market {
      MarketPricePositive(cfg.execution, EntrySide(signal.direction, EthPerp), bar.eth);
      MarketPricePositive(cfg.execution, EntrySide(signal.direction, BtcPerp), bar.btc);
    }
  }

  // ---- one bar -------------------------------------------------------------------------------

  /** A phase of the live bar and the same part of the backtest bar end alike: both fail, or both
      agree and took the same action. */
  ghost predicate PhaseAgree(cfg: Config, s: BtState, time: int, p: Phase, r: BtResult) {
    match r
    case BtErr => p.Stop? && p.error.Some?
    case BtOk(s') =>
      && (p.Continue? || p.error.None?) && p.turn.venue.paper && p.turn.venue.Sound()
      && Agree(cfg, p.turn.engine, s') && LogActions(p.turn.logs) == BtActions(s, s', time)
  }

  /** The backtest trades where the live engine's market orders have no usable price. */
  predicate TradesUnpriced(cfg: Config, s: BtState, s': BtState) {
    || (s.open.None? && s'.open.Some? && !EntryPriced(cfg))
    || (s.open.Some? && s'.open.None? && !ExitPriced(cfg))
  }

  /** They end alike, unless the backtest trades where the live engine has no price: there it fails. */
  ghost predicate PhaseAgreeIfPriced(cfg: Config, s: BtState, time: int, p: Phase, r: BtResult) {
    if r.BtOk? && TradesUnpriced(cfg, s, r.state) then p.Stop? && p.error.Some? else PhaseAgree(cfg, s, time, p, r)
  }

  lemma OneAction(log: TradeLog)
    ensures LogActions([log]) == LogAction(log)
  {
    assert [log][..0] == [];
  }

  lemma EnterAgree(cfg: Config, e: EngineState, v: Venue, s: BtState, bar: BacktestBar, output: SignalOutput)
    requires ParitySetup(cfg) && bar.eth > 0.0 && bar.btc > 0.0 && v.paper && v.Sound()
    requires Agree(cfg, e, s) && (output.entry.Some? ==> e.machine.status == Flat)
    ensures PhaseAgreeIfPriced(cfg, s, bar.time, EnterIfSignalled(cfg, Turn(e, v, [], []), LiveBar(bar), output),
                               BtEnter(cfg, s, bar, output))
    ensures output.entry.None? ==> EnterIfSignalled(cfg, Turn(e, v, [], []), LiveBar(bar), output)
                                   == Continue(Turn(e, v, [], [])) && BtEnter(cfg, s, bar, output) == BtOk(s)
  {
    if output.entry.Some? && output.vol.eth.Some? && output.vol.btc.Some? {
      var signal := output.entry.value;
      var plan := EntryPlan(cfg, LiveBar(bar), signal, output.vol.eth.value, output.vol.btc.value);
      SameSizes(cfg, s, bar, output);
      if plan.PlanOrders? {
        assert BtEnter(cfg, s, bar, output) == BtOpen(s, bar, BtEntered(cfg, s, bar, output, plan));
        if EntryPriced(cfg) {
          PlanFillable(cfg, bar, signal, output.vol.eth.value, output.vol.btc.value);
          FilledAgree(cfg, e, v, s, bar, signal.direction, plan);
        } else {
          UnpricedEntryFails(cfg, Turn(e, v, [], []), bar, signal, output.vol.eth.value, output.vol.btc.value);
        }
      }
    }
  }

  /** One of the two entry orders is a sale, and it has no usable price. */
  lemma UnpricedEntryFails(cfg: Config, t: Turn, bar: BacktestBar, signal: EntrySignal, volEth: real, volBtc: real)
    requires !EntryPriced(cfg) && bar.eth > 0.0 && bar.btc > 0.0 && t.venue.paper
    requires EntryPlan(cfg, LiveBar(bar), signal, volEth, volBtc).PlanOrders?
    ensures var p := SubmitEntry(cfg, t, LiveBar(bar), signal, EntryPlan(cfg, LiveBar(bar), signal, volEth, volBtc));
            p.Stop? && p.error.Some?
  {
    var plan := EntryPlan(cfg, LiveBar(bar), signal, volEth, volBtc);
    MarketSaleUnpriced(cfg.execution, bar.eth);
    MarketSaleUnpriced(cfg.execution, bar.btc);
    OrdersPositive(cfg, LiveBar(bar), signal, volEth, volBtc);
    if plan.eth.side == Sell {
      UnpricedFails(t.venue, plan.eth, cfg.execution.maxAttempts);
    } else {
      PaperFill(t.venue, plan.eth, cfg.execution.maxAttempts);
      UnpricedFails(RetrySubmitResult(t.venue, plan.eth, cfg.execution.maxAttempts).0, plan.btc, cfg.execution.maxAttempts);
    }
  }

  /** The position the backtest opens with the quantities of the live plan. */
  function BtEntered(cfg: Config, s: BtState, bar: BacktestBar, output: SignalOutput, plan: Plan): PositionSnapshot
    requires output.entry.Some? && output.vol.eth.Some? && output.vol.btc.Some? && plan.PlanOrders?
    requires ComputeCapital(cfg.position, s.equity).Some?
  {
    var capital := ComputeCapital(cfg.position, s.equity).value;
    var w := RiskParityWeights(output.vol.eth.value, output.vol.btc.value);
    BtPosition(output.entry.value.direction, bar, plan.eth.qty, plan.btc.qty, Share(capital, w.eth), Share(capital, w.btc))
  }

  /** Filling the live plan on paper opens the position the backtest opens. */
  lemma FilledAgree(cfg: Config, e: EngineState, v: Venue, s: BtState, bar: BacktestBar, direction: TradeDirection, plan: Plan)
    requires ParitySetup(cfg) && bar.eth > 0.0 && bar.btc > 0.0 && v.paper && v.Sound()
    requires Agree(cfg, e, s) && e.machine.status == Flat
    requires plan.PlanOrders? && EntryOrders(direction, plan.eth, plan.btc) && Positive(plan.eth, plan.btc)
    requires plan.eth.orderType == Market ==> plan.eth.limitPrice.Some? && plan.eth.limitPrice.value > 0.0
    requires plan.btc.orderType == Market ==> plan.btc.limitPrice.Some? && plan.btc.limitPrice.value > 0.0
    ensures forall worthEth, worthBtc, signal: EntrySignal :: signal.direction == direction ==>
              PhaseAgree(cfg, s, bar.time, SubmitEntry(cfg, Turn(e, v, [], []), LiveBar(bar), signal, plan),
                         BtOpen(s, bar, BtPosition(direction, bar, plan.eth.qty, plan.btc.qty, worthEth, worthBtc)))
  {
    var t := Turn(e, v, [], []);
    PaperOpen(v, plan.eth, plan.btc, cfg.execution.maxAttempts);
    OpenExact(v, plan.eth, plan.btc, cfg.execution.maxAttempts);
    var v' := OpenPair(v, plan.eth, plan.btc, cfg.execution.maxAttempts).0;
    var fills := PairFill(OrderFill(plan.eth.qty, None, None), OrderFill(plan.btc.qty, None, None));
    EnterFilledKeeps(cfg, t.(venue := v'), LiveBar(bar), direction, fills);
    var p := EnterFilled(t.(venue := v'), LiveBar(bar), direction, fills);
    OneAction(p.turn.logs[0]);
    assert p.turn.logs == [p.turn.logs[0]];
  }

  /** An exit takes the cumulative PnL along. */
  lemma ExitCarriesPnl(s: StrategyState, cooldownHours: nat, reason: ExitReason, time: int, cumulative: real)
    requires s.status == InPosition
    ensures Exited(s, cooldownHours, reason, time).Done?
    ensures Exited(s.(cumulative := cumulative), cooldownHours, reason, time)
            == Done(Exited(s, cooldownHours, reason, time).state.(cumulative := cumulative))
  {
    match reason
    case StopLoss =>
    case TakeProfit =>
    case TimeStop =>
  }

  /** What a live close does, whatever PnL it books. */
  lemma LiveBooked(cfg: Config, e: EngineState, v: Venue, time: int, p: PositionSnapshot, reason: ExitReason, a: FillAccounting)
    requires e.events == [] && e.logs == [] && e.machine.status == InPosition
    ensures var q := ExitBooked(cfg, Turn(e, v, [], []), time, p, reason, a);
            && q.Continue? && q.turn.venue == v
            && q.turn.engine.events == [] && q.turn.engine.logs == [] && q.turn.engine.signals == e.signals
            && q.turn.engine.machine
               == Exited(e.machine, cfg.risk.cooldownHours, reason, time).state.(cumulative := q.turn.engine.cumulative)
            && LogActions(q.turn.logs) == [Leaves(time, reason, p.direction, p.eth.qty, p.btc.qty, p.entryTime)]
  {
    var booked := AddRealizedPnl(e, a.realizedPnl);
    var log := ExitLog(p, time, reason, a, booked.cumulative);
    ExitCarriesPnl(e.machine, cfg.risk.cooldownHours, reason, time, booked.cumulative);
    assert booked.machine == e.machine.(cumulative := booked.cumulative);
    OneAction(log);
    assert [] + [log] == [log];
  }

  lemma LiveClosed(cfg: Config, e: EngineState, v: Venue, bar: BarInput, reason: ExitReason, fills: PairFill)
    requires EngineSound(cfg, e) && v.Sound() && e.events == [] && e.logs == [] && e.machine.position.Some?
    ensures var p := e.machine.position.value;
            var q := ExitClosed(cfg, Turn(e, v, [], []), bar, p, reason, fills);
            && q.Continue? && q.turn.venue == v && EngineSound(cfg, q.turn.engine)
            && q.turn.engine.events == [] && q.turn.engine.logs == [] && q.turn.engine.signals == e.signals
            && q.turn.engine.machine
               == Exited(e.machine, cfg.risk.cooldownHours, reason, bar.time).state.(cumulative := q.turn.engine.cumulative)
            && LogActions(q.turn.logs) == [Leaves(bar.time, reason, p.direction, p.eth.qty, p.btc.qty, p.entryTime)]
  {
    var p := e.machine.position.value;
    ExitClosedKeeps(cfg, Turn(e, v, [], []), bar, p, reason, fills);
    LiveBooked(cfg, e, v, bar.time, p, reason, PairAccounting(bar.exitFills, fills, bar, ExitModelPnl(p, bar, fills)));
  }

  /** What a backtest close does, apart from its PnL. */
  lemma BacktestClosed(cfg: Config, e: EngineState, s: BtState, bar: BacktestBar, output: SignalOutput)
    requires Agree(cfg, e, s) && output.exit.Some? && s.open.Some?
    ensures var r := BtClose(cfg, s, bar, output);
            && r.BtOk? && r.state.open.None? && r.state.signals == s.signals
            && r.state.machine == Exited(s.machine, cfg.risk.cooldownHours, output.exit.value.reason, bar.time).state
            && |r.state.trades| > 0 && r.state.trades[|r.state.trades| - 1].reason == output.exit.value.reason
  {
  }

  /** Equal machines exit alike. */
  lemma ExitsAlike(a: StrategyState, b: StrategyState, cooldownHours: nat, reason: ExitReason, time: int, cumulative: real)
    requires SameMachine(a, b) && a.status == InPosition && WellFormed(b)
    ensures var a', b' := Exited(a, cooldownHours, reason, time).state, Exited(b, cooldownHours, reason, time).state;
            && SameMachine(a'.(cumulative := cumulative), b') && WellFormed(b')
            && b'.position.None? && b'.status != PendingEntry && b'.status != InPosition
  {
    match reason
    case StopLoss =>
    case TakeProfit =>
    case TimeStop =>
  }

  /** Booking a full paper close leaves the live engine as the backtest leaves its machine. */
  lemma ClosedAgree(cfg: Config, e: EngineState, v: Venue, s: BtState, bar: BacktestBar, output: SignalOutput, fills: PairFill)
    requires v.paper && v.Sound() && Agree(cfg, e, s) && output.exit.Some? && e.machine.position.Some?
    ensures PhaseAgree(cfg, s, bar.time,
                       ExitClosed(cfg, Turn(e, v, [], []), LiveBar(bar), e.machine.position.value,
                                  output.exit.value.reason, fills),
                       BtClose(cfg, s, bar, output))
  {
    var p, reason := e.machine.position.value, output.exit.value.reason;
    var q := ExitClosed(cfg, Turn(e, v, [], []), LiveBar(bar), p, reason, fills);
    LiveClosed(cfg, e, v, LiveBar(bar), reason, fills);
    BacktestClosed(cfg, e, s, bar, output);
    ExitsAlike(e.machine, s.machine, cfg.risk.cooldownHours, reason, bar.time, q.turn.engine.cumulative);
  }

  /** The closing orders of a position fill on paper. */
  lemma CloseFillable(cfg: Config, v: Venue, p: PositionSnapshot, bar: BacktestBar)
    requires ExitPriced(cfg) && bar.eth > 0.0 && bar.btc > 0.0 && v.paper && v.Sound()
    ensures var (v', r) := ClosePair(v, ExitOrder(cfg, EthPerp, p.eth.qty, bar.eth),
                                     ExitOrder(cfg, BtcPerp, p.btc.qty, bar.btc), cfg.execution.maxAttempts);
            v'.paper && v'.Sound() && r.Ok?
  {
    var eth, btc := ExitOrder(cfg, EthPerp, p.eth.qty, bar.eth), ExitOrder(cfg, BtcPerp, p.btc.qty, bar.btc);
    if eth.orderType == Market {
      MarketPricePositive(cfg.execution, eth.side, bar.eth);
      MarketPricePositive(cfg.execution, btc.side, bar.btc);
    }
    PaperClose(v, eth, btc, cfg.execution.maxAttempts);
    CloseExact(v, eth, btc, cfg.execution.maxAttempts);
  }

  /** One of the two closing orders of opposed legs is a sale, and it has no usable price. */
  lemma UnpricedCloseFails(cfg: Config, v: Venue, p: PositionSnapshot, bar: BacktestBar)
    requires !ExitPriced(cfg) && bar.eth > 0.0 && bar.btc > 0.0 && v.paper && Opposed(p)
    ensures ClosePair(v, ExitOrder(cfg, EthPerp, p.eth.qty, bar.eth), ExitOrder(cfg, BtcPerp, p.btc.qty, bar.btc),
                      cfg.execution.maxAttempts).1.Err?
  {
    var eth, btc := ExitOrder(cfg, EthPerp, p.eth.qty, bar.eth), ExitOrder(cfg, BtcPerp, p.btc.qty, bar.btc);
    MarketSaleUnpriced(cfg.execution, bar.eth);
    MarketSaleUnpriced(cfg.execution, bar.btc);
    if eth.side == Sell {
      UnpricedFails(v, eth, cfg.execution.maxAttempts);
    } else {
      PaperFill(v, eth, cfg.execution.maxAttempts);
      UnpricedFails(RetrySubmitResult(v, eth, cfg.execution.maxAttempts).0, btc, cfg.execution.maxAttempts);
    }
  }

  lemma CloseAgree(cfg: Config, e: EngineState, v: Venue, s: BtState, bar: BacktestBar, output: SignalOutput)
    requires bar.eth > 0.0 && bar.btc > 0.0 && v.paper && v.Sound() && Agree(cfg, e, s)
    ensures PhaseAgreeIfPriced(cfg, s, bar.time, ExitIfSignalled(cfg, Turn(e, v, [], []), LiveBar(bar), output),
                               BtClose(cfg, s, bar, output))
  {
    if output.exit.Some? && e.machine.position.Some? {
      var p := e.machine.position.value;
      if ExitPriced(cfg) {
        CloseFillable(cfg, v, p, bar);
        var (v', r) := ClosePair(v, ExitOrder(cfg, EthPerp, p.eth.qty, bar.eth),
                                 ExitOrder(cfg, BtcPerp, p.btc.qty, bar.btc), cfg.execution.maxAttempts);
        ClosedAgree(cfg, e, v', s, bar, output, r.value);
      } else {
        UnpricedCloseFails(cfg, v, p, bar);
        BacktestClosed(cfg, e, s, bar, output);
      }
    }
  }

  /** The live machine would release its cooldown at this time. */
  predicate Releases(s: StrategyState, time: int) {
    s.status == Cooldown && s.cooldownUntil.Some? && time >= s.cooldownUntil.value
  }

  lemma PrepareIdle(cfg: Config, e: EngineState, v: Venue, s: BtState, bar: BacktestBar)
    requires Agree(cfg, e, s) && !Releases(e.machine, bar.time)
    ensures Prepare(cfg, e, v, LiveBar(bar)) == Continue(Turn(e, v, [], []))
  {
  }

  /** The live bar after its signals. */
  function LiveTrade(cfg: Config, t: Turn, bar: BarInput, output: SignalOutput): Phase {
    match EnterIfSignalled(cfg, t, bar, output)
    case Stop(t', error) => Stop(t', error)
    case Continue(t') => ExitIfSignalled(cfg, t', bar, output)
  }

  lemma AfterSignalsAgree(cfg: Config, e: EngineState, v: Venue, s: BtState, bar: BacktestBar, output: SignalOutput)
    requires ParitySetup(cfg) && bar.eth > 0.0 && bar.btc > 0.0 && v.paper && v.Sound() && Agree(cfg, e, s)
    requires output.entry.Some? ==> e.machine.status == Flat && output.exit.None?
    ensures PhaseAgreeIfPriced(cfg, s, bar.time, LiveTrade(cfg, Turn(e, v, [], []), LiveBar(bar), output),
                               BtTrade(cfg, s, bar, output))
  {
    EnterAgree(cfg, e, v, s, bar, output);
    if output.entry.None? {
      CloseAgree(cfg, e, v, s, bar, output);
    } else {
      EntryEndsBar(cfg, e, v, s, bar, output);
    }
  }

  lemma TradeAgree(m: Maths, cfg: Config, e: EngineState, v: Venue, s: BtState, bar: BacktestBar)
    requires ParitySetup(cfg) && v.paper && v.Sound() && Agree(cfg, e, s)
    ensures PhaseAgreeIfPriced(cfg, s, bar.time, TradeSignals(m, cfg, Turn(e, v, [], []), LiveBar(bar)), BtStep(m, cfg, s, bar))
  {
    SignalsIgnoreNotional(m, cfg, e.signals, TickOf(e, LiveBar(bar)), BtTick(s, bar));
    var (signals, output) := PipelineStep(m, cfg, s.signals, BtTick(s, bar));
    StepKeepsSound(m, cfg, s.signals, BtTick(s, bar));
    OutputExclusive(m, cfg, s.signals, BtTick(s, bar));
    if output.Some? {
      AfterSignalsAgree(cfg, e.(signals := signals), v, s.(signals := signals), bar, output.value);
    }
  }

  /** A bar that signals an entry does not signal an exit, so the exit part changes nothing. */
  lemma EntryEndsBar(cfg: Config, e: EngineState, v: Venue, s: BtState, bar: BacktestBar, output: SignalOutput)
    requires output.exit.None?
    ensures forall t: Turn :: ExitIfSignalled(cfg, t, LiveBar(bar), output) == Continue(t)
    ensures forall s': BtState :: BtClose(cfg, s', bar, output) == BtOk(s')
  {
  }

  /** The live bar and the backtest bar end alike: both fail, or both take the same action with the
      same signed quantities and agree afterwards. */
  ghost predicate BarsAgree(m: Maths, cfg: Config, e: EngineState, v: Venue, s: BtState, bar: BacktestBar)
    requires cfg.IndicatorsValid()
  {
    var (e', v', result) := ProcessBar(m, cfg, e, v, LiveBar(bar));
    match BtStep(m, cfg, s, bar)
    case BtErr => result.Failed?
    case BtOk(s') =>
      && result.Processed? && v'.paper && v'.Sound() && Agree(cfg, e', s')
      && LogActions(result.logs) == BtActions(s, s', bar.time)
  }

  /** As long as the live cooldown is not released, a bar keeps live engine and backtest in
      agreement if and only if the backtest does not trade where the live engine's market sale has no
      usable price; there the live bar fails. */
  lemma BarAgreeIff(m: Maths, cfg: Config, e: EngineState, v: Venue, s: BtState, bar: BacktestBar)
    requires ParitySetup(cfg) && v.paper && v.Sound() && Agree(cfg, e, s) && !Releases(e.machine, bar.time)
    ensures var r := BtStep(m, cfg, s, bar);
            && (BarsAgree(m, cfg, e, v, s, bar) <==> !(r.BtOk? && TradesUnpriced(cfg, s, r.state)))
            && (r.BtOk? && TradesUnpriced(cfg, s, r.state) ==> ProcessBar(m, cfg, e, v, LiveBar(bar)).2.Failed?)
  {
    PrepareIdle(cfg, e, v, s, bar);
    TradeAgree(m, cfg, e, v, s, bar);
  }

  /** So with usable prices every such bar keeps them in agreement. */
  lemma BarAgree(m: Maths, cfg: Config, e: EngineState, v: Venue, s: BtState, bar: BacktestBar)
    requires ParityConfig(cfg) && v.paper && v.Sound() && Agree(cfg, e, s) && !Releases(e.machine, bar.time)
    ensures BarsAgree(m, cfg, e, v, s, bar)
  {
    BarAgreeIff(m, cfg, e, v, s, bar);
  }

  /** The release of the cooldown is exactly what ends the agreement: the backtest stays in it. */
  lemma ReleaseEndsAgreement(m: Maths, cfg: Config, e: EngineState, v: Venue, s: BtState, bar: BacktestBar)
    requires ParitySetup(cfg) && v.paper && v.Sound() && Agree(cfg, e, s) && bar.eth > 0.0 && bar.btc > 0.0
    ensures var (e', v', result) := ProcessBar(m, cfg, e, v, LiveBar(bar));
            var r := BtStep(m, cfg, s, bar);
            result.Processed? && r.BtOk? ==> (Agree(cfg, e', r.state) <==> !Releases(e.machine, bar.time))
  {
    if Releases(e.machine, bar.time) {
      ReleasedNotCooling(m, cfg, e, v, s, bar);
      CoolingBacktestIdle(m, cfg, s, bar);
    } else {
      BarAgreeIff(m, cfg, e, v, s, bar);
    }
  }

  lemma CoolingBacktestIdle(m: Maths, cfg: Config, s: BtState, bar: BacktestBar)
    requires cfg.IndicatorsValid() && s.machine.status == Cooldown && s.open.None?
    ensures BtStep(m, cfg, s, bar).BtOk? ==> BtStep(m, cfg, s, bar).state.machine == s.machine
  {
    OutputExclusive(m, cfg, s.signals, BtTick(s, bar));
  }

  lemma ReleasedNotCooling(m: Maths, cfg: Config, e: EngineState, v: Venue, s: BtState, bar: BacktestBar)
    requires ParitySetup(cfg) && v.paper && v.Sound() && Agree(cfg, e, s) && Releases(e.machine, bar.time)
    ensures ProcessBar(m, cfg, e, v, LiveBar(bar)).0.machine.status != Cooldown
  {
    var e1 := e.(machine := Updated(e.machine, bar.time));
    var t := Turn(e1, v, [], []);
    assert Prepare(cfg, e, v, LiveBar(bar)) == Continue(t);
    var (signals, output) := PipelineStep(m, cfg, e1.signals, TickOf(e1, LiveBar(bar)));
    OutputExclusive(m, cfg, e1.signals, TickOf(e1, LiveBar(bar)));
    if output.Some? {
      var t' := t.(engine := e1.(signals := signals));
      EntryLeavesNoCooldown(cfg, t', LiveBar(bar), output.value);
    }
  }

  lemma EntryLeavesNoCooldown(cfg: Config, t: Turn, bar: BarInput, output: SignalOutput)
    requires t.engine.machine.status == Flat
    ensures EnterIfSignalled(cfg, t, bar, output).turn.engine.machine.status != Cooldown
  {
  }

  // ---- whole runs ------------------------------------------------------------------------------

  datatype LiveRun = LiveOk(engine: EngineState, venue: Venue, actions: seq<Action>) | LiveErr

  /** The live engine over a list of bars; an error ends the run. */
  function RunLive(m: Maths, cfg: Config, v: Venue, bars: seq<BacktestBar>): LiveRun
    requires cfg.IndicatorsValid()
  {
    if |bars| == 0 then LiveOk(FRESH_ENGINE, v, [])
    else
      match RunLive(m, cfg, v, bars[..|bars| - 1])
      case LiveErr => LiveErr
      case LiveOk(e, v1, actions) =>
        var (e', v', result) := ProcessBar(m, cfg, e, v1, LiveBar(bars[|bars| - 1]));
        match result
        case Failed(_) => LiveErr
        case Processed(_, logs) => LiveOk(e', v', actions + LogActions(logs))
  }

  datatype BtTrace = TraceOk(state: BtState, actions: seq<Action>) | TraceErr

  /** The backtest with the actions read off its books. */
  function TraceBacktest(m: Maths, cfg: Config, s: BtState, bars: seq<BacktestBar>): (r: BtTrace)
    requires cfg.IndicatorsValid()
    ensures BtRun(m, cfg, s, bars) == if r.TraceErr? then BtErr else BtOk(r.state)
  {
    if |bars| == 0 then TraceOk(s, [])
    else
      match TraceBacktest(m, cfg, s, bars[..|bars| - 1])
      case TraceErr => TraceErr
      case TraceOk(s1, actions) =>
        match BtStep(m, cfg, s1, bars[|bars| - 1])
        case BtErr => TraceErr
        case BtOk(s2) => TraceOk(s2, actions + BtActions(s1, s2, bars[|bars| - 1].time))
  }

  /** No bar of the run releases the live cooldown. */
  ghost predicate NoRelease(m: Maths, cfg: Config, v: Venue, bars: seq<BacktestBar>)
    requires cfg.IndicatorsValid()
  {
    forall k :: 0 <= k < |bars| && RunLive(m, cfg, v, bars[..k]).LiveOk? ==>
      !Releases(RunLive(m, cfg, v, bars[..k]).engine.machine, bars[k].time)
  }

  /** The live engine has a price for each of these trades. */
  predicate AllPriced(cfg: Config, actions: seq<Action>) {
    && (EntryPriced(cfg) || forall a :: a in actions ==> !a.Enters?)
    && (ExitPriced(cfg) || forall a :: a in actions ==> !a.Leaves?)
  }

  lemma AllPricedMore(cfg: Config, actions: seq<Action>, s: BtState, s': BtState, time: int)
    requires s.open.Some? && s'.open.None? ==> |s'.trades| > 0
    ensures AllPriced(cfg, actions + BtActions(s, s', time)) <==> AllPriced(cfg, actions) && !TradesUnpriced(cfg, s, s')
  {
    var more := BtActions(s, s', time);
    forall a: Action
      ensures a in actions + more <==> a in actions || a in more
    {
    }
    if s.open.None? && s'.open.Some? {
      assert more[0] in more && more[0].Enters?;
    } else if s.open.Some? && s'.open.None? {
      assert more[0] in more && more[0].Leaves?;
    }
  }

  /** A position of the backtest is left by a trade. */
  lemma LeavingIsATrade(m: Maths, cfg: Config, s: BtState, bar: BacktestBar)
    requires cfg.IndicatorsValid()
    ensures var r := BtStep(m, cfg, s, bar);
            r.BtOk? && s.open.Some? && r.state.open.None? ==> |r.state.trades| > 0
  {
  }

  /** On any bars before the first release of a cooldown the live engine on paper runs through exactly
      those on which the backtest neither fails nor trades where the live engine has no price, and
      takes the same entries and exits: same bars, directions, signed quantities and reasons. */
  lemma {:induction false} RunsAgreeIff(m: Maths, cfg: Config, v: Venue, initial: real, bars: seq<BacktestBar>)
    requires ParitySetup(cfg) && v.paper && v.Sound() && NoRelease(m, cfg, v, bars)
    ensures var live := RunLive(m, cfg, v, bars);
            var backtest := TraceBacktest(m, cfg, Started(initial), bars);
            && (live.LiveOk? <==> backtest.TraceOk? && AllPriced(cfg, backtest.actions))
            && (live.LiveOk? ==>
                  live.actions == backtest.actions && live.venue.paper && live.venue.Sound()
                  && Agree(cfg, live.engine, backtest.state))
  {
    if |bars| > 0 {
      var init, last := bars[..|bars| - 1], bars[|bars| - 1];
      NoReleaseBefore(m, cfg, v, bars);
      RunsAgreeIff(m, cfg, v, initial, init);
      var live, backtest := RunLive(m, cfg, v, init), TraceBacktest(m, cfg, Started(initial), init);
      if backtest.TraceOk? {
        var r := BtStep(m, cfg, backtest.state, last);
        LeavingIsATrade(m, cfg, backtest.state, last);
        if r.BtOk? {
          AllPricedMore(cfg, backtest.actions, backtest.state, r.state, last.time);
        }
        if live.LiveOk? {
          assert bars[..|init|] == init;
          BarAgreeIff(m, cfg, live.engine, live.venue, backtest.state, last);
        }
      }
    }
  }

  lemma NoReleaseBefore(m: Maths, cfg: Config, v: Venue, bars: seq<BacktestBar>)
    requires cfg.IndicatorsValid() && |bars| > 0 && NoRelease(m, cfg, v, bars)
    ensures NoRelease(m, cfg, v, bars[..|bars| - 1])
  {
    var init := bars[..|bars| - 1];
    forall k | 0 <= k < |init| && RunLive(m, cfg, v, init[..k]).LiveOk?
      ensures !Releases(RunLive(m, cfg, v, init[..k]).engine.machine, init[k].time)
    {
      assert init[..k] == bars[..k];
    }
  }

  /** With usable prices, at least up to and including the first stop-loss exit, the two take the same
      trades and fail on the same bar. */
  lemma RunsAgree(m: Maths, cfg: Config, v: Venue, initial: real, bars: seq<BacktestBar>)
    requires ParityConfig(cfg) && v.paper && v.Sound() && NoRelease(m, cfg, v, bars)
    ensures var live := RunLive(m, cfg, v, bars);
            var backtest := TraceBacktest(m, cfg, Started(initial), bars);
            && (live.LiveErr? <==> backtest.TraceErr?)
            && (live.LiveOk? ==>
                  live.actions == backtest.actions && live.venue.paper && live.venue.Sound()
                  && Agree(cfg, live.engine, backtest.state))
  {
    RunsAgreeIff(m, cfg, v, initial, bars);
  }

  /** In particular no release happens while the live engine has not been in a cooldown before a
      bar, that is, through the bar of the first stop-loss. */
  lemma RunsAgreeThroughStopLoss(m: Maths, cfg: Config, v: Venue, initial: real, bars: seq<BacktestBar>)
    requires ParityConfig(cfg) && v.paper && v.Sound()
    requires forall k :: 0 <= k < |bars| && RunLive(m, cfg, v, bars[..k]).LiveOk? ==>
               RunLive(m, cfg, v, bars[..k]).engine.machine.status != Cooldown
    ensures var live := RunLive(m, cfg, v, bars);
            var backtest := TraceBacktest(m, cfg, Started(initial), bars);
            && (live.LiveErr? <==> backtest.TraceErr?)
            && (live.LiveOk? ==> live.actions == backtest.actions)
  {
    RunsAgree(m, cfg, v, initial, bars);
  }
}
