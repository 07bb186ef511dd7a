/** One cycle of the live engine as a function of its state, the exchange and the bar. */
module Strategy {
  import opened Numbers
  import opened Trading
  import opened State
  import opened Indicators
  import opened Pipeline
  import opened Pricing
  import opened Execution
  import opened Sizing

  datatype LogEvent =
    | EntrySubmitted | EntryCancelled | EntryMade | ExitMade(reason: ExitReason) | ResidualRepaired

  datatype TradeEvent = EntryTrade | ExitTrade(reason: ExitReason) | RepairTrade

  datatype TradeLog = TradeLog(
    time: int, event: TradeEvent, direction: TradeDirection, ethQty: real, btcQty: real,
    ethPrice: real, btcPrice: real, entryTime: int, realizedPnl: real, cumulative: real)

  datatype ExchangePosition = ExchangePosition(qty: real, entryPrice: real, notional: real)

  datatype PairExposure = PairExposure(eth: Option<ExchangePosition>, btc: Option<ExchangePosition>)
  {
    function EthQty(): real {
      if eth.Some? then eth.value.qty else 0.0
    }
    function BtcQty(): real {
      if btc.Some? then btc.value.qty else 0.0
    }
    predicate IsFlat() {
      EthQty() == 0.0 && BtcQty() == 0.0
    }
    predicate HasResidual() {
      (EthQty() == 0.0) != (BtcQty() == 0.0)
    }
  }

  datatype EngineState = EngineState(
    signals: PipelineState, machine: StrategyState, cumulative: real,
    events: seq<LogEvent>, logs: seq<TradeLog>)

  const FRESH_ENGINE := EngineState(FRESH_PIPELINE, FRESH_STATE, 0.0, [], [])

  datatype StrategyError =
    | IndicatorFailed | ExecutionFailed(error: ExecError) | CapitalUnavailable | CapitalExceeded
    | SizeFailed | FundingFailed | BookMismatch | SnapshotMissing | TransitionRefused

  // ---- accounting from exchange fills ----------------------------------------------------

  datatype ExchangeFill = ExchangeFill(
    coin: Symbol, price: real, size: real, fee: real, closedPnl: real, oid: Option<nat>)

  /** What a lookup of recent fills returns; None without a source or on a failed fetch. */
  type Fetched = Option<seq<ExchangeFill>>

  datatype FillAccounting = FillAccounting(ethPrice: real, btcPrice: real, realizedPnl: real)

  datatype FillTotals = FillTotals(
    ethPxSz: real, ethSz: real, btcPxSz: real, btcSz: real, fee: real, closedPnl: real)

  function AddFill(t: FillTotals, fill: ExchangeFill): FillTotals {
    var u := t.(fee := t.fee + fill.fee, closedPnl := t.closedPnl + fill.closedPnl);
    match fill.coin
    case EthPerp => u.(ethPxSz := t.ethPxSz + Notional(fill.size, fill.price), ethSz := t.ethSz + fill.size)
    case BtcPerp => u.(btcPxSz := t.btcPxSz + Notional(fill.size, fill.price), btcSz := t.btcSz + fill.size)
  }

  function TotalFills(fills: seq<ExchangeFill>): FillTotals {
    if |fills| == 0 then FillTotals(0.0, 0.0, 0.0, 0.0, 0.0, 0.0)
    else AddFill(TotalFills(fills[..|fills| - 1]), fills[|fills| - 1])
  }

  function SummarizeFills(fills: seq<ExchangeFill>, fallbackEth: real, fallbackBtc: real): FillAccounting {
    var t := TotalFills(fills);
    FillAccounting(if t.ethSz > 0.0 then t.ethPxSz / t.ethSz else fallbackEth,
                   if t.btcSz > 0.0 then t.btcPxSz / t.btcSz else fallbackBtc,
                   t.closedPnl - t.fee)
  }

  /** The fills of one coin. */
  function OfCoin(fills: seq<ExchangeFill>, coin: Symbol): seq<ExchangeFill> {
    if |fills| == 0 then []
    else
      var init, last := OfCoin(fills[..|fills| - 1], coin), fills[|fills| - 1];
      if last.coin == coin then init + [last] else init
  }

  function SumOf(fills: seq<ExchangeFill>, part: ExchangeFill -> real): real {
    if |fills| == 0 then 0.0 else SumOf(fills[..|fills| - 1], part) + part(fills[|fills| - 1])
  }

  const SIZE: ExchangeFill -> real := (f: ExchangeFill) => f.size
  const WORTH: ExchangeFill -> real := (f: ExchangeFill) => Notional(f.size, f.price)
  const FEE: ExchangeFill -> real := (f: ExchangeFill) => f.fee
  const CLOSED_PNL: ExchangeFill -> real := (f: ExchangeFill) => f.closedPnl

  lemma SumOfSnoc(fills: seq<ExchangeFill>, last: ExchangeFill, part: ExchangeFill -> real)
    ensures SumOf(fills + [last], part) == SumOf(fills, part) + part(last)
  {
    assert (fills + [last])[..|fills|] == fills;
  }

  lemma CoinSnoc(fills: seq<ExchangeFill>, coin: Symbol, part: ExchangeFill -> real)
    requires |fills| > 0
    ensures var init, last := fills[..|fills| - 1], fills[|fills| - 1];
            SumOf(OfCoin(fills, coin), part)
            == SumOf(OfCoin(init, coin), part) + (if last.coin == coin then part(last) else 0.0)
  {
    SumOfSnoc(OfCoin(fills[..|fills| - 1], coin), fills[|fills| - 1], part);
  }

  lemma {:induction false} TotalsAreSums(fills: seq<ExchangeFill>)
    ensures var t := TotalFills(fills);
            && t.ethSz == SumOf(OfCoin(fills, EthPerp), SIZE) && t.ethPxSz == SumOf(OfCoin(fills, EthPerp), WORTH)
            && t.btcSz == SumOf(OfCoin(fills, BtcPerp), SIZE) && t.btcPxSz == SumOf(OfCoin(fills, BtcPerp), WORTH)
            && t.fee == SumOf(fills, FEE) && t.closedPnl == SumOf(fills, CLOSED_PNL)
  {
    if |fills| > 0 {
      TotalsAreSums(fills[..|fills| - 1]);
      CoinSnoc(fills, EthPerp, SIZE);
      CoinSnoc(fills, EthPerp, WORTH);
      CoinSnoc(fills, BtcPerp, SIZE);
      CoinSnoc(fills, BtcPerp, WORTH);
    }
  }

  predicate PricedWithin(fills: seq<ExchangeFill>, low: real, high: real) {
    forall i :: 0 <= i < |fills| ==> fills[i].size >= 0.0 && low <= fills[i].price <= high
  }

  lemma NotionalOfSum(a: real, b: real, price: real)
    ensures Notional(a + b, price) == Notional(a, price) + Notional(b, price)
  {
  }

  lemma NotionalBetween(qty: real, low: real, price: real, high: real)
    requires qty >= 0.0 && low <= price <= high
    ensures Notional(qty, low) <= Notional(qty, price) <= Notional(qty, high)
  {
    ProductOrder(low, price, qty, Notional(qty, low), Notional(qty, price));
    ProductOrder(price, high, qty, Notional(qty, price), Notional(qty, high));
  }

  lemma {:induction false} WorthBetween(fills: seq<ExchangeFill>, low: real, high: real)
    requires PricedWithin(fills, low, high)
    ensures Notional(SumOf(fills, SIZE), low) <= SumOf(fills, WORTH) <= Notional(SumOf(fills, SIZE), high)
  {
    if |fills| > 0 {
      var init, last := fills[..|fills| - 1], fills[|fills| - 1];
      WorthBetween(init, low, high);
      NotionalBetween(last.size, low, last.price, high);
      NotionalOfSum(SumOf(init, SIZE), last.size, low);
      NotionalOfSum(SumOf(init, SIZE), last.size, high);
    }
  }

  lemma Average(worth: real, size: real)
    requires size > 0.0
    ensures Notional(size, worth / size) == worth
  {
    QuotientTimes(worth, size);
  }

  lemma QuotientBetween(worth: real, size: real, low: real, high: real)
    requires size > 0.0 && Notional(size, low) <= worth <= Notional(size, high)
    ensures low <= worth / size <= high
  {
    var q := worth / size;
    Average(worth, size);
    MulCancel(size, low, q);
    MulCancel(size, q, high);
  }

  /** The price the summary gives a coin. */
  function PriceOf(a: FillAccounting, coin: Symbol): real {
    if coin == EthPerp then a.ethPrice else a.btcPrice
  }

  /** The accounting is the exchange's own: the PnL is what the fills closed less their fees, and each
      price is the size-weighted average of the coin's fills, so it lies among their prices. */
  lemma SummaryIsAverage(fills: seq<ExchangeFill>, coin: Symbol, fallbackEth: real, fallbackBtc: real, low: real, high: real)
    ensures var a := SummarizeFills(fills, fallbackEth, fallbackBtc);
            var size, worth := SumOf(OfCoin(fills, coin), SIZE), SumOf(OfCoin(fills, coin), WORTH);
            && a.realizedPnl == SumOf(fills, CLOSED_PNL) - SumOf(fills, FEE)
            && (size <= 0.0 ==> PriceOf(a, coin) == if coin == EthPerp then fallbackEth else fallbackBtc)
            && (size > 0.0 ==>
                  && Notional(size, PriceOf(a, coin)) == worth
                  && (PricedWithin(OfCoin(fills, coin), low, high) ==> low <= PriceOf(a, coin) <= high))
  {
    var size, worth := SumOf(OfCoin(fills, coin), SIZE), SumOf(OfCoin(fills, coin), WORTH);
    TotalsAreSums(fills);
    if size > 0.0 {
      Average(worth, size);
      if PricedWithin(OfCoin(fills, coin), low, high) {
        WorthBetween(OfCoin(fills, coin), low, high);
        QuotientBetween(worth, size, low, high);
      }
    }
  }

  function Matching(fills: seq<ExchangeFill>, oids: set<nat>): (r: seq<ExchangeFill>)
    ensures forall f :: f in r <==> f in fills && f.oid.Some? && f.oid.value in oids
  {
    if |fills| == 0 then []
    else
      var init, last := fills[..|fills| - 1], fills[|fills| - 1];
      assert fills == init + [last];
      if last.oid.Some? && last.oid.value in oids then Matching(init, oids) + [last] else Matching(init, oids)
  }

  function OidSet(oid: Option<nat>): set<nat> {
    if oid.Some? then {oid.value} else {}
  }

  /** Accounting from the fills of the given orders; the model's figures when they are missing. */
  function AccountFor(fetched: Fetched, oids: set<nat>, symbols: set<Symbol>,
                      ethPrice: real, btcPrice: real, modelPnl: real): FillAccounting
  {
    var model := FillAccounting(ethPrice, btcPrice, modelPnl);
    if fetched.None? || oids == {} then model
    else
      var matched := Matching(fetched.value, oids);
      if matched == [] then model
      else if exists symbol | symbol in symbols :: forall f | f in matched :: f.coin != symbol then model
      else SummarizeFills(matched, ethPrice, btcPrice)
  }

  // ---- the bar ---------------------------------------------------------------------------

  /** The verdict of the funding, regime and cost gates on an entry. */
  datatype Gate = Pass | Block | GateError

  datatype BarInput = BarInput(
    time: int, eth: real, btc: real, equity: Option<real>,
    fundingEth: Option<real>, fundingBtc: Option<real>, fundingInterval: Option<nat>, gate: Gate,
    repairFills: Fetched, entryFills: Fetched, exitFills: Fetched)

  datatype BarResult = Processed(events: seq<LogEvent>, logs: seq<TradeLog>) | Failed(error: StrategyError)

  /** A bar in progress: the engine, the exchange and what the bar will report. */
  datatype Turn = Turn(engine: EngineState, venue: Venue, events: seq<LogEvent>, logs: seq<TradeLog>)

  datatype Phase = Continue(turn: Turn) | Stop(turn: Turn, error: Option<StrategyError>)

  function PositionPnl(p: PositionSnapshot, ethPrice: real, btcPrice: real): real {
    p.eth.qty * (ethPrice - p.eth.avgPrice) + p.btc.qty * (btcPrice - p.btc.avgPrice)
  }

  function AddRealizedPnl(e: EngineState, pnl: real): EngineState {
    e.(cumulative := e.cumulative + pnl, machine := e.machine.(cumulative := e.cumulative + pnl))
  }

  /** Funding paid by a position over the given hours; never negative. */
  function FundingCost(direction: TradeDirection, notionalEth: real, notionalBtc: real,
                       rateEth: real, rateBtc: real, interval: nat, hours: nat): (r: real)
    requires interval > 0
    ensures r >= 0.0
  {
    var intervals := (hours + interval - 1) / interval;
    var perInterval := match direction
                       case LongEthShortBtc => rateEth * notionalEth - rateBtc * notionalBtc
                       case ShortEthLongBtc => -rateEth * notionalEth + rateBtc * notionalBtc;
    MaxReal(perInterval * intervals as real, 0.0)
  }

  function HoursHeld(p: PositionSnapshot, now: int): nat {
    var hours := p.HoldingHours(now);
    if hours < 0 then 0 else hours
  }

  function LimitPrice(x: ExecutionConfig, orderType: OrderType, side: OrderSide, price: real): real {
    match orderType
    case Market =>
      var slippage := x.slippageBps as real / 10000.0;
      if side == Buy then price * (1.0 + slippage) else price * (1.0 - slippage)
    case Limit => price
    case PostOnly =>
      var offset := x.postOnlyBps as real / 10000.0;
      if side == Buy then price * (1.0 - offset) else price * (1.0 + offset)
  }

  /** Passive entries still exit at the market. */
  function ExitOrderType(x: ExecutionConfig): OrderType {
    if x.orderType == PostOnly then Market else x.orderType
  }

  function TakePending(e: EngineState, v: Venue): Turn {
    Turn(e.(events := [], logs := []), v, e.events, e.logs)
  }

  function ExpirePending(cfg: Config, t: Turn, time: int): Phase {
    var s := t.engine.machine;
    if s.pending.Some? && s.status == PendingEntry && time >= s.pending.value.expiresAt then
      var (v1, r1) := RetryCancel(t.venue, s.pending.value.ethOid, cfg.execution.maxAttempts);
      if r1.Err? then Stop(t.(venue := v1), Some(ExecutionFailed(r1.error)))
      else
        var (v2, r2) := RetryCancel(v1, s.pending.value.btcOid, cfg.execution.maxAttempts);
        if r2.Err? then Stop(t.(venue := v2), Some(ExecutionFailed(r2.error)))
        else Continue(t.(venue := v2, engine := t.engine.(machine := ForcedFlat(s)),
                         events := t.events + [EntryCancelled]))
    else Continue(t)
  }

  /** The log of a repair and the engine with its PnL added. */
  function RepairBooked(e: EngineState, p: PositionSnapshot, time: int, ethPrice: real, btcPrice: real,
                        fill: Option<(Symbol, OrderFill)>, fetched: Fetched): (EngineState, TradeLog)
  {
    var fillEth := if fill.Some? && fill.value.0 == EthPerp && fill.value.1.avgPrice.Some?
                   then fill.value.1.avgPrice.value else ethPrice;
    var fillBtc := if fill.Some? && fill.value.0 == BtcPerp && fill.value.1.avgPrice.Some?
                   then fill.value.1.avgPrice.value else btcPrice;
    var pnl := PositionPnl(p, fillEth, fillBtc);
    var a := match fill
             case None => FillAccounting(fillEth, fillBtc, pnl)
             case Some((symbol, f)) => AccountFor(fetched, OidSet(f.oid), {symbol}, fillEth, fillBtc, pnl);
    var e' := AddRealizedPnl(e, a.realizedPnl);
    (e', TradeLog(time, RepairTrade, p.direction, p.eth.qty, p.btc.qty, a.ethPrice, a.btcPrice,
                  p.entryTime, a.realizedPnl, e'.cumulative))
  }

  function RepairLocal(cfg: Config, t: Turn, bar: BarInput): Phase {
    var s := t.engine.machine;
    if s.position.Some? && s.position.value.HasResidual() then
      var (v', r) := RepairResidual(t.venue, s.position.value, cfg.execution.maxAttempts);
      match r
      case Err(error) => Stop(t.(venue := v'), Some(ExecutionFailed(error)))
      case Ok(fill) =>
        var (e', log) := RepairBooked(t.engine, s.position.value, bar.time, bar.eth, bar.btc, fill, bar.repairFills);
        Continue(Turn(e'.(machine := ForcedFlat(e'.machine)), v',
                      t.events + [ResidualRepaired], t.logs + [log]))
    else Continue(t)
  }

  // ---- entry -----------------------------------------------------------------------------

  datatype Plan = PlanFails(error: StrategyError) | PlanSkips | PlanOrders(eth: OrderRequest, btc: OrderRequest)

  function Multiplier(cfg: Config, direction: TradeDirection): real {
    match direction
    case LongEthShortBtc => cfg.multipliers.longEthShortBtc
    case ShortEthLongBtc => cfg.multipliers.shortEthLongBtc
  }

  function EntryEquity(cfg: Config, bar: BarInput): Option<real> {
    match cfg.position.cMode
    case FixedNotional => Some(if cfg.position.cValue.Some? then cfg.position.cValue.value else 0.0)
    case EquityRatio => if bar.equity.Some? then bar.equity else cfg.position.equityValue
  }

  datatype Capital = Capital(amount: real) | NoCapital(error: StrategyError)

  /** Capital of an entry, or the error that stops the bar. */
  function EntryCapital(cfg: Config, equity: Option<real>, multiplier: real): Capital {
    if equity.None? then NoCapital(CapitalUnavailable)
    else
      match ComputeCapital(cfg.position, equity.value)
      case None => NoCapital(CapitalUnavailable)
      case Some(base) =>
        var capital := base * multiplier;
        if cfg.position.maxNotional.Some? && capital > cfg.position.maxNotional.value
        then NoCapital(CapitalExceeded) else Capital(capital)
  }

  function EntrySide(direction: TradeDirection, symbol: Symbol): OrderSide {
    if (direction == LongEthShortBtc) == (symbol == EthPerp) then Buy else Sell
  }

  function EntryOrder(cfg: Config, direction: TradeDirection, symbol: Symbol, qty: real, price: real): OrderRequest {
    var side := EntrySide(direction, symbol);
    OrderRequest(symbol, side, qty, cfg.execution.orderType,
                 Some(LimitPrice(cfg.execution, cfg.execution.orderType, side, price)), false)
  }

  function SizedOrders(cfg: Config, bar: BarInput, direction: TradeDirection, w: Weights, capital: real): Plan {
    match ConvertNotional(cfg.eth, cfg.position.minSizePolicy, Share(capital, w.eth), bar.eth)
    case BelowMinimum => PlanSkips
    case Sized(eth) =>
      (match ConvertNotional(cfg.btc, cfg.position.minSizePolicy, Share(capital, w.btc), bar.btc)
       case BelowMinimum => PlanSkips
       case Sized(btc) =>
         PlanOrders(EntryOrder(cfg, direction, EthPerp, eth.qty, bar.eth),
                    EntryOrder(cfg, direction, BtcPerp, btc.qty, bar.btc))
       case _ => PlanFails(SizeFailed))
    case _ => PlanFails(SizeFailed)
  }

  function EntryPlan(cfg: Config, bar: BarInput, signal: EntrySignal, volEth: real, volBtc: real): Plan {
    match EntryCapital(cfg, EntryEquity(cfg, bar), Multiplier(cfg, signal.direction))
    case NoCapital(error) => PlanFails(error)
    case Capital(capital) =>
      match bar.gate
      case GateError => PlanFails(FundingFailed)
      case Block => PlanSkips
      case Pass => SizedOrders(cfg, bar, signal.direction, RiskParityWeights(volEth, volBtc), capital)
  }

  function LegOf(side: OrderSide, qty: real, price: real): PositionLeg {
    PositionLeg(Signed(side, qty), price, Abs(qty) * price)
  }

  function Opened(direction: TradeDirection, time: int, fills: PairFill, a: FillAccounting): PositionSnapshot {
    PositionSnapshot(direction, time,
                     LegOf(EntrySide(direction, EthPerp), fills.eth.qty, a.ethPrice),
                     LegOf(EntrySide(direction, BtcPerp), fills.btc.qty, a.btcPrice))
  }

  function FillPrice(fill: OrderFill, fallback: real): real {
    if fill.avgPrice.Some? then fill.avgPrice.value else fallback
  }

  function PairAccounting(fetched: Fetched, fills: PairFill, bar: BarInput, modelPnl: real): FillAccounting {
    AccountFor(fetched, OidSet(fills.eth.oid) + OidSet(fills.btc.oid), {EthPerp, BtcPerp},
               FillPrice(fills.eth, bar.eth), FillPrice(fills.btc, bar.btc), modelPnl)
  }

  function EntryLog(p: PositionSnapshot, time: int, a: FillAccounting, cumulative: real): TradeLog {
    TradeLog(time, EntryTrade, p.direction, p.eth.qty, p.btc.qty, a.ethPrice, a.btcPrice, time,
             a.realizedPnl, cumulative)
  }

  function EnterFilled(t: Turn, bar: BarInput, direction: TradeDirection, fills: PairFill): Phase {
    var a := PairAccounting(bar.entryFills, fills, bar, 0.0);
    var e := AddRealizedPnl(t.engine, a.realizedPnl);
    var p := Opened(direction, bar.time, fills, a);
    match Entered(e.machine, p, bar.time)
    case InvalidTransition => Stop(t.(engine := e), Some(TransitionRefused))
    case Done(s) =>
      Continue(t.(engine := e.(machine := s), events := t.events + [EntryMade],
                  logs := t.logs + [EntryLog(p, bar.time, a, e.cumulative)]))
  }

  function EnterResting(cfg: Config, t: Turn, bar: BarInput, direction: TradeDirection,
                        plan: Plan, ethOid: nat, btcOid: nat): Phase
    requires plan.PlanOrders?
  {
    var pending := PendingEntrySnapshot(
      direction, Signed(plan.eth.side, plan.eth.qty), Signed(plan.btc.side, plan.btc.qty), ethOid, btcOid,
      bar.time, bar.time + cfg.execution.postOnlyTtlSecs);
    match EnteredPending(t.engine.machine, pending)
    case InvalidTransition => Stop(t, Some(TransitionRefused))
    case Done(s) => Continue(t.(engine := t.engine.(machine := s), events := t.events + [EntrySubmitted]))
  }

  predicate PostOnlyWouldTake(error: ExecError) {
    error.Fatal? && error.text.wouldTake
  }

  function SubmitEntry(cfg: Config, t: Turn, bar: BarInput, signal: EntrySignal, plan: Plan): Phase
    requires plan.PlanOrders?
  {
    var (v', r) := OpenPair(t.venue, plan.eth, plan.btc, cfg.execution.maxAttempts);
    var t' := t.(venue := v');
    match r
    case Err(error) =>
      if PostOnlyWouldTake(error) then Stop(t'.(events := t.events + [EntryCancelled]), None)
      else Stop(t', Some(ExecutionFailed(error)))
    case Ok(PairFilled(fills)) => EnterFilled(t', bar, signal.direction, fills)
    case Ok(PairResting(ethOid, btcOid)) => EnterResting(cfg, t', bar, signal.direction, plan, ethOid, btcOid)
  }

  function EnterIfSignalled(cfg: Config, t: Turn, bar: BarInput, output: SignalOutput): Phase {
    if output.entry.None? || output.vol.eth.None? || output.vol.btc.None? then Continue(t)
    else
      var plan := EntryPlan(cfg, bar, output.entry.value, output.vol.eth.value, output.vol.btc.value);
      match plan
      case PlanFails(error) => Stop(t, Some(error))
      case PlanSkips => Stop(t, None)
      case PlanOrders(_, _) => SubmitEntry(cfg, t, bar, output.entry.value, plan)
  }

  // ---- exit ------------------------------------------------------------------------------

  function ExitOrder(cfg: Config, symbol: Symbol, qty: real, price: real): OrderRequest {
    var side, orderType := CloseForQty(qty), ExitOrderType(cfg.execution);
    OrderRequest(symbol, side, Abs(qty), orderType, Some(LimitPrice(cfg.execution, orderType, side, price)), true)
  }

  function ExitModelPnl(p: PositionSnapshot, bar: BarInput, fills: PairFill): real {
    var pnl := PositionPnl(p, FillPrice(fills.eth, bar.eth), FillPrice(fills.btc, bar.btc));
    if bar.fundingEth.Some? && bar.fundingBtc.Some? then
      var interval := if bar.fundingInterval.Some? && bar.fundingInterval.value > 0
                      then bar.fundingInterval.value else 8;
      pnl - FundingCost(p.direction, p.eth.notional, p.btc.notional, bar.fundingEth.value, bar.fundingBtc.value,
                        interval, HoursHeld(p, bar.time))
    else pnl
  }

  function ExitLog(p: PositionSnapshot, time: int, reason: ExitReason, a: FillAccounting, cumulative: real): TradeLog {
    TradeLog(time, ExitTrade(reason), p.direction, p.eth.qty, p.btc.qty, a.ethPrice, a.btcPrice, p.entryTime,
             a.realizedPnl, cumulative)
  }

  function ExitClosed(cfg: Config, t: Turn, bar: BarInput, p: PositionSnapshot, reason: ExitReason, fills: PairFill): Phase {
    ExitBooked(cfg, t, bar.time, p, reason, PairAccounting(bar.exitFills, fills, bar, ExitModelPnl(p, bar, fills)))
  }

  /** A filled close with its accounting: the PnL, the log, the transition. */
  function ExitBooked(cfg: Config, t: Turn, time: int, p: PositionSnapshot, reason: ExitReason, a: FillAccounting): Phase {
    var e := AddRealizedPnl(t.engine, a.realizedPnl);
    var logs := t.logs + [ExitLog(p, time, reason, a, e.cumulative)];
    match Exited(e.machine, cfg.risk.cooldownHours, reason, time)
    case InvalidTransition => Stop(t.(engine := e, logs := logs), Some(TransitionRefused))
    case Done(s) => Continue(t.(engine := e.(machine := s), events := t.events + [ExitMade(reason)], logs := logs))
  }

  function ExitIfSignalled(cfg: Config, t: Turn, bar: BarInput, output: SignalOutput): Phase {
    var s := t.engine.machine;
    if output.exit.None? || s.position.None? then Continue(t)
    else
      var p := s.position.value;
      var (v', r) := ClosePair(t.venue, ExitOrder(cfg, EthPerp, p.eth.qty, bar.eth),
                               ExitOrder(cfg, BtcPerp, p.btc.qty, bar.btc), cfg.execution.maxAttempts);
      match r
      case Err(error) => Stop(t.(venue := v'), Some(ExecutionFailed(error)))
      case Ok(fills) => ExitClosed(cfg, t.(venue := v'), bar, p, output.exit.value.reason, fills)
  }

  // ---- the whole bar -----------------------------------------------------------------------

  function TickOf(e: EngineState, bar: BarInput): PriceTick {
    PriceTick(bar.time, bar.eth, bar.btc, e.machine.status, e.machine.position)
  }

  /** The signals of the bar, then entry, then exit. */
  function TradeSignals(m: Maths, cfg: Config, t: Turn, bar: BarInput): Phase
    requires cfg.IndicatorsValid()
  {
    var (signals, output) := PipelineStep(m, cfg, t.engine.signals, TickOf(t.engine, bar));
    var t' := t.(engine := t.engine.(signals := signals));
    match output
    case None => Stop(t', Some(IndicatorFailed))
    case Some(o) =>
      match EnterIfSignalled(cfg, t', bar, o)
      case Stop(t'', error) => Stop(t'', error)
      case Continue(t'') => ExitIfSignalled(cfg, t'', bar, o)
  }

  /** Everything before the signals: expiry, release of the cooldown and repair. */
  function Prepare(cfg: Config, e: EngineState, v: Venue, bar: BarInput): Phase {
    match ExpirePending(cfg, TakePending(e, v), bar.time)
    case Stop(t, error) => Stop(t, error)
    case Continue(t) =>
      RepairLocal(cfg, t.(engine := t.engine.(machine := Updated(t.engine.machine, bar.time))), bar)
  }

  function BarPhases(m: Maths, cfg: Config, e: EngineState, v: Venue, bar: BarInput): Phase
    requires cfg.IndicatorsValid()
  {
    match Prepare(cfg, e, v, bar)
    case Stop(t, error) => Stop(t, error)
    case Continue(t) => TradeSignals(m, cfg, t, bar)
  }

  function ResultOf(p: Phase): BarResult {
    match p
    case Continue(t) => Processed(t.events, t.logs)
    case Stop(t, None) => Processed(t.events, t.logs)
    case Stop(_, Some(error)) => Failed(error)
  }

  function ProcessBar(m: Maths, cfg: Config, e: EngineState, v: Venue, bar: BarInput)
    : (EngineState, Venue, BarResult)
    requires cfg.IndicatorsValid()
  {
    var p := BarPhases(m, cfg, e, v, bar);
    (p.turn.engine, p.turn.venue, ResultOf(p))
  }

  // ---- reconciliation ------------------------------------------------------------------------

  function ExposureDirection(x: PairExposure): Option<TradeDirection> {
    if x.EthQty() > 0.0 || x.BtcQty() < 0.0 then Some(LongEthShortBtc)
    else if x.EthQty() < 0.0 || x.BtcQty() > 0.0 then Some(ShortEthLongBtc)
    else None
  }

  function ExposureLeg(p: Option<ExchangePosition>): PositionLeg {
    match p
    case None => PositionLeg(0.0, 0.0, 0.0)
    case Some(x) => PositionLeg(x.qty, x.entryPrice, x.notional)
  }

  function ExposureToPosition(x: PairExposure, time: int): Option<PositionSnapshot> {
    match ExposureDirection(x)
    case None => None
    case Some(direction) => Some(PositionSnapshot(direction, time, ExposureLeg(x.eth), ExposureLeg(x.btc)))
  }

  /** Both orders of a pending entry cancelled as far as the exchange allows. */
  function CancelBoth(v: Venue, pending: PendingEntrySnapshot, maxAttempts: nat): Venue {
    RetryCancel(RetryCancel(v, pending.ethOid, maxAttempts).0, pending.btcOid, maxAttempts).0
  }

  /** The exchange answer to a reconciliation: a snapshot of the exposure with bar prices, and what
      the fill lookup returns. */
  datatype Report = Report(exposure: PairExposure, time: int, eth: real, btc: real, fills: Fetched)

  datatype Reconciled = Reconciled(engine: EngineState, venue: Venue, error: Option<StrategyError>)

  function ReconcileResidual(cfg: Config, e: EngineState, v: Venue, x: Report): Reconciled {
    var s := e.machine;
    var v1 := if s.status == PendingEntry && s.pending.Some?
              then CancelBoth(v, s.pending.value, cfg.execution.maxAttempts) else v;
    match ExposureToPosition(x.exposure, x.time)
    case None => Reconciled(e, v1, Some(SnapshotMissing))
    case Some(p) =>
      var (v2, r) := RepairResidual(v1, p, cfg.execution.maxAttempts);
      match r
      case Err(error) => Reconciled(e, v2, Some(ExecutionFailed(error)))
      case Ok(fill) =>
        var (e', log) := RepairBooked(e, p, x.time, x.eth, x.btc, fill, x.fills);
        Reconciled(e'.(machine := ForcedFlat(e'.machine), events := e.events + [ResidualRepaired],
                       logs := e.logs + [log]), v2, None)
  }

  function ReconcilePending(e: EngineState, v: Venue, x: Report): Reconciled {
    match ExposureToPosition(x.exposure, x.time)
    case None => Reconciled(e, v, Some(SnapshotMissing))
    case Some(p) =>
      if e.machine.pending.None? then Reconciled(e, v, Some(SnapshotMissing))
      else
        var pending := e.machine.pending.value;
        var a := AccountFor(x.fills, {pending.ethOid, pending.btcOid}, {EthPerp, BtcPerp},
                            p.eth.avgPrice, p.btc.avgPrice, 0.0);
        var p' := p.(eth := p.eth.(avgPrice := a.ethPrice), btc := p.btc.(avgPrice := a.btcPrice));
        var e' := AddRealizedPnl(e, a.realizedPnl);
        match Confirmed(e'.machine, p')
        case InvalidTransition => Reconciled(e', v, Some(TransitionRefused))
        case Done(s) =>
          Reconciled(e'.(machine := s, events := e.events + [EntryMade],
                         logs := e.logs + [EntryLog(p', x.time, a, e'.cumulative)]), v, None)
  }

  function Reconcile(cfg: Config, e: EngineState, v: Venue, x: Report): Reconciled {
    if x.exposure.IsFlat() then
      if e.machine.position.Some? then Reconciled(e.(machine := ForcedFlat(e.machine)), v, None)
      else Reconciled(e, v, None)
    else if x.exposure.HasResidual() then ReconcileResidual(cfg, e, v, x)
    else
      match e.machine.status
      case PendingEntry => ReconcilePending(e, v, x)
      case InPosition =>
        if e.machine.position.None? then Reconciled(e, v, Some(SnapshotMissing))
        else
          var p := e.machine.position.value;
          if x.exposure.EthQty() == p.eth.qty && x.exposure.BtcQty() == p.btc.qty
          then Reconciled(e, v, None) else Reconciled(e, v, Some(BookMismatch))
      case _ => Reconciled(e, v, Some(BookMismatch))
  }

  // ---- warm-up and restart ---------------------------------------------------------------------

  /** A record in its place by time, after those of the same time. */
  function InsertByTime(records: seq<PriceRecord>, r: PriceRecord): (sorted: seq<PriceRecord>)
    ensures |sorted| == |records| + 1
  {
    if |records| == 0 || r.time < records[0].time then [r] + records
    else [records[0]] + InsertByTime(records[1..], r)
  }

  function SortByTime(records: seq<PriceRecord>): (sorted: seq<PriceRecord>)
    ensures |sorted| == |records|
  {
    if |records| == 0 then []
    else InsertByTime(SortByTime(records[..|records| - 1]), records[|records| - 1])
  }

  /** One record replayed; a missing or unusable price ends the warm-up after the cooldown update. */
  function WarmUpStep(m: Maths, cfg: Config, e: EngineState, r: PriceRecord): (EngineState, bool)
    requires cfg.IndicatorsValid()
  {
    var e1 := e.(machine := Updated(e.machine, r.time));
    match (r.eth.Selected(cfg.priceField), r.btc.Selected(cfg.priceField))
    case (Some(eth), Some(btc)) =>
      var (signals, output) :=
        PipelineStep(m, cfg, e1.signals, PriceTick(r.time, eth, btc, e1.machine.status, e1.machine.position));
      (e1.(signals := signals), output.Some?)
    case _ => (e1, false)
  }

  /** Replayed records advance the cooldown and the signals, and trade nothing. */
  function ReplayRecords(m: Maths, cfg: Config, e: EngineState, records: seq<PriceRecord>): (EngineState, bool)
    requires cfg.IndicatorsValid()
    decreases |records|
  {
    if |records| == 0 then (e, true)
    else
      var (e', ok) := WarmUpStep(m, cfg, e, records[0]);
      if ok then ReplayRecords(m, cfg, e', records[1..]) else (e', false)
  }

  function WarmUp(m: Maths, cfg: Config, e: EngineState, records: seq<PriceRecord>): (EngineState, bool)
    requires cfg.IndicatorsValid()
  {
    ReplayRecords(m, cfg, e, SortByTime(records))
  }

  /** The engine with a loaded state, if the state is accepted. */
  function Applied(e: EngineState, s: StrategyState): Option<EngineState> {
    if Hydratable(s) then Some(e.(machine := s, cumulative := s.cumulative)) else None
  }

  /** One run of the loop: reconcile when the exposure could be fetched, then process the bar. */
  datatype CycleResult = CycleResult(engine: EngineState, venue: Venue, result: BarResult)

  function RunCycle(m: Maths, cfg: Config, e: EngineState, v: Venue, report: Option<Report>, bar: BarInput): CycleResult
    requires cfg.IndicatorsValid()
  {
    var r := if report.Some? then Reconcile(cfg, e, v, report.value) else Reconciled(e, v, None);
    if r.error.Some? then CycleResult(r.engine, r.venue, Failed(r.error.value))
    else
      var (e', v', result) := ProcessBar(m, cfg, r.engine, r.venue, bar);
      CycleResult(e', v', result)
  }
}
