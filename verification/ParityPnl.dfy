/** The live engine on paper earns what the backtest says, up to the rounding of its orders. */
module ParityPnl {
  import opened Numbers
  import opened Trading
  import opened State
  import opened Indicators
  import opened Pipeline
  import opened Pricing
  import opened Execution
  import opened Sizing
  import opened Strategy
  import opened EngineInvariants
  import opened Accounts
  import opened Trades
  import opened Backtest
  import opened BacktestAccounting
  import opened BacktestCosts
  import opened Parity

  // ---- one trade ----------------------------------------------------------------------------------

  /** What the rounding of an order loses of a leg's notional, as a quantity. */
  function Gap(leg: PositionLeg, side: OrderSide): real
    requires leg.avgPrice > 0.0
  {
    Signed(side, leg.notional / leg.avgPrice) - leg.qty
  }

  /** At most this much the rounding of both orders changes the gain of a trade. */
  function GapWorth(p: PositionSnapshot, exitEth: real, exitBtc: real): real
    requires p.eth.avgPrice > 0.0 && p.btc.avgPrice > 0.0
  {
    Notional(Abs(Gap(p.eth, EntrySide(p.direction, EthPerp))), Abs(exitEth - p.eth.avgPrice))
    + Notional(Abs(Gap(p.btc, EntrySide(p.direction, BtcPerp))), Abs(exitBtc - p.btc.avgPrice))
  }

  lemma AbsProduct(a: real, b: real)
    ensures Abs(Notional(a, b)) == Notional(Abs(a), Abs(b))
  {
  }

  lemma LegGap(leg: PositionLeg, side: OrderSide, exit: real)
    requires leg.avgPrice > 0.0
    ensures var gain := GainOf(leg.notional, leg.avgPrice, exit);
            (if side == Buy then gain else -gain) - Gain(leg, exit) == Notional(Gap(leg, side), exit - leg.avgPrice)
  {
    var q, move := leg.notional / leg.avgPrice, exit - leg.avgPrice;
    assert (-q) * move == -(q * move);
    assert (Signed(side, q) - leg.qty) * move == Signed(side, q) * move - leg.qty * move;
  }

  /** An open trade that mirrors its position. */
  predicate EnteredAtPrices(o: OpenTrade) {
    o.entryEth == o.position.eth.avgPrice > 0.0 && o.entryBtc == o.position.btc.avgPrice > 0.0
  }

  lemma TradeGap(o: OpenTrade, exitEth: real, exitBtc: real)
    requires EnteredAtPrices(o)
    ensures Abs(LegGains(o, exitEth, exitBtc) - (Gain(o.position.eth, exitEth) + Gain(o.position.btc, exitBtc)))
            <= GapWorth(o.position, exitEth, exitBtc)
  {
    var p := o.position;
    LegGap(p.eth, EntrySide(p.direction, EthPerp), exitEth);
    LegGap(p.btc, EntrySide(p.direction, BtcPerp), exitBtc);
    AbsProduct(Gap(p.eth, EntrySide(p.direction, EthPerp)), exitEth - p.eth.avgPrice);
    AbsProduct(Gap(p.btc, EntrySide(p.direction, BtcPerp)), exitBtc - p.btc.avgPrice);
  }

  /** In floor mode without adjustment the gap of a leg is less than a step. */
  lemma GapBelowStep(c: InstrumentConstraints, policy: MinSizePolicy, leg: PositionLeg, bought: bool)
    requires leg.avgPrice > 0.0 && LegOpened(c, policy, leg, leg.avgPrice, bought)
    requires StepRepresentable(c) && c.roundingMode == FloorMode && Unadjusted(c, leg.notional, leg.avgPrice)
    ensures Abs(Gap(leg, if bought then Buy else Sell)) < c.stepSize
  {
    FloorLosesLessThanStep(c, policy, leg.notional, leg.avgPrice);
  }

  // ---- one bar ------------------------------------------------------------------------------------

  /** The gain of the trade that a backtest bar closes; nothing if it closes none. */
  function GainOfBar(s: BtState, s': BtState, bar: BacktestBar): real {
    if s.open.Some? && s'.open.None? && EnteredAtPrices(s.open.value) then LegGains(s.open.value, bar.eth, bar.btc) else 0.0
  }

  function GapOfBar(s: BtState, s': BtState, bar: BacktestBar): real {
    if s.open.Some? && s'.open.None? && EnteredAtPrices(s.open.value)
    then GapWorth(s.open.value.position, bar.eth, bar.btc) else 0.0
  }

  lemma SameGain(p: PositionSnapshot, q: PositionSnapshot, exitEth: real, exitBtc: real)
    requires SamePosition(Some(p), Some(q))
    ensures Gain(p.eth, exitEth) + Gain(p.btc, exitBtc) == Gain(q.eth, exitEth) + Gain(q.btc, exitBtc)
  {
  }

  lemma PaperCloses(cfg: Config, v: Venue, p: PositionSnapshot, bar: BacktestBar) returns (fills: PairFill)
    requires ParityConfig(cfg) && v.paper && bar.eth > 0.0 && bar.btc > 0.0
    ensures ClosePair(v, ExitOrder(cfg, EthPerp, p.eth.qty, bar.eth), ExitOrder(cfg, BtcPerp, p.btc.qty, bar.btc),
                      cfg.execution.maxAttempts).1 == Ok(fills)
    ensures fills.eth.avgPrice.None? && fills.btc.avgPrice.None?
  {
    var eth, btc := ExitOrder(cfg, EthPerp, p.eth.qty, bar.eth), ExitOrder(cfg, BtcPerp, p.btc.qty, bar.btc);
    if eth.orderType == Market {
      MarketPricePositive(cfg.execution, eth.side, bar.eth);
      MarketPricePositive(cfg.execution, btc.side, bar.btc);
    }
    PaperClose(v, eth, btc, cfg.execution.maxAttempts);
    fills := PairFill(OrderFill(eth.qty, None, None), OrderFill(btc.qty, None, None));
  }

  lemma GotBarPrice(leg: PositionLeg, fill: OrderFill, price: real)
    requires fill.avgPrice.None?
    ensures Notional(leg.qty, PriceGot(fill, price) - leg.avgPrice) == Gain(leg, price)
  {
  }

  lemma ClosedAtBarPrices(m: Maths, cfg: Config, e: EngineState, v: Venue, bar: BacktestBar, p: PositionSnapshot, fills: PairFill)
    requires cfg.IndicatorsValid() && EngineSound(cfg, e) && Fits(cfg, v) && e.machine.position == Some(p)
    requires ProcessBar(m, cfg, e, v, LiveBar(bar)).0.machine.position.None?
    requires ClosePair(v, ExitOrder(cfg, EthPerp, p.eth.qty, bar.eth), ExitOrder(cfg, BtcPerp, p.btc.qty, bar.btc),
                       cfg.execution.maxAttempts).1 == Ok(fills)
    requires fills.eth.avgPrice.None? && fills.btc.avgPrice.None?
    ensures ProcessBar(m, cfg, e, v, LiveBar(bar)).0.cumulative - e.cumulative == Gain(p.eth, bar.eth) + Gain(p.btc, bar.btc)
  {
    PlainExitGains(m, cfg, e, v, LiveBar(bar), fills);
    GotBarPrice(p.eth, fills.eth, bar.eth);
    GotBarPrice(p.btc, fills.btc, bar.btc);
  }

  /** On paper a position is left for what its legs gained up to the bar's prices. */
  lemma PaperExitGains(m: Maths, cfg: Config, e: EngineState, v: Venue, bar: BacktestBar, p: PositionSnapshot)
    requires ParityConfig(cfg) && EngineSound(cfg, e) && v.paper && v.Sound() && bar.eth > 0.0 && bar.btc > 0.0
    requires e.machine.position == Some(p) && ProcessBar(m, cfg, e, v, LiveBar(bar)).0.machine.position.None?
    ensures ProcessBar(m, cfg, e, v, LiveBar(bar)).0.cumulative - e.cumulative == Gain(p.eth, bar.eth) + Gain(p.btc, bar.btc)
  {
    var fills := PaperCloses(cfg, v, p, bar);
    ClosedAtBarPrices(m, cfg, e, v, bar, p, fills);
  }

  /** On paper an entry books nothing. */
  lemma PaperEntryFree(m: Maths, cfg: Config, e: EngineState, v: Venue, bar: BacktestBar)
    requires cfg.IndicatorsValid() && EngineSound(cfg, e) && Fits(cfg, v) && e.machine.position.None?
    requires ProcessBar(m, cfg, e, v, LiveBar(bar)).0.machine.position.Some?
    ensures ProcessBar(m, cfg, e, v, LiveBar(bar)).0.cumulative == e.cumulative
  {
    EntryIsAsSignalled(m, cfg, e, v, LiveBar(bar));
    PrepareKeepsPnl(cfg, e, v, LiveBar(bar));
  }

  /** A bar on which both agree changes the live PnL by the gain of the trade the backtest closes, up to
      the gap of its orders. */
  lemma BarEarnsAlike(m: Maths, cfg: Config, e: EngineState, v: Venue, s: BtState, bar: BacktestBar)
    requires ParityConfig(cfg) && v.paper && v.Sound() && Agree(cfg, e, s) && !Releases(e.machine, bar.time)
    requires Mirrors(s) && Pipeline.Sound(cfg, s.signals) && BtStep(m, cfg, s, bar).BtOk?
    ensures var e', s' := ProcessBar(m, cfg, e, v, LiveBar(bar)).0, BtStep(m, cfg, s, bar).state;
            Abs(e'.cumulative - e.cumulative - GainOfBar(s, s', bar)) <= GapOfBar(s, s', bar)
  {
    BarAgree(m, cfg, e, v, s, bar);
    StepBarBooks(m, cfg, s, bar);
    StepKeepsSound(m, cfg, s.signals, BtTick(s, bar));
    var e', s' := ProcessBar(m, cfg, e, v, LiveBar(bar)).0, BtStep(m, cfg, s, bar).state;
    if e.machine.position.Some? == e'.machine.position.Some? {
      NoTradeNoPnl(m, cfg, e, v, LiveBar(bar));
    } else if e.machine.position.None? {
      PaperEntryFree(m, cfg, e, v, bar);
    } else {
      PaperExitGains(m, cfg, e, v, bar, e.machine.position.value);
      SameGain(e.machine.position.value, s.open.value.position, bar.eth, bar.btc);
      TradeGap(s.open.value, bar.eth, bar.btc);
    }
  }

  // ---- runs ---------------------------------------------------------------------------------------

  /** The gains of all trades that a backtest closes, before costs. */
  function GainsOfRun(m: Maths, cfg: Config, s: BtState, bars: seq<BacktestBar>): real
    requires cfg.IndicatorsValid()
  {
    if |bars| == 0 then 0.0
    else
      var init, last := bars[..|bars| - 1], bars[|bars| - 1];
      var before, after := BtRun(m, cfg, s, init), BtRun(m, cfg, s, bars);
      GainsOfRun(m, cfg, s, init) + if after.BtOk? then GainOfBar(before.state, after.state, last) else 0.0
  }

  function GapsOfRun(m: Maths, cfg: Config, s: BtState, bars: seq<BacktestBar>): real
    requires cfg.IndicatorsValid()
  {
    if |bars| == 0 then 0.0
    else
      var init, last := bars[..|bars| - 1], bars[|bars| - 1];
      var before, after := BtRun(m, cfg, s, init), BtRun(m, cfg, s, bars);
      GapsOfRun(m, cfg, s, init) + if after.BtOk? then GapOfBar(before.state, after.state, last) else 0.0
  }

  lemma GainsStep(m: Maths, cfg: Config, s: BtState, bars: seq<BacktestBar>, before: BtState, after: BtState)
    requires cfg.IndicatorsValid() && |bars| > 0 && BtRun(m, cfg, s, bars[..|bars| - 1]) == BtOk(before)
    requires BtStep(m, cfg, before, bars[|bars| - 1]) == BtOk(after)
    ensures GainsOfRun(m, cfg, s, bars) == GainsOfRun(m, cfg, s, bars[..|bars| - 1]) + GainOfBar(before, after, bars[|bars| - 1])
    ensures GapsOfRun(m, cfg, s, bars) == GapsOfRun(m, cfg, s, bars[..|bars| - 1]) + GapOfBar(before, after, bars[|bars| - 1])
  {
  }

  predicate Within(x: real, y: real, gap: real) {
    Abs(x - y) <= gap
  }

  lemma AddUp(x: real, x': real, gains: real, gaps: real, gain: real, gap: real)
    requires Within(x, gains, gaps) && Within(x' - x, gain, gap)
    ensures Within(x', gains + gain, gaps + gap)
  {
  }

  /** One more bar on which both agree. */
  lemma EarnsOneMore(m: Maths, cfg: Config, initial: real, bars: seq<BacktestBar>, e: EngineState, v: Venue,
                     before: BtState, after: BtState, gains: real, gaps: real)
    requires ParityConfig(cfg) && v.paper && v.Sound() && |bars| > 0
    requires BtRun(m, cfg, Started(initial), bars[..|bars| - 1]) == BtOk(before)
    requires BtStep(m, cfg, before, bars[|bars| - 1]) == BtOk(after)
    requires Agree(cfg, e, before) && !Releases(e.machine, bars[|bars| - 1].time)
    requires gains == GainsOfRun(m, cfg, Started(initial), bars[..|bars| - 1])
    requires gaps == GapsOfRun(m, cfg, Started(initial), bars[..|bars| - 1]) && Within(e.cumulative, gains, gaps)
    ensures Within(ProcessBar(m, cfg, e, v, LiveBar(bars[|bars| - 1])).0.cumulative,
                   GainsOfRun(m, cfg, Started(initial), bars), GapsOfRun(m, cfg, Started(initial), bars))
  {
    var last := bars[|bars| - 1];
    RunBooks(m, cfg, initial, bars[..|bars| - 1]);
    BarEarnsAlike(m, cfg, e, v, before, last);
    GainsStep(m, cfg, Started(initial), bars, before, after);
    AddUp(e.cumulative, ProcessBar(m, cfg, e, v, LiveBar(last)).0.cumulative, gains, gaps,
          GainOfBar(before, after, last), GapOfBar(before, after, last));
  }

  lemma LastLiveBar(m: Maths, cfg: Config, v: Venue, bars: seq<BacktestBar>)
    requires cfg.IndicatorsValid() && |bars| > 0 && RunLive(m, cfg, v, bars).LiveOk?
    ensures var live := RunLive(m, cfg, v, bars[..|bars| - 1]);
            live.LiveOk? && RunLive(m, cfg, v, bars).engine
                            == ProcessBar(m, cfg, live.engine, live.venue, LiveBar(bars[|bars| - 1])).0
  {
  }

  lemma LastBacktestBar(m: Maths, cfg: Config, initial: real, bars: seq<BacktestBar>)
    requires cfg.IndicatorsValid() && |bars| > 0 && BtRun(m, cfg, Started(initial), bars).BtOk?
    ensures var before := BtRun(m, cfg, Started(initial), bars[..|bars| - 1]);
            before.BtOk? && BtStep(m, cfg, before.state, bars[|bars| - 1]) == BtRun(m, cfg, Started(initial), bars)
  {
  }

  /** Both run through and agree. */
  lemma BothRun(m: Maths, cfg: Config, v: Venue, initial: real, bars: seq<BacktestBar>)
    requires ParityConfig(cfg) && v.paper && v.Sound() && NoRelease(m, cfg, v, bars) && RunLive(m, cfg, v, bars).LiveOk?
    ensures var live, backtest := RunLive(m, cfg, v, bars), BtRun(m, cfg, Started(initial), bars);
            backtest.BtOk? && live.venue.paper && live.venue.Sound() && Agree(cfg, live.engine, backtest.state)
  {
    RunsAgree(m, cfg, v, initial, bars);
  }

  lemma NotReleasedBefore(m: Maths, cfg: Config, v: Venue, bars: seq<BacktestBar>)
    requires cfg.IndicatorsValid() && |bars| > 0 && NoRelease(m, cfg, v, bars)
    requires RunLive(m, cfg, v, bars[..|bars| - 1]).LiveOk?
    ensures !Releases(RunLive(m, cfg, v, bars[..|bars| - 1]).engine.machine, bars[|bars| - 1].time)
  {
  }

  /** Before the first release of a cooldown the live engine on paper earns the gains of the backtest's
      trades, up to what the rounding of the orders makes of each price move. */
  lemma {:induction false} PaperEarnsGains(m: Maths, cfg: Config, v: Venue, initial: real, bars: seq<BacktestBar>)
    requires ParityConfig(cfg) && v.paper && v.Sound() && NoRelease(m, cfg, v, bars) && RunLive(m, cfg, v, bars).LiveOk?
    ensures Within(RunLive(m, cfg, v, bars).engine.cumulative,
                   GainsOfRun(m, cfg, Started(initial), bars), GapsOfRun(m, cfg, Started(initial), bars))
  {
    if |bars| > 0 {
      var init := bars[..|bars| - 1];
      NoReleaseBefore(m, cfg, v, bars);
      LastLiveBar(m, cfg, v, bars);
      NotReleasedBefore(m, cfg, v, bars);
      BothRun(m, cfg, v, initial, init);
      BothRun(m, cfg, v, initial, bars);
      LastBacktestBar(m, cfg, initial, bars);
      PaperEarnsGains(m, cfg, v, initial, init);
      var live, s := RunLive(m, cfg, v, init), Started(initial);
      EarnsOneMore(m, cfg, initial, bars, live.engine, live.venue, BtRun(m, cfg, s, init).state,
                   BtRun(m, cfg, s, bars).state, GainsOfRun(m, cfg, s, init), GapsOfRun(m, cfg, s, init));
    }
  }

  predicate NoCosts(cfg: BacktestConfig) {
    !cfg.includeFees && !cfg.includeSlippage && !cfg.includeFunding
  }

  /** The open trade, if any, is of a notional that is no debt. */
  predicate NoDebt(s: BtState) {
    s.open.Some? ==> s.open.value.position.eth.notional + s.open.value.position.btc.notional >= 0.0
  }

  lemma CostsAgainst(cfg: BacktestConfig, o: OpenTrade, bar: BacktestBar, costs: real)
    requires CostsOf(cfg, o, bar, costs)
    ensures NoCosts(cfg) ==> costs == 0.0
    ensures o.position.eth.notional + o.position.btc.notional >= 0.0 ==> costs >= 0.0
  {
    if o.position.eth.notional + o.position.btc.notional >= 0.0 {
      BpsNotNegative(o, cfg.feeBps);
      BpsNotNegative(o, cfg.slippageBps);
    }
  }

  lemma BarEquity(m: Maths, cfg: Config, s: BtState, bar: BacktestBar)
    requires cfg.IndicatorsValid() && Mirrors(s) && Pipeline.Sound(cfg, s.signals) && BtStep(m, cfg, s, bar).BtOk?
    ensures var s' := BtStep(m, cfg, s, bar).state;
            && (NoCosts(cfg.backtest) ==> s'.equity == s.equity + GainOfBar(s, s', bar))
            && (NoDebt(s) ==> s'.equity <= s.equity + GainOfBar(s, s', bar))
            && (FixedCapital(cfg) && NoDebt(s) ==> NoDebt(s'))
  {
    StepBarBooks(m, cfg, s, bar);
    var s' := BtStep(m, cfg, s, bar).state;
    if s.open.Some? && s'.open.None? {
      var o, t := s.open.value, s'.trades[|s.trades|];
      var costs :| CostsOf(cfg.backtest, o, bar, costs) && t.pnl == LegGains(o, bar.eth, bar.btc) - costs;
      CostsAgainst(cfg.backtest, o, bar, costs);
    }
  }

  /** Without costs the equity of a backtest is what it started from and the gains of its trades, and with
      costs it is no more than that. */
  lemma {:induction false} EquityIsGains(m: Maths, cfg: Config, initial: real, bars: seq<BacktestBar>)
    requires cfg.IndicatorsValid() && FixedCapital(cfg)
    ensures var r := BtRun(m, cfg, Started(initial), bars);
            var gains := GainsOfRun(m, cfg, Started(initial), bars);
            r.BtOk? ==> (NoCosts(cfg.backtest) ==> r.state.equity == initial + gains)
                        && r.state.equity <= initial + gains && NoDebt(r.state)
  {
    if |bars| > 0 && BtRun(m, cfg, Started(initial), bars).BtOk? {
      var init := bars[..|bars| - 1];
      EquityIsGains(m, cfg, initial, init);
      RunBooks(m, cfg, initial, init);
      BarEquity(m, cfg, BtRun(m, cfg, Started(initial), init).state, bars[|bars| - 1]);
    }
  }

  /** Up to the rounding of its orders the live engine on paper earns at least what the backtest says,
      and without costs exactly that. */
  lemma PaperEarnsBacktest(m: Maths, cfg: Config, v: Venue, initial: real, bars: seq<BacktestBar>)
    requires ParityConfig(cfg) && FixedCapital(cfg) && v.paper && v.Sound() && NoRelease(m, cfg, v, bars)
    requires RunLive(m, cfg, v, bars).LiveOk?
    ensures var live, backtest := RunLive(m, cfg, v, bars).engine.cumulative, BtRun(m, cfg, Started(initial), bars);
            var gaps := GapsOfRun(m, cfg, Started(initial), bars);
            && backtest.BtOk? && backtest.state.equity - initial <= live + gaps
            && (NoCosts(cfg.backtest) ==> Within(live, backtest.state.equity - initial, gaps))
  {
    PaperEarnsGains(m, cfg, v, initial, bars);
    BothRun(m, cfg, v, initial, bars);
    GainsToEquity(m, cfg, initial, bars, RunLive(m, cfg, v, bars).engine.cumulative);
  }

  lemma GainsToEquity(m: Maths, cfg: Config, initial: real, bars: seq<BacktestBar>, live: real)
    requires cfg.IndicatorsValid() && FixedCapital(cfg) && BtRun(m, cfg, Started(initial), bars).BtOk?
    requires Within(live, GainsOfRun(m, cfg, Started(initial), bars), GapsOfRun(m, cfg, Started(initial), bars))
    ensures var equity, gaps := BtRun(m, cfg, Started(initial), bars).state.equity, GapsOfRun(m, cfg, Started(initial), bars);
            && equity - initial <= live + gaps
            && (NoCosts(cfg.backtest) ==> Within(live, equity - initial, gaps))
  {
    EquityIsGains(m, cfg, initial, bars);
  }
}
