/** What the trades of a backtest gain and what they cost. */
module BacktestCosts {
  import opened Numbers
  import opened Trading
  import opened State
  import opened Indicators
  import opened Pipeline
  import opened Sizing
  import opened Strategy
  import opened Accounts
  import opened Backtest
  import opened BacktestAccounting

  // ---- the open trade -----------------------------------------------------------------------------

  /** The quantity of a leg: its notional converted at the bar price, bought or sold. */
  predicate LegOpened(c: InstrumentConstraints, policy: MinSizePolicy, leg: PositionLeg, price: real, bought: bool) {
    var sized := ConvertNotional(c, policy, leg.notional, price);
    && sized.Sized? && leg.avgPrice == price && leg.qty == if bought then sized.order.qty else -sized.order.qty
  }

  /** A trade opened at a bar: at its time and prices, a leg of each coin. */
  predicate OpenedAt(cfg: Config, o: OpenTrade, bar: BacktestBar) {
    var p := o.position;
    && o.entryEth == bar.eth > 0.0 && o.entryBtc == bar.btc > 0.0 && p.entryTime == bar.time
    && LegOpened(cfg.eth, cfg.position.minSizePolicy, p.eth, bar.eth, p.direction == LongEthShortBtc)
    && LegOpened(cfg.btc, cfg.position.minSizePolicy, p.btc, bar.btc, p.direction == ShortEthLongBtc)
  }

  /** In the direction of the signal, and with notionals that share the capital by equal risk. */
  predicate OpenedFor(cfg: Config, equity: real, o: OpenTrade, output: SignalOutput) {
    var eth, btc := o.position.eth.notional, o.position.btc.notional;
    && output.entry.Some? && o.position.direction == output.entry.value.direction
    && output.vol.eth.Some? && output.vol.btc.Some?
    && (cfg.position.cMode == FixedNotional ==> Some(eth + btc) == cfg.position.cValue)
    && (cfg.position.cMode == EquityRatio ==>
          cfg.position.equityRatioK.Some? && eth + btc == Notional(equity, cfg.position.equityRatioK.value))
    && SharesRisk(eth + btc, eth, btc, output.vol.eth.value, output.vol.btc.value)
  }

  lemma EntryOpens(cfg: Config, s: BtState, bar: BacktestBar, output: SignalOutput)
    requires bar.eth > 0.0 && bar.btc > 0.0
    ensures var r := BtEnter(cfg, s, bar, output);
            r.BtOk? ==>
              && r.state.equity == s.equity && r.state.trades == s.trades
              && (r.state.open == s.open
                  || (r.state.open.Some? && OpenedAt(cfg, r.state.open.value, bar)
                      && OpenedFor(cfg, s.equity, r.state.open.value, output)))
  {
    if output.entry.Some? && output.vol.eth.Some? && output.vol.btc.Some? && ComputeCapital(cfg.position, s.equity).Some? {
      RiskIsShared(ComputeCapital(cfg.position, s.equity).value, output.vol.eth.value, output.vol.btc.value);
    }
  }

  // ---- the closed trade ---------------------------------------------------------------------------

  /** The gain of a notional held from one price to another: the quantity it buys, times the move. */
  function GainOf(worth: real, entry: real, exit: real): real
    requires entry > 0.0
  {
    Notional(worth / entry, exit - entry)
  }

  /** A rate of the two notionals of a trade, in basis points. */
  function BpsOf(o: OpenTrade, bps: nat): real {
    Notional(o.position.eth.notional + o.position.btc.notional, bps as real / 10000.0)
  }

  /** The funding estimate: eight-hourly rates for the intervals begun, never received. */
  ghost predicate FundingOf(o: OpenTrade, bar: BacktestBar, due: real) {
    if bar.fundingEth.Some? && bar.fundingBtc.Some? then
      exists intervals: nat ::
        && Begun(intervals, 8, HoursHeld(o.position, bar.time))
        && due == MaxReal(Notional(intervals as real,
                                   PaidPerInterval(o.position.direction, o.position.eth.notional, o.position.btc.notional,
                                                   bar.fundingEth.value, bar.fundingBtc.value)), 0.0)
    else due == 0.0
  }

  /** The costs of a trade, each if it is included. */
  ghost predicate CostsOf(cfg: BacktestConfig, o: OpenTrade, bar: BacktestBar, costs: real) {
    exists due ::
      && FundingOf(o, bar, due)
      && costs == (if cfg.includeFees then BpsOf(o, cfg.feeBps) else 0.0)
                  + (if cfg.includeSlippage then BpsOf(o, cfg.slippageBps) else 0.0)
                  + (if cfg.includeFunding then due else 0.0)
  }

  /** What the legs of a trade gain: the bought one with its price, the sold one against it. */
  function LegGains(o: OpenTrade, exitEth: real, exitBtc: real): real
    requires o.entryEth > 0.0 && o.entryBtc > 0.0
  {
    var eth := GainOf(o.position.eth.notional, o.entryEth, exitEth);
    var btc := GainOf(o.position.btc.notional, o.entryBtc, exitBtc);
    if o.position.direction == LongEthShortBtc then eth - btc else btc - eth
  }

  lemma MoveIsGain(worth: real, entry: real, exit: real)
    requires entry > 0.0
    ensures MoveWorth(entry, exit, worth) == GainOf(worth, entry, exit)
  {
    var move := exit - entry;
    assert move / entry * worth == worth / entry * move;
  }

  lemma CostsAre(cfg: BacktestConfig, o: OpenTrade, bar: BacktestBar)
    ensures CostsOf(cfg, o, bar, TradeCosts(cfg, o, bar))
  {
    var due := 0.0;
    var p := o.position;
    if bar.fundingEth.Some? && bar.fundingBtc.Some? {
      var intervals := IntervalsBegun(8, HoursHeld(p, bar.time));
      FundingIsPaid(p.direction, p.eth.notional, p.btc.notional, bar.fundingEth.value, bar.fundingBtc.value, 8,
                    HoursHeld(p, bar.time), intervals);
      due := FundingCost(p.direction, p.eth.notional, p.btc.notional, bar.fundingEth.value, bar.fundingBtc.value, 8,
                         HoursHeld(p, bar.time));
    }
    assert FundingOf(o, bar, due);
  }

  /** The trade that a bar closes: what its legs gained, less its costs. */
  ghost predicate ClosedAs(cfg: Config, o: OpenTrade, bar: BacktestBar, t: Trade)
    requires o.entryEth > 0.0 && o.entryBtc > 0.0
  {
    && t.entryTime == o.position.entryTime && t.exitTime == bar.time
    && exists costs :: CostsOf(cfg.backtest, o, bar, costs) && t.pnl == LegGains(o, bar.eth, bar.btc) - costs
  }

  lemma ExitCloses(cfg: Config, s: BtState, bar: BacktestBar, output: SignalOutput)
    requires s.open.Some? ==> s.open.value.entryEth > 0.0 && s.open.value.entryBtc > 0.0
    ensures var r := BtClose(cfg, s, bar, output);
            r.BtOk? ==>
              || (r.state.open == s.open && r.state.trades == s.trades && r.state.equity == s.equity)
              || (s.open.Some? && r.state.open.None? && |r.state.trades| == |s.trades| + 1
                  && r.state.trades[..|s.trades|] == s.trades
                  && ClosedAs(cfg, s.open.value, bar, r.state.trades[|s.trades|])
                  && r.state.equity == s.equity + r.state.trades[|s.trades|].pnl)
  {
    if output.exit.Some? && s.open.Some? {
      var o := s.open.value;
      MoveIsGain(o.position.eth.notional, o.entryEth, bar.eth);
      MoveIsGain(o.position.btc.notional, o.entryBtc, bar.btc);
      CostsAre(cfg.backtest, o, bar);
      assert TradePnl(cfg.backtest, o, bar) == LegGains(o, bar.eth, bar.btc) - TradeCosts(cfg.backtest, o, bar);
    }
  }

  // ---- runs ---------------------------------------------------------------------------------------

  /** What a bar does to the books. */
  ghost predicate BarBooks(cfg: Config, s: BtState, bar: BacktestBar, output: Option<SignalOutput>, s': BtState)
    requires s.open.Some? ==> s.open.value.entryEth > 0.0 && s.open.value.entryBtc > 0.0
  {
    match (s.open, s'.open)
    case (None, Some(o)) =>
      && OpenedAt(cfg, o, bar) && output.Some? && OpenedFor(cfg, s.equity, o, output.value)
      && s'.trades == s.trades && s'.equity == s.equity
    case (Some(o), None) =>
      && |s'.trades| == |s.trades| + 1 && s'.trades[..|s.trades|] == s.trades
      && ClosedAs(cfg, o, bar, s'.trades[|s.trades|]) && s'.equity == s.equity + s'.trades[|s.trades|].pnl
    case (_, _) => s'.open == s.open && s'.trades == s.trades && s'.equity == s.equity
  }

  lemma StepBarBooks(m: Maths, cfg: Config, s: BtState, bar: BacktestBar)
    requires cfg.IndicatorsValid() && Mirrors(s) && Pipeline.Sound(cfg, s.signals)
    ensures var r := BtStep(m, cfg, s, bar); r.BtOk? ==> BarBooks(cfg, s, bar, PipelineStep(m, cfg, s.signals, BtTick(s, bar)).1, r.state)
  {
    var (signals, output) := PipelineStep(m, cfg, s.signals, BtTick(s, bar));
    StepKeepsSound(m, cfg, s.signals, BtTick(s, bar));
    OutputExclusive(m, cfg, s.signals, BtTick(s, bar));
    if output.Some? {
      var s1 := s.(signals := signals);
      EntryOpens(cfg, s1, bar, output.value);
      if output.value.entry.None? {
        ExitCloses(cfg, s1, bar, output.value);
      }
    }
  }

  /** The open trade was opened at some bar of the run. */
  ghost predicate FromRun(cfg: Config, o: OpenTrade, bars: seq<BacktestBar>) {
    exists j :: 0 <= j < |bars| && OpenedAt(cfg, o, bars[j])
  }

  lemma {:induction false} OpenFromRun(m: Maths, cfg: Config, initial: real, bars: seq<BacktestBar>)
    requires cfg.IndicatorsValid()
    ensures var r := BtRun(m, cfg, Started(initial), bars);
            r.BtOk? && r.state.open.Some? ==> FromRun(cfg, r.state.open.value, bars)
  {
    if |bars| > 0 {
      var init, last := bars[..|bars| - 1], bars[|bars| - 1];
      var before, after := BtRun(m, cfg, Started(initial), init), BtRun(m, cfg, Started(initial), bars);
      OpenFromRun(m, cfg, initial, init);
      if after.BtOk? {
        RunBooks(m, cfg, initial, init);
        StepBarBooks(m, cfg, before.state, last);
        if before.state.open.Some? && after.state.open.Some? {
          var j :| 0 <= j < |init| && OpenedAt(cfg, before.state.open.value, init[j]);
          assert bars[j] == init[j];
        } else if after.state.open.Some? {
          assert OpenedAt(cfg, after.state.open.value, bars[|bars| - 1]);
        }
      }
    }
  }

  /** Every bar of every run: a trade is opened at the bar's prices by its signal, stays as it was opened, and when it is
      closed its PnL is what its legs gained since the prices of the bar that opened it, less each cost
      that is included; nothing else moves the equity. */
  lemma RunBooksTrades(m: Maths, cfg: Config, initial: real, bars: seq<BacktestBar>)
    requires cfg.IndicatorsValid() && |bars| > 0 && BtRun(m, cfg, Started(initial), bars).BtOk?
    ensures var before, last := BtRun(m, cfg, Started(initial), bars[..|bars| - 1]), bars[|bars| - 1];
            && before.BtOk? && (before.state.open.Some? ==> FromRun(cfg, before.state.open.value, bars[..|bars| - 1]))
            && (before.state.open.Some? ==> before.state.open.value.entryEth > 0.0 && before.state.open.value.entryBtc > 0.0)
            && BarBooks(cfg, before.state, last, PipelineStep(m, cfg, before.state.signals, BtTick(before.state, last)).1,
                        BtRun(m, cfg, Started(initial), bars).state)
  {
    var init := bars[..|bars| - 1];
    OpenFromRun(m, cfg, initial, init);
    RunBooks(m, cfg, initial, init);
    StepBarBooks(m, cfg, BtRun(m, cfg, Started(initial), init).state, bars[|bars| - 1]);
  }

  lemma GainWithoutMove(worth: real, entry: real)
    requires entry > 0.0
    ensures GainOf(worth, entry, entry) == 0.0
  {
  }

  lemma BpsNotNegative(o: OpenTrade, bps: nat)
    requires o.position.eth.notional + o.position.btc.notional >= 0.0
    ensures BpsOf(o, bps) >= 0.0
  {
    var total, rate := o.position.eth.notional + o.position.btc.notional, bps as real / 10000.0;
    ProductOrder(0.0, rate, total, 0.0, Notional(total, rate));
  }

  /** A trade left at its entry prices loses exactly its costs, and never gains. */
  lemma NoMoveNoGain(cfg: Config, o: OpenTrade, bar: BacktestBar, t: Trade)
    requires o.entryEth > 0.0 && o.entryBtc > 0.0 && ClosedAs(cfg, o, bar, t)
    requires bar.eth == o.entryEth && bar.btc == o.entryBtc
    ensures CostsOf(cfg.backtest, o, bar, -t.pnl)
    ensures o.position.eth.notional + o.position.btc.notional >= 0.0 ==> t.pnl <= 0.0
  {
    GainWithoutMove(o.position.eth.notional, o.entryEth);
    GainWithoutMove(o.position.btc.notional, o.entryBtc);
    if o.position.eth.notional + o.position.btc.notional >= 0.0 {
      BpsNotNegative(o, cfg.backtest.feeBps);
      BpsNotNegative(o, cfg.backtest.slippageBps);
    }
  }

  // ---- dearer settings ----------------------------------------------------------------------------

  /** Whatever one includes the other includes too, at no lower rate. */
  predicate Dearer(a: BacktestConfig, b: BacktestConfig) {
    && (a.includeFees ==> b.includeFees && a.feeBps <= b.feeBps)
    && (a.includeSlippage ==> b.includeSlippage && a.slippageBps <= b.slippageBps)
    && (a.includeFunding ==> b.includeFunding)
  }

  lemma BpsGrow(o: OpenTrade, low: nat, high: nat)
    requires low <= high && o.position.eth.notional + o.position.btc.notional >= 0.0
    ensures BpsOf(o, low) <= BpsOf(o, high)
  {
    var total := o.position.eth.notional + o.position.btc.notional;
    ProductOrder(low as real / 10000.0, high as real / 10000.0, total, BpsOf(o, low), BpsOf(o, high));
  }

  lemma PartGrows(o: OpenTrade, included: bool, dearIncluded: bool, bps: nat, dearBps: nat)
    requires o.position.eth.notional + o.position.btc.notional >= 0.0
    requires included ==> dearIncluded && bps <= dearBps
    ensures (if included then BpsOf(o, bps) else 0.0) <= if dearIncluded then BpsOf(o, dearBps) else 0.0
  {
    BpsNotNegative(o, dearBps);
    if included {
      BpsGrow(o, bps, dearBps);
    }
  }

  lemma DearerCostsMore(a: BacktestConfig, b: BacktestConfig, o: OpenTrade, bar: BacktestBar)
    requires Dearer(a, b) && o.position.eth.notional + o.position.btc.notional >= 0.0
    ensures TradeCosts(a, o, bar) <= TradeCosts(b, o, bar)
  {
    PartGrows(o, a.includeFees, b.includeFees, a.feeBps, b.feeBps);
    PartGrows(o, a.includeSlippage, b.includeSlippage, a.slippageBps, b.slippageBps);
  }

  /** The same trades, none of them with more PnL. */
  ghost predicate Cheaper(trades: seq<Trade>, dear: seq<Trade>) {
    && |trades| == |dear|
    && forall i :: 0 <= i < |trades| ==> CheaperTrade(trades[i], dear[i])
  }

  predicate CheaperTrade(t: Trade, dear: Trade) {
    t.entryTime == dear.entryTime && t.exitTime == dear.exitTime && t.reason == dear.reason && dear.pnl <= t.pnl
  }

  ghost predicate CheaperCurve(curve: seq<EquityPoint>, dear: seq<EquityPoint>) {
    && |curve| == |dear|
    && forall i :: 0 <= i < |curve| ==> curve[i].time == dear[i].time && dear[i].equity <= curve[i].equity
  }

  /** Two backtests in the same position, the dearer one nowhere better off. */
  ghost predicate RunsAhead(s: BtState, dear: BtState) {
    && s.signals == dear.signals && s.machine == dear.machine && s.open == dear.open && dear.equity <= s.equity
    && Cheaper(s.trades, dear.trades) && CheaperCurve(s.curve, dear.curve)
    && (s.open.Some? ==> s.open.value.position.eth.notional + s.open.value.position.btc.notional >= 0.0)
  }

  ghost predicate ResultsAhead(r: BtResult, dear: BtResult) {
    (r.BtOk? <==> dear.BtOk?) && (r.BtOk? ==> RunsAhead(r.state, dear.state))
  }

  /** A fixed notional, and not a debt. */
  predicate FixedCapital(cfg: Config) {
    cfg.position.cMode == FixedNotional && cfg.position.cValue.Some? && cfg.position.cValue.value >= 0.0
  }

  lemma DearerEnters(cfg: Config, b: BacktestConfig, s: BtState, dear: BtState, bar: BacktestBar, output: SignalOutput)
    requires FixedCapital(cfg) && RunsAhead(s, dear) && bar.eth > 0.0 && bar.btc > 0.0
    ensures ResultsAhead(BtEnter(cfg, s, bar, output), BtEnter(cfg.(backtest := b), dear, bar, output))
  {
    EntryOpens(cfg, s, bar, output);
  }

  lemma DearerCloses(cfg: Config, b: BacktestConfig, s: BtState, dear: BtState, bar: BacktestBar, output: SignalOutput)
    requires Dearer(cfg.backtest, b) && RunsAhead(s, dear)
    ensures ResultsAhead(BtClose(cfg, s, bar, output), BtClose(cfg.(backtest := b), dear, bar, output))
  {
    if output.exit.Some? && s.open.Some? {
      DearerCostsMore(cfg.backtest, b, s.open.value, bar);
    }
  }

  lemma DearerPoint(s: BtState, dear: BtState, time: int)
    requires RunsAhead(s, dear)
    ensures RunsAhead(s.(curve := s.curve + [EquityPoint(time, s.equity)]),
                      dear.(curve := dear.curve + [EquityPoint(time, dear.equity)]))
  {
  }

  lemma DearerStep(m: Maths, cfg: Config, b: BacktestConfig, s: BtState, dear: BtState, bar: BacktestBar)
    requires cfg.IndicatorsValid() && FixedCapital(cfg) && Dearer(cfg.backtest, b) && RunsAhead(s, dear)
    requires Pipeline.Sound(cfg, s.signals)
    ensures ResultsAhead(BtStep(m, cfg, s, bar), BtStep(m, cfg.(backtest := b), dear, bar))
  {
    var (signals, output) := PipelineStep(m, cfg, s.signals, BtTick(s, bar));
    StepKeepsSound(m, cfg, s.signals, BtTick(s, bar));
    assert PipelineStep(m, cfg.(backtest := b), dear.signals, BtTick(dear, bar)) == (signals, output);
    if output.Some? {
      var s1, dear1 := s.(signals := signals), dear.(signals := signals);
      DearerEnters(cfg, b, s1, dear1, bar, output.value);
      var r, q := BtEnter(cfg, s1, bar, output.value), BtEnter(cfg.(backtest := b), dear1, bar, output.value);
      if r.BtOk? {
        DearerCloses(cfg, b, r.state, q.state, bar, output.value);
        var r', q' := BtClose(cfg, r.state, bar, output.value), BtClose(cfg.(backtest := b), q.state, bar, output.value);
        if r'.BtOk? {
          DearerPoint(r'.state, q'.state, bar.time);
        }
      }
    }
  }

  /** Costs only cost: with a fixed notional, a backtest that includes more of them, or at higher rates,
      makes the same trades on the same bars, each with no more PnL, and its equity is never higher. */
  lemma {:induction false} CostsOnlyCost(m: Maths, cfg: Config, b: BacktestConfig, initial: real, bars: seq<BacktestBar>)
    requires cfg.IndicatorsValid() && FixedCapital(cfg) && Dearer(cfg.backtest, b)
    ensures ResultsAhead(BtRun(m, cfg, Started(initial), bars), BtRun(m, cfg.(backtest := b), Started(initial), bars))
  {
    if |bars| > 0 {
      var init := bars[..|bars| - 1];
      CostsOnlyCost(m, cfg, b, initial, init);
      var before := BtRun(m, cfg, Started(initial), init);
      if before.BtOk? {
        RunBooks(m, cfg, initial, init);
        DearerStep(m, cfg, b, before.state, BtRun(m, cfg.(backtest := b), Started(initial), init).state, bars[|bars| - 1]);
      }
    }
  }
}
