/** The books of a backtest balance after every bar. */
module BacktestAccounting {
  import opened Numbers
  import opened Trading
  import opened State
  import opened Indicators
  import opened Pipeline
  import opened Sizing
  import opened Strategy
  import opened Backtest

  function TradeSum(trades: seq<Trade>): real {
    if |trades| == 0 then 0.0 else TradeSum(trades[..|trades| - 1]) + trades[|trades| - 1].pnl
  }

  /** PnL of the trades closed up to a moment. */
  function ClosedBy(trades: seq<Trade>, time: int): real {
    if |trades| == 0 then 0.0
    else
      var last := trades[|trades| - 1];
      ClosedBy(trades[..|trades| - 1], time) + (if last.exitTime <= time then last.pnl else 0.0)
  }

  lemma SnocSums(trades: seq<Trade>, trade: Trade, time: int)
    ensures TradeSum(trades + [trade]) == TradeSum(trades) + trade.pnl
    ensures ClosedBy(trades + [trade], time)
            == ClosedBy(trades, time) + (if trade.exitTime <= time then trade.pnl else 0.0)
  {
    assert (trades + [trade])[..|trades|] == trades;
  }

  /** Once all trades are closed, the closed PnL is the total. */
  lemma {:induction false} AllClosed(trades: seq<Trade>, time: int)
    requires forall i :: 0 <= i < |trades| ==> trades[i].exitTime <= time
    ensures ClosedBy(trades, time) == TradeSum(trades)
  {
    if |trades| > 0 {
      AllClosed(trades[..|trades| - 1], time);
    }
  }

  /** The open trade mirrors the position of the state machine. */
  predicate Mirrors(s: BtState) {
    && WellFormed(s.machine) && s.machine.status != PendingEntry
    && (s.open.Some? <==> s.machine.status == InPosition)
    && (s.open.Some? ==>
          && s.machine.position == Some(s.open.value.position)
          && s.open.value.entryEth == s.open.value.position.eth.avgPrice > 0.0
          && s.open.value.entryBtc == s.open.value.position.btc.avgPrice > 0.0)
  }

  /** Trades follow one another without overlap, and only the last may be a stop-loss. */
  ghost predicate Ordered(trades: seq<Trade>) {
    && (forall i :: 0 <= i < |trades| ==> trades[i].entryTime < trades[i].exitTime)
    && (forall i, j :: 0 <= i < j < |trades| ==>
          trades[i].exitTime < trades[j].entryTime && trades[i].reason != StopLoss)
  }

  predicate EndsInStopLoss(trades: seq<Trade>) {
    |trades| > 0 && trades[|trades| - 1].reason == StopLoss
  }

  /** Everything the books say lies at or before `now`. */
  ghost predicate UpTo(s: BtState, now: int) {
    && (forall i :: 0 <= i < |s.trades| ==> s.trades[i].exitTime <= now)
    && (s.open.Some? ==> s.open.value.position.entryTime <= now
                         && forall i :: 0 <= i < |s.trades| ==> s.trades[i].exitTime < s.open.value.position.entryTime)
  }

  ghost predicate Balanced(cfg: Config, initial: real, s: BtState, now: int) {
    && Mirrors(s) && Pipeline.Sound(cfg, s.signals) && Ordered(s.trades) && UpTo(s, now)
    && (s.machine.status == Cooldown <==> EndsInStopLoss(s.trades))
    && s.equity == initial + TradeSum(s.trades)
    && (forall i :: 0 <= i < |s.curve| ==>
          s.curve[i].time <= now && s.curve[i].equity == initial + ClosedBy(s.trades, s.curve[i].time))
  }

  lemma EnterBalanced(cfg: Config, initial: real, s: BtState, bar: BacktestBar, output: SignalOutput, before: int)
    requires Balanced(cfg, initial, s, before) && before < bar.time && bar.eth > 0.0 && bar.btc > 0.0
    requires output.entry.Some? ==> s.machine.status == Flat
    ensures BtEnter(cfg, s, bar, output).BtOk? ==>
              var s' := BtEnter(cfg, s, bar, output).state;
              && Balanced(cfg, initial, s', bar.time) && s'.trades == s.trades && s'.curve == s.curve
              && (output.entry.None? ==> s' == s)
  {
  }

  lemma CloseBalanced(cfg: Config, initial: real, s: BtState, bar: BacktestBar, output: SignalOutput, before: int)
    requires Balanced(cfg, initial, s, before) && before < bar.time
    ensures BtClose(cfg, s, bar, output).BtOk?
    ensures var s' := BtClose(cfg, s, bar, output).state;
            Balanced(cfg, initial, s', bar.time) && s'.curve == s.curve
  {
    if output.exit.Some? && s.open.Some? {
      var s' := BtClose(cfg, s, bar, output).state;
      var trade := s'.trades[|s'.trades| - 1];
      assert s'.trades == s.trades + [trade];
      SnocSums(s.trades, trade, bar.time);
      forall i | 0 <= i < |s.curve|
        ensures s'.curve[i].equity == initial + ClosedBy(s'.trades, s'.curve[i].time)
      {
        SnocSums(s.trades, trade, s.curve[i].time);
      }
    }
  }

  lemma PointBalanced(cfg: Config, initial: real, s: BtState, now: int)
    requires Balanced(cfg, initial, s, now)
    ensures Balanced(cfg, initial, s.(curve := s.curve + [EquityPoint(now, s.equity)]), now)
  {
    AllClosed(s.trades, now);
  }

  /** One bar later than everything booked keeps the books balanced. */
  lemma StepBalanced(m: Maths, cfg: Config, initial: real, s: BtState, bar: BacktestBar, before: int)
    requires cfg.IndicatorsValid() && Balanced(cfg, initial, s, before) && before < bar.time
    ensures BtStep(m, cfg, s, bar).BtOk? ==>
              var s' := BtStep(m, cfg, s, bar).state;
              Balanced(cfg, initial, s', bar.time) && |s'.curve| == |s.curve| + 1
              && s'.curve[|s.curve|].time == bar.time && s'.curve[..|s.curve|] == s.curve
  {
    var (signals, output) := PipelineStep(m, cfg, s.signals, BtTick(s, bar));
    StepKeepsSound(m, cfg, s.signals, BtTick(s, bar));
    OutputExclusive(m, cfg, s.signals, BtTick(s, bar));
    if output.Some? && BtEnter(cfg, s.(signals := signals), bar, output.value).BtOk? {
      var s1 := s.(signals := signals);
      EnterBalanced(cfg, initial, s1, bar, output.value, before);
      var s2 := BtEnter(cfg, s1, bar, output.value).state;
      if output.value.entry.None? {
        CloseBalanced(cfg, initial, s1, bar, output.value, before);
      }
      PointBalanced(cfg, initial, BtClose(cfg, s2, bar, output.value).state, bar.time);
    }
  }

  ghost predicate StrictlyIncreasing(bars: seq<BacktestBar>) {
    forall i, j :: 0 <= i < j < |bars| ==> bars[i].time < bars[j].time
  }

  /** The curve has one point per bar, at its time. */
  ghost predicate TimedBy(curve: seq<EquityPoint>, bars: seq<BacktestBar>) {
    |curve| == |bars| && forall i :: 0 <= i < |bars| ==> curve[i].time == bars[i].time
  }

  lemma TimedByLast(curve: seq<EquityPoint>, more: seq<EquityPoint>, bars: seq<BacktestBar>)
    requires |bars| > 0 && TimedBy(curve, bars[..|bars| - 1]) && |more| == |curve| + 1 && more[..|curve|] == curve
    requires more[|curve|].time == bars[|bars| - 1].time
    ensures TimedBy(more, bars)
  {
    forall i | 0 <= i < |curve|
      ensures more[i].time == bars[i].time
    {
      assert more[..|curve|][i] == curve[i];
    }
  }

  /** The time of the last bar, or where the run started. */
  function LastTime(bars: seq<BacktestBar>, start: int): int {
    if |bars| == 0 then start else bars[|bars| - 1].time
  }

  /** After any run over bars in strict time order: the open trade is the machine's position, the
      equity curve has one point per bar and each is the initial equity plus the PnL closed by then,
      trades are ordered and disjoint, and nothing follows a stop-loss trade. */
  lemma {:induction false} RunBalanced(m: Maths, cfg: Config, initial: real, bars: seq<BacktestBar>, start: int)
    requires cfg.IndicatorsValid() && StrictlyIncreasing(bars) && (|bars| > 0 ==> start < bars[0].time)
    ensures var r := BtRun(m, cfg, Started(initial), bars);
            r.BtOk? ==> Balanced(cfg, initial, r.state, LastTime(bars, start)) && TimedBy(r.state.curve, bars)
  {
    if |bars| > 0 {
      var init := bars[..|bars| - 1];
      RunBalanced(m, cfg, initial, init, start);
      var before := BtRun(m, cfg, Started(initial), init);
      if before.BtOk? {
        assert LastTime(init, start) < bars[|bars| - 1].time;
        LastBalanced(m, cfg, initial, bars, start, before.state, BtRun(m, cfg, Started(initial), bars));
      }
    }
  }

  lemma LastBalanced(m: Maths, cfg: Config, initial: real, bars: seq<BacktestBar>, start: int, before: BtState, after: BtResult)
    requires cfg.IndicatorsValid() && |bars| > 0 && LastTime(bars[..|bars| - 1], start) < bars[|bars| - 1].time
    requires Balanced(cfg, initial, before, LastTime(bars[..|bars| - 1], start)) && TimedBy(before.curve, bars[..|bars| - 1])
    requires after == BtStep(m, cfg, before, bars[|bars| - 1])
    ensures after.BtOk? ==>
              Balanced(cfg, initial, after.state, bars[|bars| - 1].time) && TimedBy(after.state.curve, bars)
  {
    StepBalanced(m, cfg, initial, before, bars[|bars| - 1], LastTime(bars[..|bars| - 1], start));
    if after.BtOk? {
      TimedByLast(before.curve, after.state.curve, bars);
    }
  }

  // ---- bars in any order of times --------------------------------------------------------------

  /** What no order of bar times can disturb: the open trade is the machine's position, the equity is
      the initial one plus all trades, and only the last trade may be a stop-loss. */
  ghost predicate Books(cfg: Config, initial: real, s: BtState) {
    && Mirrors(s) && Pipeline.Sound(cfg, s.signals)
    && (forall i :: 0 <= i < |s.trades| - 1 ==> s.trades[i].reason != StopLoss)
    && (s.machine.status == Cooldown <==> EndsInStopLoss(s.trades))
    && s.equity == initial + TradeSum(s.trades)
  }

  lemma EnterBooks(cfg: Config, initial: real, s: BtState, bar: BacktestBar, output: SignalOutput)
    requires Books(cfg, initial, s) && bar.eth > 0.0 && bar.btc > 0.0
    requires output.entry.Some? ==> s.machine.status == Flat
    ensures BtEnter(cfg, s, bar, output).BtOk? ==>
              var s' := BtEnter(cfg, s, bar, output).state;
              && Books(cfg, initial, s') && s'.trades == s.trades && s'.curve == s.curve
              && (output.entry.None? ==> s' == s)
  {
  }

  /** The trade that closes at the bar was open before it. */
  ghost predicate ClosesAtMost(s: BtState, bar: BacktestBar, s': BtState) {
    || s'.trades == s.trades
    || (s.open.Some? && exists pnl, reason ::
          s'.trades == s.trades + [Trade(s.open.value.position.entryTime, bar.time, pnl, reason)])
  }

  lemma CloseBooks(cfg: Config, initial: real, s: BtState, bar: BacktestBar, output: SignalOutput)
    requires Books(cfg, initial, s)
    ensures BtClose(cfg, s, bar, output).BtOk?
    ensures var s' := BtClose(cfg, s, bar, output).state;
            Books(cfg, initial, s') && s'.curve == s.curve && ClosesAtMost(s, bar, s')
  {
    if output.exit.Some? && s.open.Some? {
      var s' := BtClose(cfg, s, bar, output).state;
      var trade := s'.trades[|s'.trades| - 1];
      assert s'.trades == s.trades + [Trade(s.open.value.position.entryTime, bar.time, trade.pnl, trade.reason)];
      SnocSums(s.trades, trade, bar.time);
    }
  }

  lemma StepBooks(m: Maths, cfg: Config, initial: real, s: BtState, bar: BacktestBar)
    requires cfg.IndicatorsValid() && Books(cfg, initial, s)
    ensures BtStep(m, cfg, s, bar).BtOk? ==>
              var s' := BtStep(m, cfg, s, bar).state;
              && Books(cfg, initial, s') && ClosesAtMost(s, bar, s')
              && s'.curve == s.curve + [EquityPoint(bar.time, s'.equity)]
  {
    var (signals, output) := PipelineStep(m, cfg, s.signals, BtTick(s, bar));
    StepKeepsSound(m, cfg, s.signals, BtTick(s, bar));
    OutputExclusive(m, cfg, s.signals, BtTick(s, bar));
    if output.Some? {
      var s1 := s.(signals := signals);
      EnterBooks(cfg, initial, s1, bar, output.value);
      if output.value.entry.None? {
        CloseBooks(cfg, initial, s1, bar, output.value);
      }
    }
  }

  /** Point k of the curve is the equity after k + 1 bars: the initial one plus the trades closed by
      then, with which the list of trades begins. */
  ghost predicate CurveOf(m: Maths, cfg: Config, initial: real, bars: seq<BacktestBar>, s: BtState)
    requires cfg.IndicatorsValid()
  {
    && |s.curve| == |bars|
    && forall k :: 0 <= k < |bars| ==> PointOf(m, cfg, initial, bars, k, s)
  }

  ghost predicate PointOf(m: Maths, cfg: Config, initial: real, bars: seq<BacktestBar>, k: nat, s: BtState)
    requires cfg.IndicatorsValid() && k < |bars| == |s.curve|
  {
    var r := BtRun(m, cfg, Started(initial), bars[..k + 1]);
    && r.BtOk? && r.state.trades <= s.trades
    && s.curve[k] == EquityPoint(bars[k].time, initial + TradeSum(r.state.trades))
  }

  /** After any run over bars with whatever times the books are right, and the curve has one point per
      bar, the equity after that bar. */
  lemma {:induction false} RunBooks(m: Maths, cfg: Config, initial: real, bars: seq<BacktestBar>)
    requires cfg.IndicatorsValid()
    ensures var r := BtRun(m, cfg, Started(initial), bars);
            r.BtOk? ==> Books(cfg, initial, r.state) && CurveOf(m, cfg, initial, bars, r.state)
  {
    if |bars| > 0 {
      RunBooks(m, cfg, initial, bars[..|bars| - 1]);
      var before := BtRun(m, cfg, Started(initial), bars[..|bars| - 1]);
      if before.BtOk? {
        LastBooks(m, cfg, initial, bars, before.state, BtRun(m, cfg, Started(initial), bars));
      }
    }
  }

  lemma LastBooks(m: Maths, cfg: Config, initial: real, bars: seq<BacktestBar>, before: BtState, after: BtResult)
    requires cfg.IndicatorsValid() && |bars| > 0 && after == BtRun(m, cfg, Started(initial), bars)
    requires Books(cfg, initial, before) && CurveOf(m, cfg, initial, bars[..|bars| - 1], before)
    requires after == BtStep(m, cfg, before, bars[|bars| - 1])
    ensures after.BtOk? ==> Books(cfg, initial, after.state) && CurveOf(m, cfg, initial, bars, after.state)
  {
    StepBooks(m, cfg, initial, before, bars[|bars| - 1]);
    if after.BtOk? {
      BooksGrow(before, bars[|bars| - 1], after.state);
      LastPoint(m, cfg, initial, bars, after.state);
      MorePoints(m, cfg, initial, bars, before, after.state);
    }
  }

  lemma BooksGrow(before: BtState, bar: BacktestBar, after: BtState)
    requires ClosesAtMost(before, bar, after) && after.curve == before.curve + [EquityPoint(bar.time, after.equity)]
    ensures before.trades <= after.trades && before.curve <= after.curve && |after.curve| == |before.curve| + 1
    ensures after.curve[|before.curve|] == EquityPoint(bar.time, after.equity)
  {
  }

  lemma MorePoints(m: Maths, cfg: Config, initial: real, bars: seq<BacktestBar>, before: BtState, after: BtState)
    requires cfg.IndicatorsValid() && |bars| > 0 && CurveOf(m, cfg, initial, bars[..|bars| - 1], before)
    requires before.trades <= after.trades && before.curve <= after.curve && |after.curve| == |bars|
    requires PointOf(m, cfg, initial, bars, |bars| - 1, after)
    ensures CurveOf(m, cfg, initial, bars, after)
  {
    var n := |bars| - 1;
    forall k | 0 <= k < |bars|
      ensures PointOf(m, cfg, initial, bars, k, after)
    {
      if k < n {
        assert PointOf(m, cfg, initial, bars[..n], k, before);
        EarlierPoint(m, cfg, initial, bars, k, before, after);
      }
    }
  }

  lemma LastPoint(m: Maths, cfg: Config, initial: real, bars: seq<BacktestBar>, after: BtState)
    requires cfg.IndicatorsValid() && 0 < |bars| == |after.curve| && BtRun(m, cfg, Started(initial), bars) == BtOk(after)
    requires after.curve[|bars| - 1] == EquityPoint(bars[|bars| - 1].time, after.equity)
    requires after.equity == initial + TradeSum(after.trades)
    ensures PointOf(m, cfg, initial, bars, |bars| - 1, after)
  {
    assert bars[..|bars|] == bars;
  }

  lemma EarlierPoint(m: Maths, cfg: Config, initial: real, bars: seq<BacktestBar>, k: nat, before: BtState, after: BtState)
    requires cfg.IndicatorsValid() && k + 1 < |bars| == |after.curve| && |before.curve| == |bars| - 1
    requires PointOf(m, cfg, initial, bars[..|bars| - 1], k, before)
    requires before.trades <= after.trades && before.curve <= after.curve
    ensures PointOf(m, cfg, initial, bars, k, after)
  {
    assert bars[..|bars| - 1][..k + 1] == bars[..k + 1];
  }

  /** After a stop-loss the backtest never trades again: the machine stays in its cooldown. */
  lemma StopLossIsFinal(m: Maths, cfg: Config, s: BtState, bar: BacktestBar)
    requires cfg.IndicatorsValid() && Mirrors(s) && s.machine.status == Cooldown
    ensures BtStep(m, cfg, s, bar).BtOk? ==>
              var s' := BtStep(m, cfg, s, bar).state;
              s'.machine == s.machine && s'.trades == s.trades && s'.open.None? && s'.equity == s.equity
  {
    OutputExclusive(m, cfg, s.signals, BtTick(s, bar));
  }

  // ---- notional against quantity ---------------------------------------------------------------

  /** The PnL of a leg computed from its notional differs from the mark-to-market of its quantity
      by less than one step times the price move. */
  lemma LegPnlClose(worth: real, qty: real, step: real, entry: real, exit: real)
    requires entry > 0.0 && worth / entry - step < qty <= worth / entry
    ensures Abs(MoveWorth(entry, exit, worth) - Notional(qty, exit - entry)) <= Notional(step, Abs(exit - entry))
  {
    var move, gap := exit - entry, worth / entry - qty;
    assert move / entry * worth == move * (worth / entry);
    assert move * (worth / entry) - qty * move == gap * move;
    ProductOrder(0.0, gap, Abs(move), 0.0, gap * Abs(move));
    ProductOrder(gap, step, Abs(move), gap * Abs(move), Notional(step, Abs(move)));
    assert Abs(gap * move) == gap * Abs(move);
  }

  /** For a trade opened in floor mode without adjustment, the gross PnL differs from the
      mark-to-market of the signed quantities by at most a step times the price move per leg. */
  lemma GrossPnlNearMarkToMarket(cfg: Config, direction: TradeDirection, bar: BacktestBar, worthEth: real, worthBtc: real,
                                 exitEth: real, exitBtc: real)
    requires StepRepresentable(cfg.eth) && StepRepresentable(cfg.btc) && bar.eth > 0.0 && bar.btc > 0.0
    requires cfg.eth.roundingMode == FloorMode && cfg.btc.roundingMode == FloorMode
    requires Unadjusted(cfg.eth, worthEth, bar.eth) && Unadjusted(cfg.btc, worthBtc, bar.btc)
    ensures var eth := ConvertNotional(cfg.eth, cfg.position.minSizePolicy, worthEth, bar.eth);
            var btc := ConvertNotional(cfg.btc, cfg.position.minSizePolicy, worthBtc, bar.btc);
            && eth.Sized? && btc.Sized?
            && var p := BtPosition(direction, bar, eth.order.qty, btc.order.qty, worthEth, worthBtc);
               Abs(GrossPnl(direction, OpenTrade(p, bar.eth, bar.btc), exitEth, exitBtc) - PositionPnl(p, exitEth, exitBtc))
               <= Notional(cfg.eth.stepSize, Abs(exitEth - bar.eth)) + Notional(cfg.btc.stepSize, Abs(exitBtc - bar.btc))
  {
    FloorLosesLessThanStep(cfg.eth, cfg.position.minSizePolicy, worthEth, bar.eth);
    FloorLosesLessThanStep(cfg.btc, cfg.position.minSizePolicy, worthBtc, bar.btc);
    var ethQty := ConvertNotional(cfg.eth, cfg.position.minSizePolicy, worthEth, bar.eth).order.qty;
    var btcQty := ConvertNotional(cfg.btc, cfg.position.minSizePolicy, worthBtc, bar.btc).order.qty;
    LegPnlClose(worthEth, ethQty, cfg.eth.stepSize, bar.eth, exitEth);
    LegPnlClose(worthBtc, btcQty, cfg.btc.stepSize, bar.btc, exitBtc);
    SignedPnl(direction, bar, ethQty, btcQty, worthEth, worthBtc, exitEth, exitBtc);
  }

  lemma SignedPnl(direction: TradeDirection, bar: BacktestBar, ethQty: real, btcQty: real, worthEth: real, worthBtc: real,
                  exitEth: real, exitBtc: real)
    ensures var p := BtPosition(direction, bar, ethQty, btcQty, worthEth, worthBtc);
            var eth, btc := Notional(ethQty, exitEth - bar.eth), Notional(btcQty, exitBtc - bar.btc);
            PositionPnl(p, exitEth, exitBtc) == if direction == LongEthShortBtc then eth - btc else btc - eth
  {
    assert (-ethQty) * (exitEth - bar.eth) == -(ethQty * (exitEth - bar.eth));
    assert (-btcQty) * (exitBtc - bar.btc) == -(btcQty * (exitBtc - bar.btc));
  }
}
