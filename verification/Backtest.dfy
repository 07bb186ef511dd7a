/** The backtest: the same signals over a list of bars, with its own book-keeping. */
module Backtest {
  import opened Trading
  import opened State
  import opened Indicators
  import opened Pipeline
  import opened Sizing
  import opened Strategy

  datatype BacktestBar = BacktestBar(time: int, eth: real, btc: real, fundingEth: Option<real>, fundingBtc: Option<real>)

  datatype Trade = Trade(entryTime: int, exitTime: int, pnl: real, reason: ExitReason)

  datatype EquityPoint = EquityPoint(time: int, equity: real)

  datatype OpenTrade = OpenTrade(position: PositionSnapshot, entryEth: real, entryBtc: real)

  datatype BtState = BtState(
    signals: PipelineState, machine: StrategyState, equity: real, open: Option<OpenTrade>,
    trades: seq<Trade>, curve: seq<EquityPoint>)

  /** The equity a run starts from; None is the error of a missing setting. */
  function InitialEquity(cfg: PositionConfig): Option<real> {
    match cfg.cMode
    case FixedNotional => Some(if cfg.cValue.Some? then cfg.cValue.value else 100000.0)
    case EquityRatio => cfg.equityValue
  }

  function Started(equity: real): BtState {
    BtState(FRESH_PIPELINE, FRESH_STATE, equity, None, [], [])
  }

  // ---- trade PnL ---------------------------------------------------------------------------

  /** Relative move of a price times a notional. */
  function MoveWorth(entry: real, exit: real, notional: real): real
    requires entry != 0.0
  {
    (exit - entry) / entry * notional
  }

  function GrossPnl(direction: TradeDirection, o: OpenTrade, exitEth: real, exitBtc: real): real
    requires o.entryEth != 0.0 && o.entryBtc != 0.0
  {
    var eth := MoveWorth(o.entryEth, exitEth, o.position.eth.notional);
    var btc := MoveWorth(o.entryBtc, exitBtc, o.position.btc.notional);
    match direction
    case LongEthShortBtc => eth - btc
    case ShortEthLongBtc => btc - eth
  }

  function TradeCosts(cfg: BacktestConfig, o: OpenTrade, bar: BacktestBar): real {
    var total := o.position.eth.notional + o.position.btc.notional;
    (if cfg.includeFees then total * (cfg.feeBps as real / 10000.0) else 0.0)
    + (if cfg.includeSlippage then total * (cfg.slippageBps as real / 10000.0) else 0.0)
    + (if cfg.includeFunding && bar.fundingEth.Some? && bar.fundingBtc.Some?
       then FundingCost(o.position.direction, o.position.eth.notional, o.position.btc.notional,
                        bar.fundingEth.value, bar.fundingBtc.value, 8, HoursHeld(o.position, bar.time))
       else 0.0)
  }

  function TradePnl(cfg: BacktestConfig, o: OpenTrade, bar: BacktestBar): real
    requires o.entryEth != 0.0 && o.entryBtc != 0.0
  {
    GrossPnl(o.position.direction, o, bar.eth, bar.btc) - TradeCosts(cfg, o, bar)
  }

  // ---- one bar -------------------------------------------------------------------------------

  datatype BtResult = BtOk(state: BtState) | BtErr

  function BtTick(s: BtState, bar: BacktestBar): PriceTick {
    PriceTick(bar.time, bar.eth, bar.btc, s.machine.status, s.machine.position)
  }

  function BtPosition(direction: TradeDirection, bar: BacktestBar, ethQty: real, btcQty: real,
                      notionalEth: real, notionalBtc: real): PositionSnapshot
  {
    var long := direction == LongEthShortBtc;
    PositionSnapshot(direction, bar.time,
                     PositionLeg(if long then ethQty else -ethQty, bar.eth, notionalEth),
                     PositionLeg(if long then -btcQty else btcQty, bar.btc, notionalBtc))
  }

  function BtOpen(s: BtState, bar: BacktestBar, position: PositionSnapshot): BtResult {
    match Entered(s.machine, position, bar.time)
    case InvalidTransition => BtErr
    case Done(machine) => BtOk(s.(machine := machine, open := Some(OpenTrade(position, bar.eth, bar.btc))))
  }

  function BtEnter(cfg: Config, s: BtState, bar: BacktestBar, output: SignalOutput): BtResult {
    if output.entry.None? || output.vol.eth.None? || output.vol.btc.None? then BtOk(s)
    else
      match ComputeCapital(cfg.position, s.equity)
      case None => BtErr
      case Some(capital) =>
        if cfg.position.maxNotional.Some? && capital > cfg.position.maxNotional.value then BtErr
        else
          var w := RiskParityWeights(output.vol.eth.value, output.vol.btc.value);
          var worthEth, worthBtc := Share(capital, w.eth), Share(capital, w.btc);
          var eth := ConvertNotional(cfg.eth, cfg.position.minSizePolicy, worthEth, bar.eth);
          var btc := ConvertNotional(cfg.btc, cfg.position.minSizePolicy, worthBtc, bar.btc);
          if !(eth.Sized? || eth.BelowMinimum?) || !(btc.Sized? || btc.BelowMinimum?) then BtErr
          else if eth.Sized? && btc.Sized? then
            BtOpen(s, bar, BtPosition(output.entry.value.direction, bar, eth.order.qty, btc.order.qty, worthEth, worthBtc))
          else BtOk(s)
  }

  function BtClose(cfg: Config, s: BtState, bar: BacktestBar, output: SignalOutput): BtResult {
    if output.exit.None? || s.open.None? then BtOk(s)
    else
      var o := s.open.value;
      if o.entryEth == 0.0 || o.entryBtc == 0.0 then BtErr  // a division by zero would stop the program
      else
        var pnl := TradePnl(cfg.backtest, o, bar);
        match Exited(s.machine, cfg.risk.cooldownHours, output.exit.value.reason, bar.time)
        case InvalidTransition => BtErr
        case Done(machine) =>
          BtOk(s.(machine := machine, equity := s.equity + pnl, open := None,
                  trades := s.trades + [Trade(o.position.entryTime, bar.time, pnl, output.exit.value.reason)]))
  }

  /** What follows the signals of a bar: entry, exit, and a point of the equity curve. */
  function BtTrade(cfg: Config, s: BtState, bar: BacktestBar, output: SignalOutput): BtResult {
    match BtEnter(cfg, s, bar, output)
    case BtErr => BtErr
    case BtOk(entered) =>
      match BtClose(cfg, entered, bar, output)
      case BtErr => BtErr
      case BtOk(closed) => BtOk(closed.(curve := closed.curve + [EquityPoint(bar.time, closed.equity)]))
  }

  /** Note that the state machine is never updated with the bar time: a cooldown is never released. */
  function BtStep(m: Maths, cfg: Config, s: BtState, bar: BacktestBar): BtResult
    requires cfg.IndicatorsValid()
  {
    var (signals, output) := PipelineStep(m, cfg, s.signals, BtTick(s, bar));
    match output
    case None => BtErr
    case Some(o) => BtTrade(cfg, s.(signals := signals), bar, o)
  }

  function BtRun(m: Maths, cfg: Config, s: BtState, bars: seq<BacktestBar>): BtResult
    requires cfg.IndicatorsValid()
  {
    if |bars| == 0 then BtOk(s)
    else
      match BtRun(m, cfg, s, bars[..|bars| - 1])
      case BtErr => BtErr
      case BtOk(before) => BtStep(m, cfg, before, bars[|bars| - 1])
  }

  datatype BacktestResult = BacktestResult(trades: seq<Trade>, curve: seq<EquityPoint>)

  // ---- the program ---------------------------------------------------------------------------

  class BacktestEngine {
    const cfg: Config
    const m: Maths

    constructor (cfg: Config, m: Maths)
      ensures this.cfg == cfg && this.m == m
    {
      this.cfg := cfg;
      this.m := m;
    }

    method Run(bars: seq<BacktestBar>) returns (r: Option<BacktestResult>)
      ensures r.Some? ==> cfg.IndicatorsValid() && InitialEquity(cfg.position).Some?
      ensures cfg.IndicatorsValid() && InitialEquity(cfg.position).Some? ==>
                var run := BtRun(m, cfg, Started(InitialEquity(cfg.position).value), bars);
                r == if run.BtErr? then None else Some(BacktestResult(run.state.trades, run.state.curve))
    {
      var created := NewPipeline(cfg);
      var initial := InitialEquity(cfg.position);
      if created.None? || initial.None? {
        return None;
      }
      var pipeline := created.value;
      var machine := new StateMachine(cfg.risk.cooldownHours);
      var equity := initial.value;
      var open: Option<OpenTrade>, trades: seq<Trade>, curve: seq<EquityPoint> := None, [], [];
      for i := 0 to |bars|
        invariant pipeline.Valid(cfg) && fresh(pipeline.Repr()) && fresh(machine)
        invariant machine.cooldownHours == cfg.risk.cooldownHours && machine !in pipeline.Repr()
        invariant BtRun(m, cfg, Started(initial.value), bars[..i])
                  == BtOk(BtState(pipeline.View(), machine.state, equity, open, trades, curve))
      {
        assert bars[..i + 1][..i] == bars[..i];
        var ok;
        ok, equity, open, trades, curve := ProcessBar(pipeline, machine, equity, open, trades, curve, bars[i]);
        if !ok {
          RunStaysErr(m, cfg, Started(initial.value), bars, i + 1);
          return None;
        }
      }
      assert bars[..|bars|] == bars;
      return Some(BacktestResult(trades, curve));
    }

    method ProcessBar(pipeline: SignalPipeline, machine: StateMachine, equity: real, open: Option<OpenTrade>,
                      trades: seq<Trade>, curve: seq<EquityPoint>, bar: BacktestBar)
      returns (ok: bool, equity': real, open': Option<OpenTrade>, trades': seq<Trade>, curve': seq<EquityPoint>)
      requires pipeline.Valid(cfg) && machine.cooldownHours == cfg.risk.cooldownHours && machine !in pipeline.Repr()
      modifies pipeline.Repr(), machine
      ensures pipeline.Valid(cfg)
      ensures BtStep(m, cfg, BtState(old(pipeline.View()), old(machine.state), equity, open, trades, curve), bar) ==
                if !ok then BtErr else BtOk(BtState(pipeline.View(), machine.state, equity', open', trades', curve'))
    {
      equity', open', trades', curve' := equity, open, trades, curve;
      ghost var before := BtState(pipeline.View(), machine.state, equity, open, trades, curve);
      var output := pipeline.Update(m, cfg, PriceTick(bar.time, bar.eth, bar.btc, machine.state.status, machine.state.position));
      if output.None? {
        return false, equity', open', trades', curve';
      }
      ghost var s := before.(signals := pipeline.View());
      assert BtStep(m, cfg, before, bar) == BtTrade(cfg, s, bar, output.value);
      ok, equity', open', trades' := TradeBar(machine, equity, open, trades, bar, output.value, s);
      curve' := curve + [EquityPoint(bar.time, equity')];
    }

    method TradeBar(machine: StateMachine, equity: real, open: Option<OpenTrade>, trades: seq<Trade>,
                    bar: BacktestBar, output: SignalOutput, ghost s: BtState)
      returns (ok: bool, equity': real, open': Option<OpenTrade>, trades': seq<Trade>)
      requires s.machine == machine.state && s.equity == equity && s.open == open && s.trades == trades
      requires machine.cooldownHours == cfg.risk.cooldownHours
      modifies machine
      ensures BtTrade(cfg, s, bar, output) ==
                if !ok then BtErr
                else BtOk(s.(machine := machine.state, equity := equity', open := open', trades := trades',
                             curve := s.curve + [EquityPoint(bar.time, equity')]))
    {
      equity', open', trades' := equity, open, trades;
      ok, open' := Enter(machine, equity, open, bar, output, s);
      if ok && output.exit.Some? && open'.Some? {
        ghost var entered := s.(machine := machine.state, open := open');
        var o := open'.value;
        if o.entryEth == 0.0 || o.entryBtc == 0.0 {
          return false, equity', open', trades';
        }
        var pnl := TradePnl(cfg.backtest, o, bar);
        open' := None;
        equity' := equity + pnl;
        trades' := trades + [Trade(o.position.entryTime, bar.time, pnl, output.exit.value.reason)];
        ok := machine.Exit(output.exit.value.reason, bar.time);
        assert BtClose(cfg, entered, bar, output) ==
               if !ok then BtErr
               else BtOk(entered.(machine := machine.state, equity := equity', open := None, trades := trades'));
      }
    }

    method Enter(machine: StateMachine, equity: real, open: Option<OpenTrade>, bar: BacktestBar, output: SignalOutput,
                 ghost s: BtState) returns (ok: bool, open': Option<OpenTrade>)
      requires s.machine == machine.state && s.equity == equity && s.open == open
      modifies machine
      ensures BtEnter(cfg, s, bar, output) == if !ok then BtErr else BtOk(s.(machine := machine.state, open := open'))
    {
      if output.entry.None? || output.vol.eth.None? || output.vol.btc.None? {
        return true, open;
      }
      var capital := ComputeCapital(cfg.position, equity);
      if capital.None? || (cfg.position.maxNotional.Some? && capital.value > cfg.position.maxNotional.value) {
        return false, open;
      }
      var w := RiskParityWeights(output.vol.eth.value, output.vol.btc.value);
      var worthEth, worthBtc := Share(capital.value, w.eth), Share(capital.value, w.btc);
      var eth := ConvertNotional(cfg.eth, cfg.position.minSizePolicy, worthEth, bar.eth);
      var btc := ConvertNotional(cfg.btc, cfg.position.minSizePolicy, worthBtc, bar.btc);
      if !(eth.Sized? || eth.BelowMinimum?) || !(btc.Sized? || btc.BelowMinimum?) {
        return false, open;
      }
      if eth.Sized? && btc.Sized? {
        var position := BtPosition(output.entry.value.direction, bar, eth.order.qty, btc.order.qty, worthEth, worthBtc);
        ok := machine.Enter(position, bar.time);
        return ok, Some(OpenTrade(position, bar.eth, bar.btc));
      }
      return true, open;
    }
  }

  lemma {:induction false} RunStaysErr(m: Maths, cfg: Config, s: BtState, bars: seq<BacktestBar>, k: nat)
    requires cfg.IndicatorsValid() && k <= |bars| && BtRun(m, cfg, s, bars[..k]).BtErr?
    ensures BtRun(m, cfg, s, bars).BtErr?
    decreases |bars| - k
  {
    if k < |bars| {
      assert bars[..k + 1][..k] == bars[..k];
      RunStaysErr(m, cfg, s, bars, k + 1);
    } else {
      assert bars[..k] == bars;
    }
  }
}
