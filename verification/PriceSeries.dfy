/** What the indicators say in any run, in terms of the prices it was fed. */
module PriceSeries {
  import opened Numbers
  import opened Trading
  import opened Indicators
  import opened ZScoreBound
  import opened Pipeline

  // ---- series of a price list -------------------------------------------------------------------

  predicate AllPositive(prices: seq<real>) {
    forall k :: 0 <= k < |prices| ==> prices[k] > 0.0
  }

  /** Logarithmic returns, one per price after the first. */
  function Returns(m: Maths, prices: seq<real>): seq<real>
    requires AllPositive(prices)
  {
    seq(if |prices| == 0 then 0 else |prices| - 1, k requires 0 <= k < |prices| - 1 => m.ln(prices[k + 1] / prices[k]))
  }

  /** Deviations of all full windows of a series, oldest first. */
  function Deviations(m: Maths, n: nat, series: seq<real>): seq<real>
    requires n > 0
  {
    seq(if |series| < n then 0 else |series| - n + 1, k requires 0 <= k < |series| - n + 1 => Std(m, series[k..k + n]))
  }

  predicate Usable(eth: real, btc: real) {
    eth > 0.0 && btc > 0.0
  }

  predicate AllUsable(ticks: seq<PriceTick>) {
    forall k :: 0 <= k < |ticks| ==> Usable(ticks[k].eth, ticks[k].btc)
  }

  /** The ticks with two positive prices. */
  function UsableOf(ticks: seq<PriceTick>): (usable: seq<PriceTick>)
    ensures AllUsable(usable) && (AllUsable(ticks) ==> usable == ticks)
  {
    if |ticks| == 0 then []
    else
      var init, last := UsableOf(ticks[..|ticks| - 1]), ticks[|ticks| - 1];
      if Usable(last.eth, last.btc) then init + [last] else init
  }

  function EthPrices(ticks: seq<PriceTick>): seq<real> {
    seq(|ticks|, k requires 0 <= k < |ticks| => ticks[k].eth)
  }

  function BtcPrices(ticks: seq<PriceTick>): seq<real> {
    seq(|ticks|, k requires 0 <= k < |ticks| => ticks[k].btc)
  }

  /** Logarithmic price ratios, one per tick. */
  function Spreads(m: Maths, ticks: seq<PriceTick>): seq<real> {
    seq(|ticks|, k requires 0 <= k < |ticks| => m.ln(ticks[k].eth) - m.ln(ticks[k].btc))
  }

  lemma OneMoreReturn(m: Maths, prices: seq<real>, price: real)
    requires AllPositive(prices) && price > 0.0
    ensures Returns(m, prices + [price])
            == if |prices| == 0 then [] else Returns(m, prices) + [m.ln(price / prices[|prices| - 1])]
  {
  }

  lemma OneMoreTick(m: Maths, ticks: seq<PriceTick>, tick: PriceTick)
    ensures EthPrices(ticks + [tick]) == EthPrices(ticks) + [tick.eth]
    ensures BtcPrices(ticks + [tick]) == BtcPrices(ticks) + [tick.btc]
    ensures Spreads(m, ticks + [tick]) == Spreads(m, ticks) + [m.ln(tick.eth) - m.ln(tick.btc)]
  {
  }

  lemma OneMoreDeviation(m: Maths, n: nat, series: seq<real>, x: real)
    requires n > 0
    ensures Deviations(m, n, series + [x])
            == if |series| + 1 < n then [] else Deviations(m, n, series) + [Std(m, LastN(series + [x], n))]
  {
    var more := series + [x];
    forall k | 0 <= k < |series| - n + 1
      ensures Deviations(m, n, more)[k] == Deviations(m, n, series)[k]
    {
      assert more[k..k + n] == series[k..k + n];
    }
    if |more| >= n {
      assert more[|more| - n..|more|] == LastN(more, n);
    }
  }

  // ---- volatility -------------------------------------------------------------------------------

  function Newest(prices: seq<real>): Option<real> {
    if |prices| == 0 then None else Some(prices[|prices| - 1])
  }

  /** The volatility of a list of prices: the population deviation of its newest `n` returns, once
      there are so many. */
  function VolatilityOf(m: Maths, n: nat, prices: seq<real>): Option<real>
    requires n > 0 && AllPositive(prices)
  {
    if |prices| > n then Some(Std(m, LastN(Returns(m, prices), n))) else None
  }

  /** The window of returns, and the price the next one is taken from. */
  ghost predicate HoldsReturns(m: Maths, n: nat, prices: seq<real>, window: seq<real>, last: Option<real>) {
    AllPositive(prices) && window == LastN(Returns(m, prices), n) && last == Newest(prices)
  }

  /** The first price gives no return. */
  lemma FirstPrice(m: Maths, n: nat, window: seq<real>, last: Option<real>, price: real)
    requires n > 0 && price > 0.0 && HoldsReturns(m, n, [], window, last)
    ensures PushReturn(m, n, window, last, price) == Some([])
    ensures HoldsReturns(m, n, [price], [], Some(price)) && WindowVol(m, n, []) == VolatilityOf(m, n, [price])
  {
  }

  lemma ReturnOf(m: Maths, n: nat, window: seq<real>, previous: real, price: real)
    requires n > 0 && previous > 0.0 && price > 0.0
    ensures PushReturn(m, n, window, Some(previous), price) == Some(Push(window, n, m.ln(price / previous)))
  {
  }

  lemma LaterPrice(m: Maths, n: nat, prices: seq<real>, window: seq<real>, last: Option<real>, price: real)
    requires n > 0 && price > 0.0 && |prices| > 0 && HoldsReturns(m, n, prices, window, last)
    ensures var rets := Returns(m, prices + [price]);
            PushReturn(m, n, window, last, price) == Some(LastN(rets, n)) && |rets| == |prices|
  {
    OneMoreReturn(m, prices, price);
    ReturnOf(m, n, window, prices[|prices| - 1], price);
    PushIsLastN(Returns(m, prices), n, m.ln(price / prices[|prices| - 1]));
  }

  lemma CoinStep(m: Maths, n: nat, prices: seq<real>, window: seq<real>, last: Option<real>, price: real)
    requires n > 0 && price > 0.0 && HoldsReturns(m, n, prices, window, last)
    ensures var window' := PushReturn(m, n, window, last, price);
            && window'.Some? && HoldsReturns(m, n, prices + [price], window'.value, Some(price))
            && WindowVol(m, n, window'.value) == VolatilityOf(m, n, prices + [price])
  {
    if |prices| == 0 {
      FirstPrice(m, n, window, last, price);
      assert prices + [price] == [price];
    } else {
      LaterPrice(m, n, prices, window, last, price);
      WindowFull(m, n, Returns(m, prices + [price]));
    }
  }

  lemma WindowFull(m: Maths, n: nat, rets: seq<real>)
    requires n > 0
    ensures WindowVol(m, n, LastN(rets, n)) == if |rets| >= n then Some(Std(m, LastN(rets, n))) else None
  {
  }

  lemma VolatilityWorks(m: Maths, n: nat, s: VolState, eth: seq<real>, btc: seq<real>, ethPrice: real, btcPrice: real)
    requires n > 0 && ethPrice > 0.0 && btcPrice > 0.0
    requires HoldsReturns(m, n, eth, s.eth, s.lastEth) && HoldsReturns(m, n, btc, s.btc, s.lastBtc)
    ensures VolStep(m, n, s, ethPrice, btcPrice).Some?
  {
    CoinStep(m, n, eth, s.eth, s.lastEth, ethPrice);
    CoinStep(m, n, btc, s.btc, s.lastBtc, btcPrice);
  }

  lemma VolatilityStep(m: Maths, n: nat, s: VolState, eth: seq<real>, btc: seq<real>, ethPrice: real, btcPrice: real,
                       s': VolState, vol: VolatilitySnapshot)
    requires n > 0 && ethPrice > 0.0 && btcPrice > 0.0
    requires HoldsReturns(m, n, eth, s.eth, s.lastEth) && HoldsReturns(m, n, btc, s.btc, s.lastBtc)
    requires VolStep(m, n, s, ethPrice, btcPrice) == Some((s', vol))
    ensures HoldsReturns(m, n, eth + [ethPrice], s'.eth, s'.lastEth) && HoldsReturns(m, n, btc + [btcPrice], s'.btc, s'.lastBtc)
    ensures vol == VolatilitySnapshot(VolatilityOf(m, n, eth + [ethPrice]), VolatilityOf(m, n, btc + [btcPrice]))
  {
    CoinStep(m, n, eth, s.eth, s.lastEth, ethPrice);
    CoinStep(m, n, btc, s.btc, s.lastBtc, btcPrice);
  }

  // ---- score ------------------------------------------------------------------------------------

  /** The floor of a window's deviation: the constant, or a quantile of the newest deviations once
      there are enough, or the larger of that and the weighted deviation of the window. */
  function FloorOf(m: Maths, cfg: SigmaFloorConfig, deviations: seq<real>, window: seq<real>): Option<real>
    requires 0.0 < cfg.quantileP <= 1.0
  {
    var history, weighted := LastN(deviations, MaxNat(cfg.quantileBars, 1)), EwmaStd(m, window, cfg.ewmaHalfLife);
    if cfg.mode == Const then Some(cfg.floorConst)
    else if |deviations| < MaxNat(cfg.quantileBars, 1) || (cfg.mode == EwmaMix && weighted.None?) then None
    else
      var quantile := QuantileOf(history, cfg.quantileP);
      Some(if cfg.mode == EwmaMix then MaxReal(quantile, weighted.value) else quantile)
  }

  /** The score of a series: how many effective deviations its newest value lies from the mean of its
      newest `n`, once there are so many and there is a floor. */
  ghost predicate IsScore(m: Maths, n: nat, cfg: SigmaFloorConfig, series: seq<real>, z: ZScoreSnapshot) {
    && n > 0 && 0.0 < cfg.quantileP <= 1.0 && |series| > 0 && z.r == series[|series| - 1]
    && (|series| < n ==> z.zscore.None? && z.sigma.None? && z.sigmaFloor.None?)
    && (|series| >= n ==>
          var window := LastN(series, n);
          && z.mean == Some(Mean(window)) && z.sigma == Some(Std(m, window))
          && z.sigmaFloor == FloorOf(m, cfg, Deviations(m, n, series), window)
          && (z.zscore.Some? <==> z.sigmaFloor.Some?)
          && (z.zscore.Some? ==> Deviates(z.r - Mean(window), MaxReal(Std(m, window), z.sigmaFloor.value), z.zscore.value)))
  }

  predicate Deviates(distance: real, effective: real, z: real) {
    if effective == 0.0 then z == 0.0 else z * effective == distance
  }

  ghost predicate HoldsSeries(m: Maths, n: nat, cfg: SigmaFloorConfig, series: seq<real>, s: ZState) {
    n > 0 && s.window == LastN(series, n) && s.sigmas == LastN(Deviations(m, n, series), SigmaCapacity(cfg))
  }

  lemma FloorStep(m: Maths, cfg: SigmaFloorConfig, deviations: seq<real>, window: seq<real>)
    requires 0.0 < cfg.quantileP <= 1.0
    ensures FloorValue(m, cfg, LastN(deviations, SigmaCapacity(cfg)), window) == FloorOf(m, cfg, deviations, window)
  {
  }

  lemma Quotient(r: real, mean: real, sigma: real, floor: Option<real>)
    ensures var z := ZScoreOf(r, mean, EffectiveSigma(sigma, floor));
            (z.Some? <==> floor.Some?) && (z.Some? ==> Deviates(r - mean, MaxReal(sigma, floor.value), z.value))
  {
    if floor.Some? && MaxReal(sigma, floor.value) != 0.0 {
      QuotientTimes(r - mean, MaxReal(sigma, floor.value));
    }
  }

  lemma ScoreStep(m: Maths, n: nat, cfg: SigmaFloorConfig, s: ZState, series: seq<real>, r: real, s': ZState, z: ZScoreSnapshot)
    requires 0.0 < cfg.quantileP <= 1.0 && HoldsSeries(m, n, cfg, series, s) && ZStep(m, n, cfg, s, r) == (s', z)
    ensures HoldsSeries(m, n, cfg, series + [r], s') && IsScore(m, n, cfg, series + [r], z)
  {
    OneMoreDeviation(m, n, series, r);
    PushIsLastN(series, n, r);
    if |series| + 1 >= n {
      var window := LastN(series + [r], n);
      PushIsLastN(Deviations(m, n, series), SigmaCapacity(cfg), Std(m, window));
      var sigmas := LastN(Deviations(m, n, series + [r]), SigmaCapacity(cfg));
      FloorStep(m, cfg, Deviations(m, n, series + [r]), window);
      Quotient(r, Mean(window), Std(m, window), FloorValue(m, cfg, sigmas, window));
      assert (s', z) == (ZState(window, sigmas), ZFull(m, cfg, window, sigmas, r));
    } else {
      assert Deviations(m, n, series) == [];
    }
  }

  // ---- runs -------------------------------------------------------------------------------------

  /** The windows of the pipeline hold the newest values of these series. */
  ghost predicate Holds(m: Maths, cfg: Config, s: PipelineState, eth: seq<real>, btc: seq<real>, spreads: seq<real>) {
    && HoldsReturns(m, cfg.position.nVol, eth, s.vol.eth, s.vol.lastEth)
    && HoldsReturns(m, cfg.position.nVol, btc, s.vol.btc, s.vol.lastBtc)
    && HoldsSeries(m, cfg.strategy.nZ, cfg.sigmaFloor, spreads, s.z)
  }

  /** The output measures these series. */
  ghost predicate Measures(m: Maths, cfg: Config, eth: seq<real>, btc: seq<real>, spreads: seq<real>, output: SignalOutput) {
    && cfg.position.nVol > 0 && AllPositive(eth) && AllPositive(btc)
    && output.vol.eth == VolatilityOf(m, cfg.position.nVol, eth)
    && output.vol.btc == VolatilityOf(m, cfg.position.nVol, btc)
    && IsScore(m, cfg.strategy.nZ, cfg.sigmaFloor, spreads, output.z)
  }

  /** An update at usable prices is one of the volatilities and one of the score. */
  lemma StepSplits(m: Maths, cfg: Config, s: PipelineState, tick: PriceTick)
    requires cfg.IndicatorsValid() && Usable(tick.eth, tick.btc)
    requires PipelineStep(m, cfg, s, tick).1.Some? || VolStep(m, cfg.position.nVol, s.vol, tick.eth, tick.btc).Some?
    ensures VolStep(m, cfg.position.nVol, s.vol, tick.eth, tick.btc).Some?
    ensures var vol := VolStep(m, cfg.position.nVol, s.vol, tick.eth, tick.btc).value;
            var z := ZStep(m, cfg.strategy.nZ, cfg.sigmaFloor, s.z, m.ln(tick.eth) - m.ln(tick.btc));
            var step := PipelineStep(m, cfg, s, tick);
            step.0.vol == vol.0 && step.0.z == z.0 && step.1.Some? && step.1.value.vol == vol.1 && step.1.value.z == z.1
  {
  }

  lemma StepHoldsReturns(m: Maths, cfg: Config, s: PipelineState, eth: seq<real>, btc: seq<real>, tick: PriceTick,
                         s': PipelineState, output: Option<SignalOutput>)
    requires cfg.IndicatorsValid() && Usable(tick.eth, tick.btc) && (s', output) == PipelineStep(m, cfg, s, tick)
    requires HoldsReturns(m, cfg.position.nVol, eth, s.vol.eth, s.vol.lastEth)
    requires HoldsReturns(m, cfg.position.nVol, btc, s.vol.btc, s.vol.lastBtc)
    ensures HoldsReturns(m, cfg.position.nVol, eth + [tick.eth], s'.vol.eth, s'.vol.lastEth)
    ensures HoldsReturns(m, cfg.position.nVol, btc + [tick.btc], s'.vol.btc, s'.vol.lastBtc)
    ensures output.Some?
    ensures output.value.vol == VolatilitySnapshot(VolatilityOf(m, cfg.position.nVol, eth + [tick.eth]),
                                                   VolatilityOf(m, cfg.position.nVol, btc + [tick.btc]))
  {
    VolatilityWorks(m, cfg.position.nVol, s.vol, eth, btc, tick.eth, tick.btc);
    StepSplits(m, cfg, s, tick);
    VolatilityStep(m, cfg.position.nVol, s.vol, eth, btc, tick.eth, tick.btc, s'.vol, output.value.vol);
  }

  lemma StepScores(m: Maths, cfg: Config, s: PipelineState, tick: PriceTick, s': PipelineState, output: SignalOutput)
    requires cfg.IndicatorsValid() && Usable(tick.eth, tick.btc) && (s', Some(output)) == PipelineStep(m, cfg, s, tick)
    ensures ZStep(m, cfg.strategy.nZ, cfg.sigmaFloor, s.z, m.ln(tick.eth) - m.ln(tick.btc)) == (s'.z, output.z)
  {
    StepSplits(m, cfg, s, tick);
  }

  lemma StepHoldsSeries(m: Maths, cfg: Config, s: PipelineState, spreads: seq<real>, tick: PriceTick, r: real,
                        s': PipelineState, output: SignalOutput)
    requires cfg.IndicatorsValid() && Usable(tick.eth, tick.btc) && (s', Some(output)) == PipelineStep(m, cfg, s, tick)
    requires HoldsSeries(m, cfg.strategy.nZ, cfg.sigmaFloor, spreads, s.z) && r == m.ln(tick.eth) - m.ln(tick.btc)
    ensures HoldsSeries(m, cfg.strategy.nZ, cfg.sigmaFloor, spreads + [r], s'.z)
    ensures IsScore(m, cfg.strategy.nZ, cfg.sigmaFloor, spreads + [r], output.z)
  {
    StepScores(m, cfg, s, tick, s', output);
    ScoreStep(m, cfg.strategy.nZ, cfg.sigmaFloor, s.z, spreads, r, s'.z, output.z);
  }

  lemma FreshHolds(m: Maths, cfg: Config)
    requires cfg.IndicatorsValid()
    ensures Holds(m, cfg, FRESH_PIPELINE, [], [], [])
  {
    assert Returns(m, []) == [] && Deviations(m, cfg.strategy.nZ, []) == [];
  }

  /** A usable tick extends the series, and the output measures them. */
  lemma TickHolds(m: Maths, cfg: Config, s: PipelineState, usable: seq<PriceTick>, tick: PriceTick,
                  s': PipelineState, output: Option<SignalOutput>)
    requires cfg.IndicatorsValid() && Usable(tick.eth, tick.btc) && (s', output) == PipelineStep(m, cfg, s, tick)
    requires Holds(m, cfg, s, EthPrices(usable), BtcPrices(usable), Spreads(m, usable))
    ensures var more := usable + [tick];
            && Holds(m, cfg, s', EthPrices(more), BtcPrices(more), Spreads(m, more))
            && output.Some? && Measures(m, cfg, EthPrices(more), BtcPrices(more), Spreads(m, more), output.value)
  {
    OneMoreTick(m, usable, tick);
    StepHoldsReturns(m, cfg, s, EthPrices(usable), BtcPrices(usable), tick, s', output);
    StepHoldsSeries(m, cfg, s, Spreads(m, usable), tick, m.ln(tick.eth) - m.ln(tick.btc), s', output.value);
  }

  ghost predicate RunHeld(m: Maths, cfg: Config, ticks: seq<PriceTick>, s: PipelineState) {
    var usable := UsableOf(ticks);
    Holds(m, cfg, s, EthPrices(usable), BtcPrices(usable), Spreads(m, usable))
  }

  lemma RunGoesOn(m: Maths, cfg: Config, ticks: seq<PriceTick>, s: PipelineState)
    requires cfg.IndicatorsValid() && |ticks| > 0 && RunHeld(m, cfg, ticks[..|ticks| - 1], s)
    ensures Usable(ticks[|ticks| - 1].eth, ticks[|ticks| - 1].btc) ==>
              RunHeld(m, cfg, ticks, PipelineStep(m, cfg, s, ticks[|ticks| - 1]).0)
    ensures !Usable(ticks[|ticks| - 1].eth, ticks[|ticks| - 1].btc) ==> RunHeld(m, cfg, ticks, s)
  {
    var init, last := ticks[..|ticks| - 1], ticks[|ticks| - 1];
    if Usable(last.eth, last.btc) {
      var (s', output) := PipelineStep(m, cfg, s, last);
      TickHolds(m, cfg, s, UsableOf(init), last, s', output);
    }
  }

  lemma {:induction false} RunHolds(m: Maths, cfg: Config, ticks: seq<PriceTick>)
    requires cfg.IndicatorsValid()
    ensures RunHeld(m, cfg, ticks, PipelineAfter(m, cfg, FRESH_PIPELINE, ticks))
  {
    if |ticks| == 0 {
      FreshHolds(m, cfg);
    } else {
      var init, last := ticks[..|ticks| - 1], ticks[|ticks| - 1];
      RunHolds(m, cfg, init);
      RunFailsExactly(m, cfg, init, last);
      RunGoesOn(m, cfg, ticks, PipelineAfter(m, cfg, FRESH_PIPELINE, init));
    }
  }

  /** In every run from fresh indicators, whatever prices it was fed, an update at a usable price gives
      the volatilities of either coin's own prices and the score of the price ratios, of all usable
      ticks so far. */
  lemma RunMeasuresPrices(m: Maths, cfg: Config, ticks: seq<PriceTick>, last: PriceTick)
    requires cfg.IndicatorsValid() && Usable(last.eth, last.btc)
    ensures var output := PipelineStep(m, cfg, PipelineAfter(m, cfg, FRESH_PIPELINE, ticks), last).1;
            var usable := UsableOf(ticks) + [last];
            output.Some? && Measures(m, cfg, EthPrices(usable), BtcPrices(usable), Spreads(m, usable), output.value)
  {
    RunHolds(m, cfg, ticks);
    var s := PipelineAfter(m, cfg, FRESH_PIPELINE, ticks);
    var (s', output) := PipelineStep(m, cfg, s, last);
    TickHolds(m, cfg, s, UsableOf(ticks), last, s', output);
  }

  // ---- what an entry bets on ----------------------------------------------------------------------

  lemma SqZero(d: real)
    requires Sq(d) <= 0.0
    ensures d == 0.0
  {
    SquareEven(d, 0.0);
    if d > 0.0 {
      SqPositive(d);
    } else if d < 0.0 {
      SqPositive(-d);
    }
  }

  lemma SameSign(distance: real, effective: real, z: real)
    requires effective > 0.0 && z * effective == distance
    ensures z >= 0.0 <==> distance >= 0.0
  {
    if z >= 0.0 {
      ProductOrder(0.0, z, effective, 0.0, distance);
    } else {
      ProductOrder(z, 0.0, effective, distance, 0.0);
    }
  }

  /** The sign of a score is that of the distance from the mean. */
  lemma ScoreSign(m: Maths, window: seq<real>, floor: real, z: real)
    requires m.Sound() && |window| > 0
    requires Deviates(window[|window| - 1] - Mean(window), MaxReal(Std(m, window), floor), z)
    ensures z >= 0.0 <==> window[|window| - 1] >= Mean(window)
  {
    var distance, sigma := window[|window| - 1] - Mean(window), Std(m, window);
    assert sigma >= 0.0 && Sq(sigma) == Variance(window);
    if MaxReal(sigma, floor) == 0.0 {
      NewestWithinBound(window);
      assert Variance(window) == 0.0;
      assert (|window| - 1) as real * 0.0 == 0.0;
      SqZero(distance);
    } else {
      SameSign(distance, MaxReal(sigma, floor), z);
    }
  }

  lemma EntryOfScore(m: Maths, cfg: Config, s: PipelineState, tick: PriceTick)
    requires cfg.IndicatorsValid()
    ensures var output := PipelineStep(m, cfg, s, tick).1;
            output.Some? && output.value.entry.Some? ==>
              output.value.z.zscore.Some?
              && (output.value.entry.value.direction == ShortEthLongBtc <==> output.value.z.zscore.value >= 0.0)
  {
  }

  lemma NewestIsLast(series: seq<real>, n: nat)
    requires 0 < n <= |series|
    ensures |LastN(series, n)| == n && LastN(series, n)[n - 1] == series[|series| - 1]
  {
  }

  /** In every run an entry is short ETH exactly when ETH is at least as dear, relative to BTC, as on
      average over the window, and long ETH when it is cheaper. */
  lemma EntriesBetOnTheMean(m: Maths, cfg: Config, ticks: seq<PriceTick>, last: PriceTick)
    requires m.Sound() && cfg.IndicatorsValid() && Usable(last.eth, last.btc)
    ensures var output := PipelineStep(m, cfg, PipelineAfter(m, cfg, FRESH_PIPELINE, ticks), last).1;
            var spreads := Spreads(m, UsableOf(ticks) + [last]);
            output.Some? && output.value.entry.Some? ==>
              && |spreads| >= cfg.strategy.nZ
              && (output.value.entry.value.direction == ShortEthLongBtc <==>
                    m.ln(last.eth) - m.ln(last.btc) >= Mean(LastN(spreads, cfg.strategy.nZ)))
  {
    var s := PipelineAfter(m, cfg, FRESH_PIPELINE, ticks);
    var output := PipelineStep(m, cfg, s, last).1;
    var spreads := Spreads(m, UsableOf(ticks) + [last]);
    RunMeasuresPrices(m, cfg, ticks, last);
    EntryOfScore(m, cfg, s, last);
    if output.value.entry.Some? {
      NewestIsLast(spreads, cfg.strategy.nZ);
      ScoreSign(m, LastN(spreads, cfg.strategy.nZ), output.value.z.sigmaFloor.value, output.value.z.zscore.value);
    }
  }
}
