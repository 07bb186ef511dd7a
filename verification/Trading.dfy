/** The vocabulary of the program: directions, reasons, orders and the configuration. */
module Trading {
  datatype Option<+T> = None | Some(value: T)

  datatype TradeDirection = LongEthShortBtc | ShortEthLongBtc
  datatype ExitReason = TakeProfit | StopLoss | TimeStop
  datatype Symbol = EthPerp | BtcPerp
  datatype StrategyStatus = Flat | PendingEntry | InPosition | Cooldown
  datatype OrderType = Market | Limit | PostOnly

  datatype EntrySignal = EntrySignal(direction: TradeDirection, zscore: real)
  datatype ExitSignal = ExitSignal(reason: ExitReason, zscore: real)

  /** Times are whole seconds; a bar closes every 900 of them. */
  const BAR_SECS: int := 900

  /** A quotient over a positive base; absent without one. */
  function Ratio(part: real, whole: real): Option<real> {
    if whole > 0.0 then Some(part / whole) else None
  }

  /** The direction an entry at this score takes. */
  function DirectionOf(zscore: real): TradeDirection {
    if zscore >= 0.0 then ShortEthLongBtc else LongEthShortBtc
  }

  // ---- configuration -------------------------------------------------------

  datatype SigmaFloorMode = Const | Quantile | EwmaMix
  datatype CapitalMode = FixedNotional | EquityRatio
  datatype MinSizePolicy = Skip | Adjust
  datatype RoundingMode = FloorMode | CeilMode | RoundMode

  datatype StrategyConfig = StrategyConfig(nZ: nat, entryZ: real, tpZ: real, slZ: real)

  datatype StaleCrossConfig = StaleCrossConfig(enabled: bool, maxAgeBars: nat, requireReverting: bool)

  datatype PersistentExtremeConfig = PersistentExtremeConfig(
    enabled: bool, minAbsZ: real, allowLongEthShortBtc: bool, allowShortEthLongBtc: bool)

  /** `quantileBars` is the configured number of days times 96 bars per day. */
  datatype SigmaFloorConfig = SigmaFloorConfig(
    mode: SigmaFloorMode, floorConst: real, quantileBars: nat, quantileP: real, ewmaHalfLife: nat)

  datatype RiskConfig = RiskConfig(maxHoldHours: nat, cooldownHours: nat, confirmBarsTp: nat)

  datatype PositionConfig = PositionConfig(
    nVol: nat, cMode: CapitalMode, cValue: Option<real>, equityValue: Option<real>,
    equityRatioK: Option<real>, maxNotional: Option<real>, minSizePolicy: MinSizePolicy)

  datatype InstrumentConstraints = InstrumentConstraints(
    minQty: real, minNotional: real, stepSize: real, qtyPrecision: nat, roundingMode: RoundingMode)

  datatype ExecutionConfig = ExecutionConfig(
    orderType: OrderType, slippageBps: nat, postOnlyBps: nat, postOnlyTtlSecs: nat,
    maxAttempts: nat)

  datatype SizingMultipliers = SizingMultipliers(longEthShortBtc: real, shortEthLongBtc: real)

  datatype BacktestConfig = BacktestConfig(
    includeFees: bool, feeBps: nat, includeSlippage: bool, slippageBps: nat, includeFunding: bool)

  /** Which of the recorded prices of a bar to use. */
  datatype PriceField = MidField | MarkField | CloseField

  function Or<T>(a: Option<T>, b: Option<T>): Option<T> {
    if a.Some? then a else b
  }

  /** The preferred price, or the next best recorded one. */
  function SelectPrice(field: PriceField, mid: Option<real>, mark: Option<real>, close: Option<real>): (p: Option<real>)
    ensures p.None? <==> mid.None? && mark.None? && close.None?
    ensures (field == MidField && mid.Some? ==> p == mid) && (field == MarkField && mark.Some? ==> p == mark)
    ensures (field == CloseField && close.Some? ==> p == close) && (mid.None? && close.None? ==> p == mark)
  {
    match field
    case MidField => Or(mid, Or(mark, close))
    case MarkField => Or(mark, Or(mid, close))
    case CloseField => Or(close, Or(mid, mark))
  }

  /** What the price store keeps of a coin at a time, and the price taken from it. */
  datatype StoredPrices = StoredPrices(mid: Option<real>, mark: Option<real>, close: Option<real>)
  {
    function Selected(field: PriceField): Option<real> {
      SelectPrice(field, mid, mark, close)
    }
  }

  datatype PriceRecord = PriceRecord(time: int, eth: StoredPrices, btc: StoredPrices)

  datatype Config = Config(
    strategy: StrategyConfig, staleCross: StaleCrossConfig, extreme: PersistentExtremeConfig,
    sigmaFloor: SigmaFloorConfig, risk: RiskConfig, position: PositionConfig,
    eth: InstrumentConstraints, btc: InstrumentConstraints, execution: ExecutionConfig,
    multipliers: SizingMultipliers, backtest: BacktestConfig, priceField: PriceField)
  {
    /** What the indicator constructors check. */
    predicate IndicatorsValid() {
      && strategy.nZ > 0 && position.nVol > 0
      && sigmaFloor.floorConst > 0.0
      && 0.0 < sigmaFloor.quantileP <= 1.0
      && sigmaFloor.ewmaHalfLife > 0
    }

    /** The inequalities of configuration validation that the model relies on. */
    predicate Valid() {
      && IndicatorsValid()
      && strategy.tpZ < strategy.entryZ < strategy.slZ
      && (extreme.enabled ==> 0.0 < extreme.minAbsZ < strategy.slZ)
      && sigmaFloor.quantileBars > 0
      && (position.cMode == FixedNotional ==> position.cValue.Some?)
      && (position.cMode == EquityRatio ==> position.equityRatioK.Some?)
      && (position.maxNotional.Some? ==> position.maxNotional.value > 0.0)
      && multipliers.longEthShortBtc > 0.0 && multipliers.shortEthLongBtc > 0.0
      && eth.minQty > 0.0 && eth.stepSize > 0.0
      && btc.minQty > 0.0 && btc.stepSize > 0.0
    }
  }
}
