/** The three replay loops, each proved against the trades its entry rule determines. */
module ReplayLoops {
  import opened Numbers
  import opened Trading
  import opened Replay
  import opened ReplaySummary

  const REPLAY_COST_BPS: real := 8.98

  /** Prices and weights of a bar. */
  datatype Legs = Legs(eth: real, btc: real, wEth: real, wBtc: real)

  datatype ReplayState = FlatState | CooldownState | OtherState

  datatype StatsRow = StatsRow(
    legs: Legs, zscore: real, fundingEth: Option<real>, fundingBtc: Option<real>, state: ReplayState)

  datatype FilteredRow = FilteredRow(legs: Legs, zscore: real, entryAllowed: bool)

  datatype StrategyReplay = StrategyReplay(limits: Limits, cooldownRecovery: bool, recoveryBars: nat)

  datatype CarryReplay = CarryReplay(
    limits: Limits, maxHoldHours: nat, intervalHours: nat, minNetEdgeBps: real)

  datatype OpenPosition<R> = OpenPosition(entryIndex: nat, entry: R, direction: TradeDirection, source: Source)

  // ---- pricing a trade -------------------------------------------------------------------------

  predicate Priceable(legs: Legs) {
    legs.eth != 0.0 && legs.btc != 0.0
  }

  function NetBps(direction: TradeDirection, entry: Legs, exit: Legs): real
    requires Priceable(entry)
  {
    var ethReturn := exit.eth / entry.eth - 1.0;
    var btcReturn := exit.btc / entry.btc - 1.0;
    var gross := match direction
                 case LongEthShortBtc => entry.wEth * ethReturn - entry.wBtc * btcReturn
                 case ShortEthLongBtc => -entry.wEth * ethReturn + entry.wBtc * btcReturn;
    gross * 10000.0 - REPLAY_COST_BPS
  }

  lemma MoveOf(price: real, moved: real, factor: real)
    requires price != 0.0 && moved == factor * price
    ensures moved / price == factor
  {
    TimesQuotient(factor, price);
  }

  /** A trade pays 8.98 basis points and gains from its bought leg what it weighs, and against its sold one:
      a price move `r` of a leg is worth `r` of its weight, and the moves of both add up. */
  lemma NetIsHedged(entry: Legs, moved: Legs, r: real, q: real)
    requires Priceable(entry) && moved.eth == (1.0 + r) * entry.eth && moved.btc == (1.0 + q) * entry.btc
    ensures NetBps(LongEthShortBtc, entry, moved) + 8.98 == (entry.wEth * r - entry.wBtc * q) * 10000.0
    ensures NetBps(ShortEthLongBtc, entry, moved) + 8.98 == (entry.wBtc * q - entry.wEth * r) * 10000.0
  {
    MoveOf(entry.eth, moved.eth, 1.0 + r);
    MoveOf(entry.btc, moved.btc, 1.0 + q);
    assert -entry.wEth * r == -(entry.wEth * r);
  }

  /** Funding a trade receives over a holding time. */
  function CarryForHours(entry: StatsRow, direction: TradeDirection, hours: real, intervalHours: nat): real {
    if intervalHours == 0 || entry.fundingEth.None? || entry.fundingBtc.None? then 0.0
    else
      var eth, btc := entry.fundingEth.value * entry.legs.wEth, entry.fundingBtc.value * entry.legs.wBtc;
      var cost := if direction == LongEthShortBtc then eth - btc else -eth + btc;
      -cost * (hours / intervalHours as real) * 10000.0
  }

  function CarryBps(entry: StatsRow, direction: TradeDirection, bars: nat, intervalHours: nat): real {
    CarryForHours(entry, direction, bars as real * 15.0 / 60.0, intervalHours)
  }

  /** A price for every trade. */
  type Pricing = Span -> real

  function Priced(price: Pricing, spans: seq<Span>): (trades: seq<ReplayTrade>)
    ensures |trades| == |spans|
    ensures forall k :: 0 <= k < |spans| ==>
              trades[k] == ReplayTrade(spans[k].direction, spans[k].source, spans[k].reason, price(spans[k]))
  {
    seq(|spans|, k requires 0 <= k < |spans| =>
      ReplayTrade(spans[k].direction, spans[k].source, spans[k].reason, price(spans[k])))
  }

  lemma PricedSnoc(price: Pricing, spans: seq<Span>, span: Span)
    ensures Priced(price, spans + [span])
            == Priced(price, spans) + [ReplayTrade(span.direction, span.source, span.reason, price(span))]
  {
  }

  // ---- one loop step -----------------------------------------------------------------------------

  /** The trades still to come before a bar is looked at. */
  ghost function Rest(z: seq<real>, lim: Limits, rule: EntryRule, release: Option<nat>,
                      entry: Option<(nat, Source)>, cooldownUntil: Option<nat>, idx: nat): seq<Span>
    requires entry.Some? ==> entry.value.0 < idx
  {
    if entry.Some? then Open(z, lim, rule, release, entry.value.0, entry.value.1, idx)
    else if cooldownUntil.Some? && idx < cooldownUntil.value then Idle(z, lim, rule, release, cooldownUntil.value)
    else Idle(z, lim, rule, release, idx)
  }

  function EntryOf<R>(position: Option<OpenPosition<R>>): Option<(nat, Source)> {
    if position.Some? then Some((position.value.entryIndex, position.value.source)) else None
  }

  /** What the loops keep: trades made and trades to come are the trades of the rule. */
  ghost predicate OnTrack(z: seq<real>, lim: Limits, rule: EntryRule, price: Pricing, trades: seq<ReplayTrade>,
                          entry: Option<(nat, Source)>, cooldownUntil: Option<nat>, idx: nat, done: seq<Span>, release: Option<nat>)
    requires entry.Some? ==> entry.value.0 < idx
  {
    && trades == Priced(price, done)
    && Idle(z, lim, rule, None, 0) == done + Rest(z, lim, rule, release, entry, cooldownUntil, idx)
  }

  function CooldownAfter(reason: ExitReason, idx: nat): Option<nat> {
    if reason == StopLoss then Some(idx + COOLDOWN_BARS) else None
  }

  /** Leaving a position. */
  lemma LeaveStep(z: seq<real>, lim: Limits, rule: EntryRule, price: Pricing, trades: seq<ReplayTrade>,
                  idx: nat, done: seq<Span>, release: Option<nat>, span: Span)
    requires span.entry < idx < |z| && span.exit == idx && span.direction == DirectionOf(z[span.entry])
    requires ExitReasonAt(lim, z[idx], idx - span.entry) == Some(span.reason)
    requires OnTrack(z, lim, rule, price, trades, Some((span.entry, span.source)), None, idx, done, release)
    ensures OnTrack(z, lim, rule, price,
                    trades + [ReplayTrade(span.direction, span.source, span.reason, price(span))],
                    None, CooldownAfter(span.reason, idx), idx, done + [span], Release(span, release))
    ensures span in Idle(z, lim, rule, None, 0)
  {
    PricedSnoc(price, done, span);
    var rest := Rest(z, lim, rule, Release(span, release), None, CooldownAfter(span.reason, idx), idx);
    assert Open(z, lim, rule, release, span.entry, span.source, idx) == [span] + rest;
    assert done + ([span] + rest) == (done + [span]) + rest;
  }

  lemma StayStep(z: seq<real>, lim: Limits, rule: EntryRule, price: Pricing, trades: seq<ReplayTrade>,
                 entry: nat, source: Source, idx: nat, done: seq<Span>, release: Option<nat>)
    requires entry < idx < |z| && ExitReasonAt(lim, z[idx], idx - entry) == None
    requires OnTrack(z, lim, rule, price, trades, Some((entry, source)), None, idx, done, release)
    ensures OnTrack(z, lim, rule, price, trades, Some((entry, source)), None, idx + 1, done, release)
  {
  }

  /** A bar without a position enters unless the cooldown holds or the rule declines. */
  lemma IdleStep(z: seq<real>, lim: Limits, rule: EntryRule, price: Pricing, trades: seq<ReplayTrade>,
                 cooldownUntil: Option<nat>, idx: nat, done: seq<Span>, release: Option<nat>)
    requires idx < |z| && OnTrack(z, lim, rule, price, trades, None, cooldownUntil, idx, done, release)
    ensures var cooling := cooldownUntil.Some? && idx < cooldownUntil.value;
            var entered := if cooling || rule(idx, release) == None then None else Some((idx, rule(idx, release).value));
            OnTrack(z, lim, rule, price, trades, entered, if cooling then cooldownUntil else None, idx + 1, done, release)
  {
  }

  lemma EndStep(z: seq<real>, lim: Limits, rule: EntryRule, price: Pricing, trades: seq<ReplayTrade>,
                entry: Option<(nat, Source)>, cooldownUntil: Option<nat>, done: seq<Span>, release: Option<nat>)
    requires (entry.Some? ==> entry.value.0 < |z|) && OnTrack(z, lim, rule, price, trades, entry, cooldownUntil, |z|, done, release)
    ensures trades == Priced(price, Idle(z, lim, rule, None, 0))
  {
    assert done + [] == done;
  }

  // ---- entry rules -----------------------------------------------------------------------------

  function FilteredZ(rows: seq<FilteredRow>): (z: seq<real>)
    ensures |z| == |rows| && forall i :: 0 <= i < |rows| ==> z[i] == rows[i].zscore
  {
    seq(|rows|, i requires 0 <= i < |rows| => rows[i].zscore)
  }

  function StatsZ(rows: seq<StatsRow>): (z: seq<real>)
    ensures |z| == |rows| && forall i :: 0 <= i < |rows| ==> z[i] == rows[i].zscore
  {
    seq(|rows|, i requires 0 <= i < |rows| => rows[i].zscore)
  }

  /** Enter on an allowed crossing. */
  function FilteredEntry(rows: seq<FilteredRow>, lim: Limits, i: nat): Option<Source> {
    if i < |rows| && rows[i].entryAllowed && Crosses(lim, FilteredZ(rows), i) then Some(Cross) else None
  }

  function FilteredRule(rows: seq<FilteredRow>, lim: Limits): EntryRule {
    (i: nat, release: Option<nat>) => FilteredEntry(rows, lim, i)
  }

  function FilteredPrice(rows: seq<FilteredRow>): Pricing {
    (span: Span) =>
      if span.entry < |rows| && span.exit < |rows| && Priceable(rows[span.entry].legs)
      then NetBps(span.direction, rows[span.entry].legs, rows[span.exit].legs) else 0.0
  }

  function FilteredSpans(rows: seq<FilteredRow>, lim: Limits): seq<Span> {
    Idle(FilteredZ(rows), lim, FilteredRule(rows, lim), None, 0)
  }

  function FilteredTrades(rows: seq<FilteredRow>, lim: Limits): seq<ReplayTrade> {
    Priced(FilteredPrice(rows), FilteredSpans(rows, lim))
  }

  /** The logged machine leaves its cooldown at a bar, or the replay's own cooldown ends there. */
  predicate ReleasedAt(rows: seq<StatsRow>, release: Option<nat>, i: nat)
    requires i < |rows|
  {
    || (i > 0 && rows[i - 1].state == CooldownState && rows[i].state == FlatState)
    || release == Some(i)
  }

  /** The recovery age after one bar. */
  function NextAge(lim: Limits, zscore: real, released: bool, age: Option<nat>): Option<nat> {
    if !InEntryZone(lim, zscore) then None
    else if released then Some(1)
    else if age.Some? then Some(age.value + 1)
    else None
  }

  /** Bars in the entry zone since the last release, counting the release bar. */
  function RecoveryAge(rows: seq<StatsRow>, lim: Limits, release: Option<nat>, i: nat): Option<nat>
    requires i < |rows|
  {
    NextAge(lim, rows[i].zscore, ReleasedAt(rows, release, i), if i == 0 then None else RecoveryAge(rows, lim, release, i - 1))
  }

  /** The age is k exactly when the last k bars were all in the zone, the first of them was a
      release and none after it was. */
  lemma {:induction false} RecoveryAgeIsTrace(rows: seq<StatsRow>, lim: Limits, release: Option<nat>, i: nat, k: nat)
    requires i < |rows|
    ensures RecoveryAge(rows, lim, release, i) == Some(k) <==>
            && 1 <= k <= i + 1
            && (forall j :: i - k < j <= i ==> InEntryZone(lim, rows[j].zscore))
            && ReleasedAt(rows, release, i - k + 1)
            && (forall j :: i - k + 1 < j <= i ==> !ReleasedAt(rows, release, j))
  {
    if InEntryZone(lim, rows[i].zscore) && !ReleasedAt(rows, release, i) && i > 0 && k > 1 {
      RecoveryAgeIsTrace(rows, lim, release, i - 1, k - 1);
    } else if k <= 1 && i > 0 && RecoveryAge(rows, lim, release, i - 1).Some? {
      RecoveryAgeIsTrace(rows, lim, release, i - 1, RecoveryAge(rows, lim, release, i - 1).value);
    }
  }

  /** Enter on a crossing, or on the way back within some bars of a released cooldown. */
  function SourceOf(config: StrategyReplay, zscore: real, prevZ: Option<real>, age: Option<nat>): Option<Source> {
    if prevZ.None? then None
    else if Abs(prevZ.value) < config.limits.entryZ && InEntryZone(config.limits, zscore) then Some(Cross)
    else if config.cooldownRecovery && age.Some? && age.value <= config.recoveryBars && Abs(zscore) <= Abs(prevZ.value)
    then Some(CooldownRecovery)
    else None
  }

  function PrevZ(rows: seq<StatsRow>, i: nat): Option<real>
    requires i <= |rows|
  {
    if i == 0 then None else Some(rows[i - 1].zscore)
  }

  function StrategyEntry(rows: seq<StatsRow>, config: StrategyReplay, i: nat, release: Option<nat>): Option<Source> {
    if i >= |rows| then None
    else SourceOf(config, rows[i].zscore, PrevZ(rows, i), RecoveryAge(rows, config.limits, release, i))
  }

  function StrategyRule(rows: seq<StatsRow>, config: StrategyReplay): EntryRule {
    (i: nat, release: Option<nat>) => StrategyEntry(rows, config, i, release)
  }

  function StrategyPrice(rows: seq<StatsRow>): Pricing {
    (span: Span) =>
      if span.entry < |rows| && span.exit < |rows| && Priceable(rows[span.entry].legs)
      then NetBps(span.direction, rows[span.entry].legs, rows[span.exit].legs) else 0.0
  }

  function StrategySpans(rows: seq<StatsRow>, config: StrategyReplay): seq<Span> {
    Idle(StatsZ(rows), config.limits, StrategyRule(rows, config), None, 0)
  }

  function StrategyTrades(rows: seq<StatsRow>, config: StrategyReplay): seq<ReplayTrade> {
    Priced(StrategyPrice(rows), StrategySpans(rows, config))
  }

  /** Enter on a crossing, if its expected carry passes the gate or the gate is off. */
  function CarryEntry(rows: seq<StatsRow>, config: CarryReplay, enforceGate: bool, i: nat): Option<Source> {
    if i < |rows| && Crosses(config.limits, StatsZ(rows), i) && (enforceGate ==> GatePasses(rows[i], config))
    then Some(if enforceGate then FundingCarryGate else Cross)
    else None
  }

  predicate GatePasses(row: StatsRow, config: CarryReplay) {
    CarryForHours(row, DirectionOf(row.zscore), config.maxHoldHours as real, config.intervalHours) >= config.minNetEdgeBps
  }

  function CarryRule(rows: seq<StatsRow>, config: CarryReplay, enforceGate: bool): EntryRule {
    (i: nat, release: Option<nat>) => CarryEntry(rows, config, enforceGate, i)
  }

  /** The carry of a trade over its bars. */
  function SpanCarry(rows: seq<StatsRow>, config: CarryReplay, span: Span): real {
    if span.entry < |rows| && span.entry <= span.exit
    then CarryBps(rows[span.entry], span.direction, span.exit - span.entry, config.intervalHours) else 0.0
  }

  function CarryPrice(rows: seq<StatsRow>, config: CarryReplay): Pricing {
    (span: Span) => StrategyPrice(rows)(span) + SpanCarry(rows, config, span)
  }

  function CarrySpans(rows: seq<StatsRow>, config: CarryReplay, enforceGate: bool): seq<Span> {
    Idle(StatsZ(rows), config.limits, CarryRule(rows, config, enforceGate), None, 0)
  }

  function CarryTrades(rows: seq<StatsRow>, config: CarryReplay, enforceGate: bool): seq<ReplayTrade> {
    Priced(CarryPrice(rows, config), CarrySpans(rows, config, enforceGate))
  }

  /** The entry prices of the trades are not zero, so pricing them does not divide by zero. */
  predicate FilteredPriceable(rows: seq<FilteredRow>, spans: seq<Span>) {
    forall span :: span in spans && span.entry < |rows| ==> Priceable(rows[span.entry].legs)
  }

  predicate StatsPriceable(rows: seq<StatsRow>, spans: seq<Span>) {
    forall span :: span in spans && span.entry < |rows| ==> Priceable(rows[span.entry].legs)
  }

  // ---- the filtered replay -----------------------------------------------------------------------

  method ReplayFilteredStrategy(rows: seq<FilteredRow>, lim: Limits) returns (summary: Summary)
    requires FilteredPriceable(rows, FilteredSpans(rows, lim))
    ensures Summarizes(summary, FilteredTrades(rows, lim))
  {
    var trades := FilteredLoop(rows, lim);
    summary := SummarizeReplayTrades(trades);
  }

  /** The trades with the one that closes at this bar. */
  method CloseFilteredTrade(rows: seq<FilteredRow>, lim: Limits, trades: seq<ReplayTrade>, open: OpenPosition<FilteredRow>,
                            idx: nat, reason: ExitReason, ghost done: seq<Span>, ghost release: Option<nat>)
    returns (more: seq<ReplayTrade>)
    requires open.entryIndex < idx < |rows| && Holds(FilteredZ(rows), rows, open)
    requires FilteredPriceable(rows, FilteredSpans(rows, lim))
    requires ExitReasonAt(lim, rows[idx].zscore, idx - open.entryIndex) == Some(reason)
    requires OnTrack(FilteredZ(rows), lim, FilteredRule(rows, lim), FilteredPrice(rows), trades,
                     Some((open.entryIndex, open.source)), None, idx, done, release)
    ensures var span := Span(open.entryIndex, idx, open.direction, open.source, reason);
            OnTrack(FilteredZ(rows), lim, FilteredRule(rows, lim), FilteredPrice(rows), more,
                    None, CooldownAfter(reason, idx), idx, done + [span], Release(span, release))
  {
    ghost var span := Span(open.entryIndex, idx, open.direction, open.source, reason);
    LeaveStep(FilteredZ(rows), lim, FilteredRule(rows, lim), FilteredPrice(rows), trades, idx, done, release, span);
    more := trades + [ReplayTrade(open.direction, open.source, reason, NetBps(open.direction, open.entry.legs, rows[idx].legs))];
  }

  method FilteredLoop(rows: seq<FilteredRow>, lim: Limits) returns (trades: seq<ReplayTrade>)
    requires FilteredPriceable(rows, FilteredSpans(rows, lim))
    ensures trades == FilteredTrades(rows, lim)
  {
    ghost var z, rule, price := FilteredZ(rows), FilteredRule(rows, lim), FilteredPrice(rows);
    ghost var done, release: Option<nat> := [], None;
    var position: Option<OpenPosition<FilteredRow>> := None;
    trades := [];
    var prevZ: Option<real> := None;
    var cooldownUntil: Option<nat> := None;
    for idx := 0 to |rows|
      invariant prevZ == if idx == 0 then None else Some(z[idx - 1])
      invariant position.Some? ==> position.value.entryIndex < idx && Holds(z, rows, position.value)
      invariant cooldownUntil.Some? ==> position.None?
      invariant OnTrack(z, lim, rule, price, trades, EntryOf(position), cooldownUntil, idx, done, release)
    {
      var row := rows[idx];
      var justExitedStop := false;
      if position.Some? {
        var open := position.value;
        var reason := ExitReasonAt(lim, row.zscore, idx - open.entryIndex);
        if reason.Some? {
          ghost var span := Span(open.entryIndex, idx, open.direction, open.source, reason.value);
          trades := CloseFilteredTrade(rows, lim, trades, open, idx, reason.value, done, release);
          done, release := done + [span], Release(span, release);
          position := None;
          if reason == Some(StopLoss) {
            cooldownUntil := Some(idx + COOLDOWN_BARS);
            justExitedStop := true;
          }
        } else {
          StayStep(z, lim, rule, price, trades, open.entryIndex, open.source, idx, done, release);
        }
      }
      if position.None? {
        IdleStep(z, lim, rule, price, trades, cooldownUntil, idx, done, release);
      }
      var cooldownActive := false;
      if cooldownUntil.Some? {
        if idx < cooldownUntil.value {
          cooldownActive := true;
        } else {
          cooldownUntil := None;
        }
      }
      var absZ := Abs(row.zscore);
      var crossed := prevZ.Some? && Abs(prevZ.value) < lim.entryZ && absZ >= lim.entryZ && absZ < lim.slZ;
      if position.None? && !cooldownActive && !justExitedStop && row.entryAllowed && crossed {
        position := Some(OpenPosition(idx, row, DirectionOf(row.zscore), Cross));
      }
      prevZ := Some(row.zscore);
    }
    EndStep(z, lim, rule, price, trades, EntryOf(position), cooldownUntil, done, release);
  }

  /** An open position is the entry bar's row and direction. */
  ghost predicate Holds(z: seq<real>, rows: seq<FilteredRow>, open: OpenPosition<FilteredRow>)
    requires |z| == |rows|
  {
    open.entryIndex < |rows| && open.entry == rows[open.entryIndex] && open.direction == DirectionOf(z[open.entryIndex])
  }

  // ---- the price-only replay -----------------------------------------------------------------------

  method ReplayStrategy(rows: seq<StatsRow>, config: StrategyReplay) returns (summary: Summary)
    requires StatsPriceable(rows, StrategySpans(rows, config))
    ensures Summarizes(summary, StrategyTrades(rows, config))
  {
    var trades := StrategyLoop(rows, config);
    summary := SummarizeReplayTrades(trades);
  }

  /** What the loop knows of the recovery age before a bar; right after a stop-loss exit, at a bar
      outside the entry zone, it need not know anything. */
  ghost predicate AgeKnown(rows: seq<StatsRow>, lim: Limits, release: Option<nat>, age: Option<nat>, idx: nat)
    requires idx < |rows|
  {
    InEntryZone(lim, rows[idx].zscore) ==> age == AgeBefore(rows, lim, release, idx)
  }

  /** The entry the bar offers, and the recovery age it leaves. */
  method OfferedEntry(rows: seq<StatsRow>, config: StrategyReplay, ghost release: Option<nat>, prevZ: Option<real>,
                      recoveryAge: Option<nat>, released: bool, idx: nat)
    returns (source: Option<Source>, nextRecoveryAge: Option<nat>)
    requires idx < |rows| && AgeKnown(rows, config.limits, release, recoveryAge, idx)
    requires prevZ == PrevZ(rows, idx) && released == ReleasedAt(rows, release, idx)
    ensures source == StrategyRule(rows, config)(idx, release)
    ensures nextRecoveryAge == AgeBefore(rows, config.limits, release, idx + 1)
  {
    nextRecoveryAge := NextAge(config.limits, rows[idx].zscore, released, recoveryAge);
    source := SourceOf(config, rows[idx].zscore, prevZ, nextRecoveryAge);
  }

  function AgeBefore(rows: seq<StatsRow>, lim: Limits, release: Option<nat>, idx: nat): Option<nat>
    requires idx <= |rows|
  {
    if idx == 0 then None else RecoveryAge(rows, lim, release, idx - 1)
  }

  lemma StrategyPriced(rows: seq<StatsRow>, span: Span)
    requires span.entry < span.exit < |rows| && Priceable(rows[span.entry].legs)
    ensures StrategyPrice(rows)(span) == NetBps(span.direction, rows[span.entry].legs, rows[span.exit].legs)
  {
  }

  /** The trades with the one that closes at this bar. */
  method CloseStrategyTrade(rows: seq<StatsRow>, config: StrategyReplay, trades: seq<ReplayTrade>, open: OpenPosition<StatsRow>,
                            idx: nat, reason: ExitReason, ghost done: seq<Span>, ghost release: Option<nat>)
    returns (more: seq<ReplayTrade>)
    requires open.entryIndex < idx < |rows| && Entered(StatsZ(rows), rows, open)
    requires StatsPriceable(rows, StrategySpans(rows, config))
    requires ExitReasonAt(config.limits, rows[idx].zscore, idx - open.entryIndex) == Some(reason)
    requires OnTrack(StatsZ(rows), config.limits, StrategyRule(rows, config), StrategyPrice(rows), trades,
                     Some((open.entryIndex, open.source)), None, idx, done, release)
    ensures var span := Span(open.entryIndex, idx, open.direction, open.source, reason);
            OnTrack(StatsZ(rows), config.limits, StrategyRule(rows, config), StrategyPrice(rows), more,
                    None, CooldownAfter(reason, idx), idx, done + [span], Release(span, release))
  {
    ghost var span := Span(open.entryIndex, idx, open.direction, open.source, reason);
    LeaveStep(StatsZ(rows), config.limits, StrategyRule(rows, config), StrategyPrice(rows), trades, idx, done, release, span);
    StrategyPriced(rows, span);
    more := trades + [ReplayTrade(open.direction, open.source, reason, NetBps(open.direction, open.entry.legs, rows[idx].legs))];
  }

  method StrategyLoop(rows: seq<StatsRow>, config: StrategyReplay) returns (trades: seq<ReplayTrade>)
    requires StatsPriceable(rows, StrategySpans(rows, config))
    ensures trades == StrategyTrades(rows, config)
  {
    var lim := config.limits;
    ghost var z, rule, price := StatsZ(rows), StrategyRule(rows, config), StrategyPrice(rows);
    ghost var done, release: Option<nat> := [], None;
    var position: Option<OpenPosition<StatsRow>> := None;
    trades := [];
    var prevZ: Option<real> := None;
    var prevState: Option<ReplayState> := None;
    var recoveryAge: Option<nat> := None;
    var cooldownUntil: Option<nat> := None;
    for idx := 0 to |rows|
      invariant prevZ == PrevZ(rows, idx)
      invariant prevState == if idx == 0 then None else Some(rows[idx - 1].state)
      invariant recoveryAge == AgeBefore(rows, lim, release, idx)
      invariant position.Some? ==> position.value.entryIndex < idx && Entered(z, rows, position.value)
      invariant cooldownUntil.Some? ==> position.None? && release == cooldownUntil && idx <= cooldownUntil.value
      invariant cooldownUntil.None? && release.Some? ==> release.value < idx
      invariant OnTrack(z, lim, rule, price, trades, EntryOf(position), cooldownUntil, idx, done, release)
    {
      var row := rows[idx];
      var justExitedStop := false;
      if position.Some? {
        var open := position.value;
        var reason := ExitReasonAt(lim, row.zscore, idx - open.entryIndex);
        if reason.Some? {
          ghost var span := Span(open.entryIndex, idx, open.direction, open.source, reason.value);
          trades := CloseStrategyTrade(rows, config, trades, open, idx, reason.value, done, release);
          done, release := done + [span], Release(span, release);
          position := None;
          if reason == Some(StopLoss) {
            cooldownUntil := Some(idx + COOLDOWN_BARS);
            justExitedStop := true;
          }
        } else {
          StayStep(z, lim, rule, price, trades, open.entryIndex, open.source, idx, done, release);
        }
      }
      if position.None? {
        IdleStep(z, lim, rule, price, trades, cooldownUntil, idx, done, release);
      }
      var simulatedCooldownReleased := false;
      var cooldownActive := false;
      if cooldownUntil.Some? {
        if idx < cooldownUntil.value {
          cooldownActive := true;
        } else {
          cooldownUntil := None;
          simulatedCooldownReleased := true;
        }
      }
      var actualCooldownReleased := prevState == Some(CooldownState) && row.state == FlatState;
      var source, nextRecoveryAge := OfferedEntry(
        rows, config, release, prevZ, recoveryAge, actualCooldownReleased || simulatedCooldownReleased, idx);
      if position.None? && !cooldownActive && !justExitedStop && source.Some? {
        position := Some(OpenPosition(idx, row, DirectionOf(row.zscore), source.value));
      }
      prevZ := Some(row.zscore);
      prevState := Some(row.state);
      recoveryAge := nextRecoveryAge;
    }
    EndStep(z, lim, rule, price, trades, EntryOf(position), cooldownUntil, done, release);
  }

  ghost predicate Entered(z: seq<real>, rows: seq<StatsRow>, open: OpenPosition<StatsRow>)
    requires |z| == |rows|
  {
    open.entryIndex < |rows| && open.entry == rows[open.entryIndex] && open.direction == DirectionOf(z[open.entryIndex])
  }

  // ---- the funding-carry replay ---------------------------------------------------------------------

  method ReplayFundingCarryStrategy(rows: seq<StatsRow>, config: CarryReplay, enforceGate: bool) returns (summary: Summary)
    requires StatsPriceable(rows, CarrySpans(rows, config, enforceGate))
    ensures Summarizes(summary, CarryTrades(rows, config, enforceGate))
  {
    var trades := CarryLoop(rows, config, enforceGate);
    summary := SummarizeReplayTrades(trades);
  }

  lemma CarryPriced(rows: seq<StatsRow>, config: CarryReplay, span: Span, plain: real, carry: real)
    requires span.entry < span.exit && plain == StrategyPrice(rows)(span) && carry == SpanCarry(rows, config, span)
    ensures CarryPrice(rows, config)(span) == plain + carry
  {
  }

  /** The trades with the one that closes at this bar and the funding it received. */
  method CloseCarryTrade(rows: seq<StatsRow>, config: CarryReplay, enforceGate: bool, trades: seq<ReplayTrade>,
                         open: OpenPosition<StatsRow>, idx: nat, reason: ExitReason, ghost done: seq<Span>, ghost release: Option<nat>)
    returns (more: seq<ReplayTrade>)
    requires open.entryIndex < idx < |rows| && Entered(StatsZ(rows), rows, open)
    requires StatsPriceable(rows, CarrySpans(rows, config, enforceGate))
    requires ExitReasonAt(config.limits, rows[idx].zscore, idx - open.entryIndex) == Some(reason)
    requires OnTrack(StatsZ(rows), config.limits, CarryRule(rows, config, enforceGate), CarryPrice(rows, config), trades,
                     Some((open.entryIndex, open.source)), None, idx, done, release)
    ensures var span := Span(open.entryIndex, idx, open.direction, open.source, reason);
            OnTrack(StatsZ(rows), config.limits, CarryRule(rows, config, enforceGate), CarryPrice(rows, config), more,
                    None, CooldownAfter(reason, idx), idx, done + [span], Release(span, release))
  {
    ghost var span := Span(open.entryIndex, idx, open.direction, open.source, reason);
    LeaveStep(StatsZ(rows), config.limits, CarryRule(rows, config, enforceGate), CarryPrice(rows, config), trades, idx,
              done, release, span);
    var plain := NetBps(open.direction, open.entry.legs, rows[idx].legs);
    var carry := CarryBps(open.entry, open.direction, idx - open.entryIndex, config.intervalHours);
    StrategyPriced(rows, span);
    CarryPriced(rows, config, span, plain, carry);
    more := trades + [ReplayTrade(open.direction, open.source, reason, plain + carry)];
  }

  method CarryLoop(rows: seq<StatsRow>, config: CarryReplay, enforceGate: bool) returns (trades: seq<ReplayTrade>)
    requires StatsPriceable(rows, CarrySpans(rows, config, enforceGate))
    ensures trades == CarryTrades(rows, config, enforceGate)
  {
    var lim := config.limits;
    ghost var z, rule, price := StatsZ(rows), CarryRule(rows, config, enforceGate), CarryPrice(rows, config);
    ghost var done, release: Option<nat> := [], None;
    var position: Option<OpenPosition<StatsRow>> := None;
    trades := [];
    var prevZ: Option<real> := None;
    var cooldownUntil: Option<nat> := None;
    for idx := 0 to |rows|
      invariant prevZ == if idx == 0 then None else Some(z[idx - 1])
      invariant position.Some? ==> position.value.entryIndex < idx && Entered(z, rows, position.value)
      invariant cooldownUntil.Some? ==> position.None?
      invariant OnTrack(z, lim, rule, price, trades, EntryOf(position), cooldownUntil, idx, done, release)
    {
      var row := rows[idx];
      var justExitedStop := false;
      if position.Some? {
        var open := position.value;
        var reason := ExitReasonAt(lim, row.zscore, idx - open.entryIndex);
        if reason.Some? {
          ghost var span := Span(open.entryIndex, idx, open.direction, open.source, reason.value);
          trades := CloseCarryTrade(rows, config, enforceGate, trades, open, idx, reason.value, done, release);
          done, release := done + [span], Release(span, release);
          position := None;
          if reason == Some(StopLoss) {
            cooldownUntil := Some(idx + COOLDOWN_BARS);
            justExitedStop := true;
          }
        } else {
          StayStep(z, lim, rule, price, trades, open.entryIndex, open.source, idx, done, release);
        }
      }
      if position.None? {
        IdleStep(z, lim, rule, price, trades, cooldownUntil, idx, done, release);
      }
      var cooldownActive := false;
      if cooldownUntil.Some? {
        if idx < cooldownUntil.value {
          cooldownActive := true;
        } else {
          cooldownUntil := None;
        }
      }
      var absZ := Abs(row.zscore);
      var crossed := prevZ.Some? && Abs(prevZ.value) < lim.entryZ && absZ >= lim.entryZ && absZ < lim.slZ;
      if position.None? && !cooldownActive && !justExitedStop && crossed {
        var direction := DirectionOf(row.zscore);
        var carryGatePass := !enforceGate || GatePasses(row, config);
        if carryGatePass {
          position := Some(OpenPosition(idx, row, direction, if enforceGate then FundingCarryGate else Cross));
        }
      }
      prevZ := Some(row.zscore);
    }
    EndStep(z, lim, rule, price, trades, EntryOf(position), cooldownUntil, done, release);
  }
}
