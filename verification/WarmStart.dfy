/** What an engine has seen of the market, and why a restarted one decides like one that never stopped. */
module WarmStart {
  import opened Numbers
  import opened Trading
  import opened State
  import opened Indicators
  import opened Pipeline
  import opened PriceSeries
  import opened Restart
  import opened Execution
  import opened Strategy
  import opened EngineInvariants
  import R = Runs

  // ---- the order of a replay --------------------------------------------------------------------

  predicate Chronological(records: seq<PriceRecord>) {
    forall i, j :: 0 <= i < j < |records| ==> records[i].time <= records[j].time
  }

  /** The records of one time, in their order. */
  function OfTime(records: seq<PriceRecord>, time: int): seq<PriceRecord> {
    if |records| == 0 then [] else IfOfTime(records[0], time) + OfTime(records[1..], time)
  }

  function IfOfTime(r: PriceRecord, time: int): seq<PriceRecord> {
    if r.time == time then [r] else []
  }

  lemma Associative<T>(a: seq<T>, b: seq<T>, c: seq<T>)
    ensures a + (b + c) == (a + b) + c
  {
  }

  lemma OfTimeCons(first: PriceRecord, rest: seq<PriceRecord>, time: int)
    ensures OfTime([first] + rest, time) == IfOfTime(first, time) + OfTime(rest, time)
  {
    assert ([first] + rest)[1..] == rest;
  }

  lemma {:induction false} OfTimeSnoc(records: seq<PriceRecord>, last: PriceRecord, time: int)
    ensures OfTime(records + [last], time) == OfTime(records, time) + IfOfTime(last, time)
  {
    if |records| == 0 {
      assert records + [last] == [last] + [];
      OfTimeCons(last, [], time);
    } else {
      var first, rest := records[0], records[1..];
      OfTimeSnoc(rest, last, time);
      assert records + [last] == [first] + (rest + [last]);
      OfTimeCons(first, rest + [last], time);
      Associative(IfOfTime(first, time), OfTime(rest, time), IfOfTime(last, time));
    }
  }

  lemma {:induction false} NoneOfTime(records: seq<PriceRecord>, time: int)
    requires forall i :: 0 <= i < |records| ==> records[i].time != time
    ensures OfTime(records, time) == []
  {
    if |records| > 0 {
      NoneOfTime(records[1..], time);
    }
  }

  lemma {:induction false} InsertKeepsFirst(records: seq<PriceRecord>, r: PriceRecord, low: int)
    requires low <= r.time && forall i :: 0 <= i < |records| ==> low <= records[i].time
    ensures forall i :: 0 <= i < |records| + 1 ==> low <= InsertByTime(records, r)[i].time
  {
    if |records| > 0 && r.time >= records[0].time {
      InsertKeepsFirst(records[1..], r, low);
    }
  }

  lemma {:induction false} InsertKeepsOrder(records: seq<PriceRecord>, r: PriceRecord)
    requires Chronological(records)
    ensures Chronological(InsertByTime(records, r))
  {
    if |records| > 0 && r.time >= records[0].time {
      InsertKeepsOrder(records[1..], r);
      InsertKeepsFirst(records[1..], r, records[0].time);
    }
  }

  lemma {:induction false} InsertAddsLast(records: seq<PriceRecord>, r: PriceRecord, time: int)
    requires Chronological(records)
    ensures OfTime(InsertByTime(records, r), time) == OfTime(records, time) + IfOfTime(r, time)
  {
    if |records| == 0 || r.time < records[0].time {
      OfTimeCons(r, records, time);
      if r.time == time {
        NoneOfTime(records, time);
      }
    } else {
      var first, rest := records[0], records[1..];
      InsertAddsLast(rest, r, time);
      OfTimeCons(first, InsertByTime(rest, r), time);
      Associative(IfOfTime(first, time), OfTime(rest, time), IfOfTime(r, time));
    }
  }

  /** A replay takes its records in the order of their times, every record once, and records of the same
      time in the order in which they came. */
  lemma {:induction false} ReplayIsChronological(records: seq<PriceRecord>, time: int)
    ensures Chronological(SortByTime(records)) && OfTime(SortByTime(records), time) == OfTime(records, time)
  {
    if |records| > 0 {
      var init, last := records[..|records| - 1], records[|records| - 1];
      ReplayIsChronological(init, time);
      InsertKeepsOrder(SortByTime(init), last);
      InsertAddsLast(SortByTime(init), last, time);
      OfTimeSnoc(init, last, time);
      assert init + [last] == records;
    }
  }

  // ---- what reaches the indicators -------------------------------------------------------------

  /** The prices a cycle shows to the indicators, if it gets that far. */
  function FedByCycle(cfg: Config, e: EngineState, event: R.Event): seq<PriceTick>
    requires event.Cycle?
  {
    var r := R.ReconcileOf(cfg, e, event.venue, event.report);
    if r.error.Some? then []
    else
      match Prepare(cfg, r.engine, r.venue, event.bar)
      case Stop(_, _) => []
      case Continue(t) => if Usable(event.bar.eth, event.bar.btc) then [TickOf(t.engine, event.bar)] else []
  }

  predicate RecordUsable(cfg: Config, r: PriceRecord) {
    var (eth, btc) := (r.eth.Selected(cfg.priceField), r.btc.Selected(cfg.priceField));
    eth.Some? && btc.Some? && Usable(eth.value, btc.value)
  }

  function RecordTick(cfg: Config, e: EngineState, r: PriceRecord): PriceTick
    requires RecordUsable(cfg, r)
  {
    var s := Updated(e.machine, r.time);
    PriceTick(r.time, r.eth.Selected(cfg.priceField).value, r.btc.Selected(cfg.priceField).value, s.status, s.position)
  }

  /** The prices a replay shows to the indicators: all records up to the first unusable one. */
  function FedByRecords(m: Maths, cfg: Config, e: EngineState, records: seq<PriceRecord>): seq<PriceTick>
    requires cfg.IndicatorsValid()
    decreases |records|
  {
    if |records| == 0 || !RecordUsable(cfg, records[0]) then []
    else
      [RecordTick(cfg, e, records[0])] + FedByRecords(m, cfg, WarmUpStep(m, cfg, e, records[0]).0, records[1..])
  }

  /** All prices the current process has fed to its indicators. */
  function Fed(m: Maths, cfg: Config, events: seq<R.Event>): seq<PriceTick>
    requires cfg.IndicatorsValid()
  {
    if |events| == 0 then []
    else
      var init, last := events[..|events| - 1], events[|events| - 1];
      var sys := R.After(m, cfg, R.FRESH_SYSTEM, init);
      match last
      case Cycle(_, _, _, _, _) => Fed(m, cfg, init) + FedByCycle(cfg, sys.engine, last)
      case Restart(clock, records) =>
        match R.Restarted(sys.saved, clock)
        case None => Fed(m, cfg, init)
        case Some(e) => FedByRecords(m, cfg, e, SortByTime(records))
  }

  lemma ReconcileKeepsSignals(cfg: Config, e: EngineState, v: Venue, x: Report)
    ensures Reconcile(cfg, e, v, x).engine.signals == e.signals
  {
  }

  lemma EntryKeepsSignals(cfg: Config, t: Turn, bar: BarInput, output: SignalOutput)
    ensures EnterIfSignalled(cfg, t, bar, output).turn.engine.signals == t.engine.signals
  {
  }

  lemma ExitKeepsSignals(cfg: Config, t: Turn, bar: BarInput, output: SignalOutput)
    ensures ExitIfSignalled(cfg, t, bar, output).turn.engine.signals == t.engine.signals
  {
  }

  lemma TradeFeeds(m: Maths, cfg: Config, t: Turn, bar: BarInput)
    requires cfg.IndicatorsValid()
    ensures TradeSignals(m, cfg, t, bar).turn.engine.signals
            == PipelineStep(m, cfg, t.engine.signals, TickOf(t.engine, bar)).0
  {
    var (signals, output) := PipelineStep(m, cfg, t.engine.signals, TickOf(t.engine, bar));
    var t' := t.(engine := t.engine.(signals := signals));
    if output.Some? {
      EntryKeepsSignals(cfg, t', bar, output.value);
      ExitKeepsSignals(cfg, EnterIfSignalled(cfg, t', bar, output.value).turn, bar, output.value);
    }
  }

  lemma BarFeeds(m: Maths, cfg: Config, e: EngineState, v: Venue, bar: BarInput)
    requires cfg.IndicatorsValid() && EngineSound(cfg, e) && v.Sound()
    ensures var p := Prepare(cfg, e, v, bar);
            ProcessBar(m, cfg, e, v, bar).0.signals
            == if p.Continue? && Usable(bar.eth, bar.btc)
               then PipelineStep(m, cfg, e.signals, TickOf(p.turn.engine, bar)).0 else e.signals
  {
    PrepareKeeps(cfg, e, v, bar);
    var p := Prepare(cfg, e, v, bar);
    if p.Continue? {
      TradeFeeds(m, cfg, p.turn, bar);
      StepKeepsSound(m, cfg, e.signals, TickOf(p.turn.engine, bar));
    }
  }

  lemma FeedOne(m: Maths, cfg: Config, s: PipelineState, tick: PriceTick)
    requires cfg.IndicatorsValid()
    ensures PipelineAfter(m, cfg, s, []) == s && PipelineAfter(m, cfg, s, [tick]) == PipelineStep(m, cfg, s, tick).0
  {
    assert [tick][..0] == [];
  }

  lemma CycleFeeds(m: Maths, cfg: Config, e: EngineState, event: R.Event)
    requires cfg.IndicatorsValid() && EngineSound(cfg, e) && event.Cycle? && Fits(cfg, event.venue)
    ensures RunCycle(m, cfg, e, event.venue, event.report, event.bar).engine.signals
            == PipelineAfter(m, cfg, e.signals, FedByCycle(cfg, e, event))
  {
    var r := R.ReconcileOf(cfg, e, event.venue, event.report);
    if event.report.Some? {
      ReconcileKeepsSignals(cfg, e, event.venue, event.report.value);
      ReconciliationKeeps(cfg, e, event.venue, event.report.value);
    }
    if r.error.None? {
      BarFeeds(m, cfg, r.engine, r.venue, event.bar);
      FeedOne(m, cfg, e.signals, TickOf(Prepare(cfg, r.engine, r.venue, event.bar).turn.engine, event.bar));
    }
  }

  lemma {:induction false} ReplayFeeds(m: Maths, cfg: Config, e: EngineState, records: seq<PriceRecord>)
    requires cfg.IndicatorsValid() && Sound(cfg, e.signals)
    ensures ReplayRecords(m, cfg, e, records).0.signals
            == PipelineAfter(m, cfg, e.signals, FedByRecords(m, cfg, e, records))
    decreases |records|
  {
    if |records| > 0 {
      var (eth, btc) := (records[0].eth.Selected(cfg.priceField), records[0].btc.Selected(cfg.priceField));
      if eth.Some? && btc.Some? {
        var s := Updated(e.machine, records[0].time);
        StepKeepsSound(m, cfg, e.signals, PriceTick(records[0].time, eth.value, btc.value, s.status, s.position));
      }
      if RecordUsable(cfg, records[0]) {
        var tick, e' := RecordTick(cfg, e, records[0]), WarmUpStep(m, cfg, e, records[0]).0;
        ReplayFeeds(m, cfg, e', records[1..]);
        FeedOne(m, cfg, e.signals, tick);
        AfterConcat(m, cfg, e.signals, [tick], FedByRecords(m, cfg, e', records[1..]));
      }
    }
  }

  /** In every run the indicators are exactly what the fed prices make of fresh ones. */
  lemma {:induction false} SignalsAreFed(m: Maths, cfg: Config, events: seq<R.Event>)
    requires cfg.IndicatorsValid() && R.VenuesFit(cfg, events)
    ensures R.After(m, cfg, R.FRESH_SYSTEM, events).engine.signals
            == PipelineAfter(m, cfg, FRESH_PIPELINE, Fed(m, cfg, events))
  {
    if |events| > 0 {
      var init, last := events[..|events| - 1], events[|events| - 1];
      var sys := R.After(m, cfg, R.FRESH_SYSTEM, init);
      SignalsAreFed(m, cfg, init);
      R.ReachableSound(m, cfg, init);
      match last
      case Cycle(_, _, _, _, _) =>
        CycleFeeds(m, cfg, sys.engine, last);
        AfterConcat(m, cfg, FRESH_PIPELINE, Fed(m, cfg, init), FedByCycle(cfg, sys.engine, last));
      case Restart(clock, records) =>
        R.RestartKeeps(cfg, sys.saved, clock);
        ReplayFeeds(m, cfg, R.Restarted(sys.saved, clock).value, SortByTime(records));
    }
  }

  lemma {:induction false} FedIsUsable(m: Maths, cfg: Config, events: seq<R.Event>)
    requires cfg.IndicatorsValid()
    ensures AllUsable(Fed(m, cfg, events))
  {
    if |events| > 0 {
      var init, last := events[..|events| - 1], events[|events| - 1];
      FedIsUsable(m, cfg, init);
      if last.Restart? {
        var e := R.Restarted(R.After(m, cfg, R.FRESH_SYSTEM, init).saved, last.clock);
        if e.Some? {
          RecordsUsable(m, cfg, e.value, SortByTime(last.records));
        }
      }
    }
  }

  /** So in every run of the engine, whatever failed or restarted, the next usable bar is judged by the
      volatilities and the score of the prices fed since the last restart. */
  lemma EngineMeasuresPrices(m: Maths, cfg: Config, events: seq<R.Event>, next: PriceTick)
    requires cfg.IndicatorsValid() && R.VenuesFit(cfg, events) && Usable(next.eth, next.btc)
    ensures var output := PipelineStep(m, cfg, R.After(m, cfg, R.FRESH_SYSTEM, events).engine.signals, next).1;
            var ticks := Fed(m, cfg, events) + [next];
            output.Some? && Measures(m, cfg, EthPrices(ticks), BtcPrices(ticks), Spreads(m, ticks), output.value)
  {
    SignalsAreFed(m, cfg, events);
    FedIsUsable(m, cfg, events);
    RunMeasuresPrices(m, cfg, Fed(m, cfg, events), next);
  }

  // ---- restarts --------------------------------------------------------------------------------

  /** The indicators of the engine of a run. */
  function IndicatorsOf(m: Maths, cfg: Config, events: seq<R.Event>): PipelineState
    requires cfg.IndicatorsValid()
  {
    R.After(m, cfg, R.FRESH_SYSTEM, events).engine.signals
  }

  /** The signals they would give for one more bar. */
  function NextOutput(m: Maths, cfg: Config, events: seq<R.Event>, next: PriceTick): Option<SignalOutput>
    requires cfg.IndicatorsValid()
  {
    PipelineStep(m, cfg, IndicatorsOf(m, cfg, events), next).1
  }

  /** Two runs, with whatever trades, failures and restarts, that fed the same last `Memory` prices
      to their indicators decide alike on the next bar. */
  lemma SameRecentSameOutput(m: Maths, cfg: Config, run: seq<R.Event>, other: seq<R.Event>, j: nat, next: PriceTick)
    requires cfg.IndicatorsValid() && R.VenuesFit(cfg, run) && R.VenuesFit(cfg, other)
    requires j >= Memory(cfg) && SameRecent(Fed(m, cfg, run), Fed(m, cfg, other), j)
    ensures DecideAlike(m, cfg, IndicatorsOf(m, cfg, run), IndicatorsOf(m, cfg, other), next)
  {
    var a, b := Fed(m, cfg, run), Fed(m, cfg, other);
    SignalsAreFed(m, cfg, run);
    SignalsAreFed(m, cfg, other);
    TailsDecide(m, cfg, a, b, j, next);
  }

  predicate PricesOf(tick: PriceTick, event: R.Event)
    requires event.Cycle?
  {
    tick.eth == event.bar.eth && tick.btc == event.bar.btc && Usable(tick.eth, tick.btc)
  }

  /** The ticks have the prices of the live cycles. */
  ghost predicate Follow(ticks: seq<PriceTick>, live: seq<R.Event>) {
    |ticks| == |live| && forall k :: 0 <= k < |live| ==> live[k].Cycle? && PricesOf(ticks[k], live[k])
  }

  lemma FollowLast(ticks: seq<PriceTick>, live: seq<R.Event>, tick: PriceTick, last: R.Event)
    requires Follow(ticks, live) && last.Cycle? && PricesOf(tick, last)
    ensures Follow(ticks + [tick], live + [last])
  {
  }

  predicate AllCycles(events: seq<R.Event>) {
    forall k :: 0 <= k < |events| ==> events[k].Cycle?
  }

  lemma FedByLast(m: Maths, cfg: Config, run: seq<R.Event>, last: R.Event) returns (fed: seq<PriceTick>)
    requires cfg.IndicatorsValid() && last.Cycle?
    ensures Fed(m, cfg, run + [last]) == Fed(m, cfg, run) + fed
    ensures |fed| <= 1 && (|fed| == 1 ==> PricesOf(fed[0], last))
  {
    assert (run + [last])[..|run|] == run;
    fed := FedByCycle(cfg, R.After(m, cfg, R.FRESH_SYSTEM, run).engine, last);
  }

  lemma Chained<T>(a: seq<T>, b: seq<T>, c: seq<T>, d: seq<T>, e: seq<T>)
    requires b == a + d && c == b + e
    ensures c == a + (d + e)
  {
  }

  /** Each live cycle feeds one pair of prices or none; if every one does, the prices are its own. */
  lemma {:induction false} LiveFeeds(m: Maths, cfg: Config, past: seq<R.Event>, live: seq<R.Event>, run: seq<R.Event>)
    returns (ticks: seq<PriceTick>)
    requires cfg.IndicatorsValid() && AllCycles(live) && run == past + live
    ensures Fed(m, cfg, run) == Fed(m, cfg, past) + ticks
    ensures |ticks| <= |live| && (|ticks| == |live| ==> Follow(ticks, live))
  {
    if |live| == 0 {
      ticks := [];
      assert run == past;
    } else {
      var init, last := live[..|live| - 1], live[|live| - 1];
      var before := run[..|run| - 1];
      SplitLast(past, live, run);
      var earlier := LiveFeeds(m, cfg, past, init, before);
      var fed := FedByLast(m, cfg, before, last);
      FollowMore(earlier, live, fed);
      ticks := earlier + fed;
      Chained(Fed(m, cfg, past), Fed(m, cfg, before), Fed(m, cfg, run), earlier, fed);
    }
  }

  lemma SplitLast<T>(past: seq<T>, live: seq<T>, run: seq<T>)
    requires run == past + live && |live| > 0
    ensures run[..|run| - 1] == past + live[..|live| - 1]
    ensures run == run[..|run| - 1] + [live[|live| - 1]]
  {
  }

  lemma FollowMore(ticks: seq<PriceTick>, live: seq<R.Event>, fed: seq<PriceTick>)
    requires |live| > 0 && live[|live| - 1].Cycle?
    requires |ticks| <= |live| - 1 && (|ticks| == |live| - 1 ==> Follow(ticks, live[..|live| - 1]))
    requires |fed| <= 1 && (|fed| == 1 ==> PricesOf(fed[0], live[|live| - 1]))
    ensures |ticks + fed| <= |live| && (|ticks + fed| == |live| ==> Follow(ticks + fed, live))
  {
    if |ticks + fed| == |live| {
      var init, last := live[..|live| - 1], live[|live| - 1];
      FollowLast(ticks, init, fed[0], last);
      assert fed == [fed[0]] && init + [last] == live;
    }
  }

  /** The record selects the prices of the cycle's bar. */
  predicate RecordOf(cfg: Config, r: PriceRecord, event: R.Event)
    requires event.Cycle?
  {
    r.eth.Selected(cfg.priceField) == Some(event.bar.eth) && r.btc.Selected(cfg.priceField) == Some(event.bar.btc)
    && Usable(event.bar.eth, event.bar.btc)
  }

  lemma {:induction false} RecordsFeed(m: Maths, cfg: Config, e: EngineState, records: seq<PriceRecord>, live: seq<R.Event>)
    requires cfg.IndicatorsValid() && |records| == |live|
    requires forall k :: 0 <= k < |live| ==> live[k].Cycle? && RecordOf(cfg, records[k], live[k])
    ensures Follow(FedByRecords(m, cfg, e, records), live)
    decreases |records|
  {
    if |records| > 0 {
      assert RecordOf(cfg, records[0], live[0]);
      var e' := WarmUpStep(m, cfg, e, records[0]).0;
      forall k | 0 <= k < |live| - 1
        ensures live[1..][k].Cycle? && RecordOf(cfg, records[1..][k], live[1..][k])
      {
        assert RecordOf(cfg, records[k + 1], live[k + 1]);
      }
      RecordsFeed(m, cfg, e', records[1..], live[1..]);
    }
  }

  /** A process that crashed in any way, restarted, and replayed records with the prices of the last
      live bars, decides on the next bar like a process that ran through those bars and never stopped:
      the same score and volatilities, and the same signals as far as the settings use no recovery age
      or confirmation count, or these agree. */
  lemma WarmUpEqualsNeverStopping(m: Maths, cfg: Config, past: seq<R.Event>, live: seq<R.Event>,
                                  crashed: seq<R.Event>, restart: R.Event, next: PriceTick)
    requires cfg.IndicatorsValid() && R.VenuesFit(cfg, past + live) && R.VenuesFit(cfg, crashed)
    requires AllCycles(live) && |Fed(m, cfg, past + live)| == |Fed(m, cfg, past)| + |live|
    requires restart.Restart? && |restart.records| == |live| >= Memory(cfg)
    requires forall k :: 0 <= k < |live| ==> live[k].Cycle? && RecordOf(cfg, SortByTime(restart.records)[k], live[k])
    ensures DecideAlike(m, cfg, IndicatorsOf(m, cfg, past + live), IndicatorsOf(m, cfg, crashed + [restart]), next)
  {
    var ticks := LiveFeeds(m, cfg, past, live, past + live);
    var replayed := Fed(m, cfg, crashed + [restart]);
    RestartFeeds(m, cfg, crashed, restart, live);
    assert Tail(Fed(m, cfg, past + live), |live|) == ticks && Tail(replayed, |live|) == replayed;
    forall k | 0 <= k < |live|
      ensures SamePrices(ticks[k], replayed[k])
    {
      assert PricesOf(ticks[k], live[k]) && PricesOf(replayed[k], live[k]);
    }
    FitsAppend(cfg, crashed, restart);
    SameRecentSameOutput(m, cfg, past + live, crashed + [restart], |live|, next);
  }

  lemma FitsAppend(cfg: Config, events: seq<R.Event>, restart: R.Event)
    requires R.VenuesFit(cfg, events) && restart.Restart?
    ensures R.VenuesFit(cfg, events + [restart])
  {
  }

  lemma RestartFeeds(m: Maths, cfg: Config, crashed: seq<R.Event>, restart: R.Event, live: seq<R.Event>)
    requires cfg.IndicatorsValid() && R.VenuesFit(cfg, crashed) && restart.Restart? && |restart.records| == |live|
    requires forall k :: 0 <= k < |live| ==> live[k].Cycle? && RecordOf(cfg, SortByTime(restart.records)[k], live[k])
    ensures Follow(Fed(m, cfg, crashed + [restart]), live)
  {
    var sys := R.After(m, cfg, R.FRESH_SYSTEM, crashed);
    R.ReachableSound(m, cfg, crashed);
    R.RestartKeeps(cfg, sys.saved, restart.clock);
    RecordsFeed(m, cfg, R.Restarted(sys.saved, restart.clock).value, SortByTime(restart.records), live);
    assert (crashed + [restart])[..|crashed|] == crashed;
  }

  // ---- how much a start-up has to replay -------------------------------------------------------

  /** Sizes of both windows of the score after `n` usable prices. */
  ghost predicate Filled(cfg: Config, z: ZState, n: nat) {
    && |z.window| == MinNat(n, cfg.strategy.nZ)
    && |z.sigmas| == if n < cfg.strategy.nZ then 0 else MinNat(n - cfg.strategy.nZ + 1, SigmaCapacity(cfg.sigmaFloor))
  }

  lemma {:induction false} WindowsFill(m: Maths, cfg: Config, ticks: seq<PriceTick>)
    requires cfg.IndicatorsValid() && AllUsable(ticks)
    ensures Filled(cfg, PipelineAfter(m, cfg, FRESH_PIPELINE, ticks).z, |ticks|)
  {
    if |ticks| > 0 {
      var init, last := ticks[..|ticks| - 1], ticks[|ticks| - 1];
      WindowsFill(m, cfg, init);
      RunKeepsSound(m, cfg, FRESH_PIPELINE, init);
      StepParts(m, cfg, PipelineAfter(m, cfg, FRESH_PIPELINE, init), last);
    }
  }

  /** After `n` usable prices the next bar has a score: both windows are full by then. */
  predicate ScoreAfter(cfg: Config, n: nat) {
    && n + 1 >= cfg.strategy.nZ
    && (cfg.sigmaFloor.mode != Const ==> n + 2 >= cfg.strategy.nZ + cfg.sigmaFloor.quantileBars)
    && (cfg.sigmaFloor.mode == EwmaMix ==> cfg.strategy.nZ >= 2)
  }

  lemma FloorExists(m: Maths, cfg: Config, sigmas: seq<real>, window: seq<real>)
    requires m.Sound() && cfg.IndicatorsValid() && |sigmas| > 0 && |window| > 0
    ensures FloorValue(m, cfg.sigmaFloor, sigmas, window).Some?
            <==> cfg.sigmaFloor.mode == Const
                 || (|sigmas| >= cfg.sigmaFloor.quantileBars && (cfg.sigmaFloor.mode == EwmaMix ==> |window| >= 2))
  {
    EwmaVarianceNonNegative(1.0 - m.halfPow(cfg.sigmaFloor.ewmaHalfLife), window);
  }

  lemma FilledScores(m: Maths, cfg: Config, z: ZState, n: nat, r: real)
    requires m.Sound() && cfg.IndicatorsValid() && Filled(cfg, z, n)
    ensures ZStep(m, cfg.strategy.nZ, cfg.sigmaFloor, z, r).1.zscore.Some? <==> ScoreAfter(cfg, n)
  {
    var window := Push(z.window, cfg.strategy.nZ, r);
    if |window| >= cfg.strategy.nZ {
      FloorExists(m, cfg, Push(z.sigmas, SigmaCapacity(cfg.sigmaFloor), Std(m, window)), window);
    }
  }

  lemma ColdScoreIff(m: Maths, cfg: Config, ticks: seq<PriceTick>, next: PriceTick)
    requires m.Sound() && cfg.IndicatorsValid() && AllUsable(ticks) && Usable(next.eth, next.btc)
    ensures var output := PipelineStep(m, cfg, PipelineAfter(m, cfg, FRESH_PIPELINE, ticks), next).1;
            output.Some? && (output.value.z.zscore.Some? <==> ScoreAfter(cfg, |ticks|))
  {
    var s := PipelineAfter(m, cfg, FRESH_PIPELINE, ticks);
    WindowsFill(m, cfg, ticks);
    RunKeepsSound(m, cfg, FRESH_PIPELINE, ticks);
    StepParts(m, cfg, s, next);
    FilledScores(m, cfg, s.z, |ticks|, RelativePrice(m, next.eth, next.btc).value);
  }

  lemma {:induction false} RecordsUsable(m: Maths, cfg: Config, e: EngineState, records: seq<PriceRecord>)
    requires cfg.IndicatorsValid()
    ensures AllUsable(FedByRecords(m, cfg, e, records))
    ensures (forall k :: 0 <= k < |records| ==> RecordUsable(cfg, records[k])) ==> |FedByRecords(m, cfg, e, records)| == |records|
    decreases |records|
  {
    if |records| > 0 && RecordUsable(cfg, records[0]) {
      RecordsUsable(m, cfg, WarmUpStep(m, cfg, e, records[0]).0, records[1..]);
    }
  }

  /** The number of records a start-up replays. */
  function WarmupBars(cfg: Config): nat {
    MaxNat(MaxNat(cfg.strategy.nZ, cfg.position.nVol), 384)
  }

  /** Right after a start-up that replayed `n` usable records the next bar has a score if and only if
      `n` fills the windows.  The number the program replays always does with a constant floor; with
      the others it does unless the sigma history is longer than that number leaves room for. */
  lemma StartUpScores(m: Maths, cfg: Config, crashed: seq<R.Event>, restart: R.Event, next: PriceTick)
    requires m.Sound() && cfg.IndicatorsValid() && R.VenuesFit(cfg, crashed) && restart.Restart?
    requires forall k :: 0 <= k < |restart.records| ==> RecordUsable(cfg, SortByTime(restart.records)[k])
    requires Usable(next.eth, next.btc)
    ensures var output := NextOutput(m, cfg, crashed + [restart], next);
            output.Some? && (output.value.z.zscore.Some? <==> ScoreAfter(cfg, |restart.records|))
    ensures ScoreAfter(cfg, WarmupBars(cfg))
            <==> cfg.sigmaFloor.mode == Const
                 || (cfg.sigmaFloor.quantileBars <= WarmupBars(cfg) + 2 - cfg.strategy.nZ
                     && (cfg.sigmaFloor.mode == EwmaMix ==> cfg.strategy.nZ >= 2))
  {
    var sys := R.After(m, cfg, R.FRESH_SYSTEM, crashed);
    R.ReachableSound(m, cfg, crashed);
    R.RestartKeeps(cfg, sys.saved, restart.clock);
    RecordsUsable(m, cfg, R.Restarted(sys.saved, restart.clock).value, SortByTime(restart.records));
    assert (crashed + [restart])[..|crashed|] == crashed;
    FitsAppend(cfg, crashed, restart);
    SignalsAreFed(m, cfg, crashed + [restart]);
    ColdScoreIff(m, cfg, Fed(m, cfg, crashed + [restart]), next);
  }

  /** So without stale-cross recovery and with at most one confirmation bar the whole output is the
      same. */
  lemma NoCountersSameOutput(m: Maths, cfg: Config, run: seq<R.Event>, other: seq<R.Event>, next: PriceTick)
    requires cfg.IndicatorsValid() && !cfg.staleCross.enabled && cfg.risk.confirmBarsTp <= 1
    requires DecideAlike(m, cfg, IndicatorsOf(m, cfg, run), IndicatorsOf(m, cfg, other), next)
    ensures NextOutput(m, cfg, run, next) == NextOutput(m, cfg, other, next)
  {
  }
}
