/** Starting the live program: fill the price store, replay it, catch up, and decide on the next bar. */
module StartUp {
  import opened Trading
  import opened Bars
  import opened State
  import opened Indicators
  import opened Pipeline
  import opened Execution
  import opened Strategy
  import opened Engine
  import opened Backfill
  import opened PriceSeries
  import opened WarmStart
  import R = Runs
  import Runner

  // ---- reading the store -----------------------------------------------------------------------

  /** The stored records of a range in order of time. */
  function LoadRange(rows: Rows, start: int, end: int): seq<PriceRecord>
    decreases if end < start then 0 else end - start + 1
  {
    if end < start then []
    else (if start in rows then [rows[start]] else []) + LoadRange(rows, start + 1, end)
  }

  lemma {:induction false} LoadSkips(rows: Rows, start: int, next: int, end: int)
    requires start <= next <= end + 1 && forall t :: start <= t < next ==> t !in rows
    ensures LoadRange(rows, start, end) == LoadRange(rows, next, end)
    decreases next - start
  {
    if start < next {
      LoadSkips(rows, start + 1, next, end);
    }
  }

  /** One record per bar, from `start` on. */
  ghost predicate EveryBar(records: seq<PriceRecord>, start: int, n: nat) {
    |records| == n && forall k :: 0 <= k < n ==> records[k].time == GridPoint(start, k)
  }

  lemma EveryBarCons(first: PriceRecord, rest: seq<PriceRecord>, start: int, n: nat)
    requires n > 0 && first.time == start && EveryBar(rest, start + BAR_SECS, n - 1)
    ensures EveryBar([first] + rest, start, n)
  {
    var records := [first] + rest;
    forall k | 0 <= k < n
      ensures records[k].time == GridPoint(start, k)
    {
      if k > 0 {
        assert records[k] == rest[k - 1];
      }
    }
  }

  lemma CompleteTail(rows: Rows, start: int, n: nat)
    requires n > 0 && Complete(rows, start, n)
    ensures start in rows && Complete(rows, start + BAR_SECS, n - 1)
  {
    assert GridPoint(start, 0) in rows;
    var next := start + BAR_SECS;
    forall i | 0 <= i < n - 1
      ensures GridPoint(next, i) in rows
    {
      assert GridPoint(start, i + 1) in rows;
    }
  }

  lemma OffGrid(rows: Rows, start: int)
    requires OnlyGridTimes(rows) && start % BAR_SECS == 0
    ensures forall t :: start < t < start + BAR_SECS ==> t !in rows
  {
  }

  /** A complete range of a store of grid times is read as one record per bar. */
  lemma {:induction false} LoadsEveryBar(rows: Rows, start: int, n: nat)
    requires Keyed(rows) && OnlyGridTimes(rows) && start % BAR_SECS == 0 && Complete(rows, start, n)
    ensures EveryBar(LoadRange(rows, start, GridPoint(start, n - 1)), start, n)
    decreases n
  {
    if n > 0 {
      var end, next := GridPoint(start, n - 1), start + BAR_SECS;
      CompleteTail(rows, start, n);
      OffGrid(rows, start);
      assert LoadRange(rows, start, end) == [rows[start]] + LoadRange(rows, start + 1, end);
      if n == 1 {
        assert LoadRange(rows, start + 1, end) == [];
        assert EveryBar([], next, 0);
      } else {
        LoadSkips(rows, start + 1, next, end);
        LoadsEveryBar(rows, next, n - 1);
        assert GridPoint(next, n - 2) == end;
      }
      EveryBarCons(rows[start], LoadRange(rows, start + 1, end), start, n);
    }
  }

  lemma EveryBarAppend(a: seq<PriceRecord>, b: seq<PriceRecord>, start: int, n: nat, k: nat)
    requires EveryBar(a, start, n) && EveryBar(b, GridPoint(start, n), k)
    ensures EveryBar(a + b, start, n + k)
  {
    forall i | 0 <= i < n + k
      ensures (a + b)[i].time == GridPoint(start, i)
    {
      if i >= n {
        assert (a + b)[i] == b[i - n];
      }
    }
  }

  // ---- replaying in two parts --------------------------------------------------------------------

  ghost predicate InOrder(records: seq<PriceRecord>) {
    forall i, j :: 0 <= i < j < |records| ==> records[i].time <= records[j].time
  }

  lemma {:induction false} InsertLast(records: seq<PriceRecord>, r: PriceRecord)
    requires forall i :: 0 <= i < |records| ==> records[i].time <= r.time
    ensures InsertByTime(records, r) == records + [r]
  {
    if |records| > 0 {
      InsertLast(records[1..], r);
      assert [records[0]] + (records[1..] + [r]) == records + [r];
    }
  }

  /** Sorting leaves records in order alone. */
  lemma {:induction false} SortedAlready(records: seq<PriceRecord>)
    requires InOrder(records)
    ensures SortByTime(records) == records
  {
    if |records| > 0 {
      SortedAlready(records[..|records| - 1]);
      InsertLast(records[..|records| - 1], records[|records| - 1]);
    }
  }

  lemma {:induction false} ReplayInParts(m: Maths, cfg: Config, e: EngineState, a: seq<PriceRecord>, b: seq<PriceRecord>)
    requires cfg.IndicatorsValid()
    ensures var (e1, ok) := ReplayRecords(m, cfg, e, a);
            ReplayRecords(m, cfg, e, a + b) == if ok then ReplayRecords(m, cfg, e1, b) else (e1, false)
    decreases |a|
  {
    if |a| == 0 {
      assert a + b == b;
    } else {
      var (e1, ok) := WarmUpStep(m, cfg, e, a[0]);
      assert (a + b)[0] == a[0] && (a + b)[1..] == a[1..] + b;
      if ok {
        ReplayInParts(m, cfg, e1, a[1..], b);
      }
    }
  }

  /** The warm-up and its catch-up are one replay of all their records. */
  lemma CatchUpIsOneReplay(m: Maths, cfg: Config, e: EngineState, a: seq<PriceRecord>, b: seq<PriceRecord>)
    requires cfg.IndicatorsValid() && InOrder(a + b)
    ensures var (e1, ok) := WarmUp(m, cfg, e, a);
            WarmUp(m, cfg, e, a + b) == if ok then WarmUp(m, cfg, e1, b) else (e1, false)
  {
    assert forall i :: 0 <= i < |a| ==> a[i] == (a + b)[i];
    assert forall i :: 0 <= i < |b| ==> b[i] == (a + b)[|a| + i];
    SortedAlready(a);
    SortedAlready(b);
    SortedAlready(a + b);
    ReplayInParts(m, cfg, e, a, b);
  }

  // ---- a score on the first bar ------------------------------------------------------------------

  /** A replay that succeeds met no unusable record. */
  lemma {:induction false} ReplayedUsable(m: Maths, cfg: Config, e: EngineState, records: seq<PriceRecord>)
    requires cfg.IndicatorsValid() && Pipeline.Sound(cfg, e.signals) && ReplayRecords(m, cfg, e, records).1
    ensures forall k :: 0 <= k < |records| ==> RecordUsable(cfg, records[k])
    decreases |records|
  {
    if |records| > 0 {
      var r, s := records[0], Updated(e.machine, records[0].time);
      var (e1, ok) := WarmUpStep(m, cfg, e, r);
      var (eth, btc) := (r.eth.Selected(cfg.priceField), r.btc.Selected(cfg.priceField));
      assert eth.Some? && btc.Some?;
      StepKeepsSound(m, cfg, e.signals, PriceTick(r.time, eth.value, btc.value, s.status, s.position));
      ReplayedUsable(m, cfg, e1, records[1..]);
    }
  }

  /** After a replay that succeeded the next bar has a score if and only if the records replayed fill
      the windows. */
  lemma ReplayedScores(m: Maths, cfg: Config, e: EngineState, records: seq<PriceRecord>, next: PriceTick)
    requires m.Sound() && cfg.IndicatorsValid() && e.signals == FRESH_PIPELINE && WarmUp(m, cfg, e, records).1
    requires Usable(next.eth, next.btc)
    ensures var output := PipelineStep(m, cfg, WarmUp(m, cfg, e, records).0.signals, next).1;
            output.Some? && (output.value.z.zscore.Some? <==> ScoreAfter(cfg, |records|))
  {
    var sorted := SortByTime(records);
    ReplayedUsable(m, cfg, e, sorted);
    RecordsUsable(m, cfg, e, sorted);
    ReplayFeeds(m, cfg, e, sorted);
    ColdScoreIff(m, cfg, FedByRecords(m, cfg, e, sorted), next);
  }

  // ---- the program -------------------------------------------------------------------------------

  /** The store filled up to the last bar before a run, and the records of the bars from `start`. */
  method FillAndLoad(prices: PriceStore, source: Source, field: PriceField, n: nat, run: int, start: int)
    returns (records: Option<seq<PriceRecord>>)
    requires n > 0 && Aligned(run) && start % BAR_SECS == 0
    modifies prices
    ensures Keyed(old(prices.rows)) && OnlyGridTimes(old(prices.rows)) ==> Keyed(prices.rows) && OnlyGridTimes(prices.rows)
    ensures Keyed(old(prices.rows)) && OnlyGridTimes(old(prices.rows)) && records.Some? && GridStart(run, n) <= start <= run ==>
              EveryBar(records.value, start, (run - start) / BAR_SECS)
  {
    ghost var before := prices.rows;
    var r := EnsurePriceHistory(prices, source, field, n, run);
    if Keyed(before) && OnlyGridTimes(before) {
      EnsuredKeeps(before, prices.rows, source, field, n, run, r);
    }
    if r != Stored {
      return None;
    }
    records := Some(LoadRange(prices.rows, start, run - BAR_SECS));
    if Keyed(before) && OnlyGridTimes(before) && GridStart(run, n) <= start <= run {
      LoadsUpTo(prices.rows, n, run, start);
    }
  }

  /** The store as the backfill leaves it. */
  ghost predicate Ensured(before: Rows, after: Rows, source: Source, field: PriceField, n: nat, run: int, r: Outcome)
    requires n > 0
  {
    var start, end := GridStart(run, n), GridEnd(run);
    var eth, btc := source(EthPerp, start * 1000, end * 1000), source(BtcPerp, start * 1000, end * 1000);
    || after == before
    || (!eth.FetchFailed? && !btc.FetchFailed? && SavedAsFar(before, after, ByTime(eth.bars), ByTime(btc.bars), field, start, n, r))
  }

  lemma EnsuredKeeps(before: Rows, after: Rows, source: Source, field: PriceField, n: nat, run: int, r: Outcome)
    requires n > 0 && Keyed(before) && OnlyGridTimes(before) && Ensured(before, after, source, field, n, run, r)
    ensures Keyed(after) && OnlyGridTimes(after)
  {
    if after != before {
      var start, end := GridStart(run, n), GridEnd(run);
      var eth, btc := source(EthPerp, start * 1000, end * 1000), source(BtcPerp, start * 1000, end * 1000);
      StartOnGrid(run, n);
      SavedKeepsStore(before, after, ByTime(eth.bars), ByTime(btc.bars), field, start, n, r);
    }
  }

  /** A store complete for the last n bars before a run is read from any later bar on. */
  lemma LoadsUpTo(rows: Rows, n: nat, run: int, start: int)
    requires n > 0 && Keyed(rows) && OnlyGridTimes(rows) && Complete(rows, GridStart(run, n), n)
    requires Aligned(run) && start % BAR_SECS == 0 && GridStart(run, n) <= start <= run
    ensures EveryBar(LoadRange(rows, start, run - BAR_SECS), start, (run - start) / BAR_SECS)
  {
    var from := GridStart(run, n);
    StartOnGrid(run, n);
    assert GridEnd(run) == run - BAR_SECS;
    var skipped, k := (start - from) / BAR_SECS, (run - start) / BAR_SECS;
    assert start == GridPoint(from, skipped) && run == GridPoint(start, k) && skipped + k == n;
    forall i | 0 <= i < k
      ensures GridPoint(start, i) in rows
    {
      assert GridPoint(start, i) == GridPoint(from, skipped + i);
    }
    LoadsEveryBar(rows, start, k);
    assert GridPoint(start, k - 1) == run - BAR_SECS;
  }

  /** What a start-up that succeeded has replayed: with a store of grid times, and a catch-up no longer
      than the warm-up, exactly one record for every bar of the warm-up and up to the first run. */
  ghost predicate Replayed(cfg: Config, now: int, firstRun: int, records: seq<PriceRecord>)
    requires cfg.strategy.nZ > 0
  {
    var run := AlignToBarClose(now);
    && Aligned(firstRun) && run <= firstRun
    && (firstRun - run <= BAR_SECS * WarmupBars(cfg) ==>
          EveryBar(records, GridStart(run, WarmupBars(cfg)), WarmupBars(cfg) + (firstRun - run) / BAR_SECS))
  }

  lemma EveryBarInOrder(records: seq<PriceRecord>, start: int, n: nat)
    requires EveryBar(records, start, n)
    ensures InOrder(records)
  {
  }

  lemma CatchUpContinues(cfg: Config, now: int, latest: int, warm: seq<PriceRecord>, catchup: seq<PriceRecord>)
    requires cfg.strategy.nZ > 0 && Aligned(latest) && AlignToBarClose(now) <= latest
    requires var run := AlignToBarClose(now);
             && EveryBar(warm, GridStart(run, WarmupBars(cfg)), WarmupBars(cfg))
             && (latest - run <= BAR_SECS * WarmupBars(cfg) ==> EveryBar(catchup, run, (latest - run) / BAR_SECS))
    ensures Replayed(cfg, now, latest, warm + catchup)
  {
    var run, n := AlignToBarClose(now), WarmupBars(cfg);
    if latest - run <= BAR_SECS * n {
      assert GridPoint(GridStart(run, n), n) == run;
      EveryBarAppend(warm, catchup, GridStart(run, n), n, (latest - run) / BAR_SECS);
    }
  }

  /** The store filled for a run, and its records from `start` on replayed. */
  method FillAndReplay(engine: StrategyEngine, prices: PriceStore, source: Source, run: int, start: int)
    returns (ok: bool, ghost records: seq<PriceRecord>)
    requires engine.Valid() && prices !in engine.Repr() && Aligned(run) && start % BAR_SECS == 0
    modifies engine.Repr(), prices
    ensures engine.Valid() && engine.execution.exchange.venue == old(engine.execution.exchange.venue)
    ensures ok ==> (engine.View(), true) == WarmUp(engine.m, engine.cfg, old(engine.View()), records)
    ensures Keyed(old(prices.rows)) && OnlyGridTimes(old(prices.rows)) ==> Keyed(prices.rows) && OnlyGridTimes(prices.rows)
    ensures ok && Keyed(old(prices.rows)) && OnlyGridTimes(old(prices.rows))
            && GridStart(run, WarmupBars(engine.cfg)) <= start <= run ==>
              EveryBar(records, start, (run - start) / BAR_SECS)
  {
    var loaded := FillAndLoad(prices, source, engine.cfg.priceField, WarmupBars(engine.cfg), run, start);
    if loaded.None? {
      return false, [];
    }
    records := loaded.value;
    ok := engine.WarmUpWithRecords(loaded.value);
  }

  /** The bars that ended since the warm-up replayed, and the first run after them. */
  method CatchUp(engine: StrategyEngine, prices: PriceStore, source: Source, run: int, later: int)
    returns (ok: bool, firstRun: int, ghost records: seq<PriceRecord>)
    requires engine.Valid() && prices !in engine.Repr() && Aligned(run)
    modifies engine.Repr(), prices
    ensures engine.Valid() && engine.execution.exchange.venue == old(engine.execution.exchange.venue)
    ensures ok ==> (engine.View(), true) == WarmUp(engine.m, engine.cfg, old(engine.View()), records)
    ensures Aligned(firstRun) && run <= firstRun
    ensures ok && Keyed(old(prices.rows)) && OnlyGridTimes(old(prices.rows))
            && firstRun - run <= BAR_SECS * WarmupBars(engine.cfg) ==>
              EveryBar(records, run, (firstRun - run) / BAR_SECS)
  {
    var latest := AlignToBarClose(later);
    var window := ReplayWarmupGapWindow(run, latest);
    ok, firstRun, records := true, run, [];
    if window.Some? {
      assert window.value == (run, latest - BAR_SECS);
      firstRun := latest;
      ok, records := FillAndReplay(engine, prices, source, latest, window.value.0);
    } else {
      EmptyReplay(engine.m, engine.cfg, engine.View());
    }
  }

  /** Everything before the first run: restore the saved state, fill the store, replay it, and catch up
      with the bars that ended meanwhile. */
  method Begin(cfg: Config, m: Maths, exchange: Exchange, store: Runner.StateStore, prices: PriceStore,
               source: Source, laterSource: Source, clock: int, now: int, later: int)
    returns (engine: StrategyEngine, ok: bool, firstRun: int, ghost warm: seq<PriceRecord>, ghost catchup: seq<PriceRecord>)
    requires cfg.IndicatorsValid()
    modifies exchange, prices
    ensures exchange.venue == old(exchange.venue) && engine.Valid() && engine.cfg == cfg && engine.m == m
    ensures engine.execution.exchange == exchange && fresh(engine) && fresh(engine.Repr() - {exchange})
    ensures ok ==>
              var e := R.Restarted(store.saved, clock);
              && e.Some? && WarmUp(m, cfg, e.value, warm).1
              && (engine.View(), true) == WarmUp(m, cfg, WarmUp(m, cfg, e.value, warm).0, catchup)
    ensures ok && Keyed(old(prices.rows)) && OnlyGridTimes(old(prices.rows)) ==> Replayed(cfg, now, firstRun, warm + catchup)
  {
    var run := AlignToBarClose(now);
    firstRun, warm, catchup := run, [], [];
    ghost var sorted := Keyed(prices.rows) && OnlyGridTimes(prices.rows);
    engine, ok := Runner.Restore(cfg, m, exchange, store, clock);
    if !ok {
      return;
    }
    StartOnGrid(run, WarmupBars(cfg));
    ok, warm := FillAndReplay(engine, prices, source, run, GridStart(run, WarmupBars(cfg)));
    if !ok {
      return;
    }
    ok, firstRun, catchup := CatchUp(engine, prices, laterSource, run, later);
    if ok && sorted {
      CatchUpContinues(cfg, now, firstRun, warm, catchup);
    }
  }

  lemma EmptyReplay(m: Maths, cfg: Config, e: EngineState)
    requires cfg.IndicatorsValid()
    ensures WarmUp(m, cfg, e, []) == (e, true)
  {
  }

  /** A start-up is a restart of the runs, with the records of warm-up and catch-up. */
  lemma StartUpIsRestart(m: Maths, cfg: Config, sys: R.System, clock: int, warm: seq<PriceRecord>, catchup: seq<PriceRecord>)
    requires cfg.IndicatorsValid() && R.Restarted(sys.saved, clock).Some? && InOrder(warm + catchup)
    requires WarmUp(m, cfg, R.Restarted(sys.saved, clock).value, warm).1
    ensures R.Next(m, cfg, sys, R.Restart(clock, warm + catchup)).engine
            == WarmUp(m, cfg, WarmUp(m, cfg, R.Restarted(sys.saved, clock).value, warm).0, catchup).0
  {
    CatchUpIsOneReplay(m, cfg, R.Restarted(sys.saved, clock).value, warm, catchup);
  }

  /** From a successful backfill to a score: after a start-up that replayed every bar the first run has
      a score if and only if the bars fill the windows; in any case with a constant floor, and with the
      others unless the sigma history is longer than they leave room for. */
  lemma StartUpHasScore(m: Maths, cfg: Config, saved: Option<StrategyState>, clock: int, now: int, firstRun: int,
                        warm: seq<PriceRecord>, catchup: seq<PriceRecord>, next: PriceTick)
    requires m.Sound() && cfg.IndicatorsValid() && R.Restarted(saved, clock).Some? && Usable(next.eth, next.btc)
    requires Replayed(cfg, now, firstRun, warm + catchup)
    requires firstRun - AlignToBarClose(now) <= BAR_SECS * WarmupBars(cfg)
    requires var (e, ok) := WarmUp(m, cfg, R.Restarted(saved, clock).value, warm); ok && WarmUp(m, cfg, e, catchup).1
    ensures var (e, ok) := WarmUp(m, cfg, R.Restarted(saved, clock).value, warm);
            var output := PipelineStep(m, cfg, WarmUp(m, cfg, e, catchup).0.signals, next).1;
            var bars := WarmupBars(cfg) + (firstRun - AlignToBarClose(now)) / BAR_SECS;
            && output.Some? && (output.value.z.zscore.Some? <==> ScoreAfter(cfg, bars))
            && (cfg.sigmaFloor.mode == Const ==> output.value.z.zscore.Some?)
  {
    var e := R.Restarted(saved, clock).value;
    var bars := WarmupBars(cfg) + (firstRun - AlignToBarClose(now)) / BAR_SECS;
    EveryBarInOrder(warm + catchup, GridStart(AlignToBarClose(now), WarmupBars(cfg)), bars);
    CatchUpIsOneReplay(m, cfg, e, warm, catchup);
    ReplayedScores(m, cfg, e, warm + catchup, next);
  }
}
