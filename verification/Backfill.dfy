/** Filling the price store up to the last completed bar. */
module Backfill {
  import opened Trading
  import opened Bars
  import opened History

  /** Stored times are whole seconds, those of candles and requests milliseconds. */
  type Rows = map<int, PriceRecord>

  /** The source of bars: a fetch per symbol and range. */
  type Source = (Symbol, int, int) -> Fetched

  datatype Outcome = Stored | DataFailed(error: FetchError) | MissingBar(symbol: Symbol, time: int)

  function EffectivePrice(field: PriceField, c: Candle): Option<real> {
    SelectPrice(field, c.mid, c.mark, c.close)
  }

  // ---- the grid --------------------------------------------------------------------------------

  function GridEnd(now: int): int {
    LatestCompletedBar(now)
  }

  function GridStart(now: int, barsNeeded: nat): int {
    GridEnd(now) - BAR_SECS * (barsNeeded - 1)
  }

  function GridPoint(start: int, i: int): int {
    start + BAR_SECS * i
  }

  function Grid(start: int, n: nat): (g: set<int>)
    ensures |g| == n && forall t :: t in g <==> exists i :: 0 <= i < n && t == GridPoint(start, i)
  {
    if n == 0 then {} else Grid(start, n - 1) + {GridPoint(start, n - 1)}
  }

  function InRange(rows: Rows, start: int, end: int): Rows {
    map t | t in rows && start <= t <= end :: rows[t]
  }

  ghost predicate Complete(rows: Rows, start: int, n: nat) {
    forall i :: 0 <= i < n ==> GridPoint(start, i) in rows
  }

  lemma {:induction false} SubsetFills<T>(a: set<T>, b: set<T>)
    requires a <= b && |a| >= |b|
    ensures a == b
  {
    if !(b <= a) {
      var t :| t in b && t !in a;
      SmallerSubset(a, b - {t});
    }
  }

  lemma {:induction false} SmallerSubset<T>(a: set<T>, b: set<T>)
    requires a <= b
    ensures |a| <= |b|
  {
    if |a| > 0 {
      var t :| t in a;
      SmallerSubset(a - {t}, b - {t});
    }
  }

  /** The stored times of the range that lie on the grid. */
  function OnGrid(rows: Rows, start: int, end: int): set<int> {
    set t | t in InRange(rows, start, end) && (t - start) % BAR_SECS == 0
  }

  lemma StoredOnGrid(rows: Rows, start: int, n: nat)
    requires n > 0
    ensures OnGrid(rows, start, GridPoint(start, n - 1)) <= Grid(start, n)
  {
    forall t | t in OnGrid(rows, start, GridPoint(start, n - 1))
      ensures t in Grid(start, n)
    {
      var i := (t - start) / BAR_SECS;
      assert t == GridPoint(start, i);
    }
  }

  lemma PointStored(rows: Rows, start: int, n: nat, i: int)
    requires 0 <= i < n && GridPoint(start, i) in rows
    ensures GridPoint(start, i) in OnGrid(rows, start, GridPoint(start, n - 1))
  {
    var t := GridPoint(start, i);
    assert (t - start) % BAR_SECS == 0;
    assert t in InRange(rows, start, GridPoint(start, n - 1));
  }

  lemma GridStored(rows: Rows, start: int, n: nat)
    requires n > 0 && Complete(rows, start, n)
    ensures Grid(start, n) <= OnGrid(rows, start, GridPoint(start, n - 1))
  {
    forall t | t in Grid(start, n)
      ensures t in OnGrid(rows, start, GridPoint(start, n - 1))
    {
      var i :| 0 <= i < n && t == GridPoint(start, i);
      PointStored(rows, start, n, i);
    }
  }

  /** Pigeonhole: the grid points are all stored if and only if the range stores as many points on
      the grid as are needed. */
  lemma CompleteIffEnoughOnGrid(rows: Rows, start: int, n: nat)
    requires n > 0
    ensures Complete(rows, start, n) <==> |OnGrid(rows, start, GridPoint(start, n - 1))| >= n
  {
    var stored, grid := OnGrid(rows, start, GridPoint(start, n - 1)), Grid(start, n);
    if |stored| >= n {
      StoredOnGrid(rows, start, n);
      SubsetFills(stored, grid);
      forall i | 0 <= i < n
        ensures GridPoint(start, i) in rows
      {
        assert GridPoint(start, i) in grid;
      }
    } else if Complete(rows, start, n) {
      GridStored(rows, start, n);
      SmallerSubset(grid, stored);
    }
  }

  /** The early return relies on this: if only times on the grid are stored, enough rows are all
      rows. */
  lemma EnoughRowsAreAll(rows: Rows, start: int, n: nat)
    requires n > 0 && |InRange(rows, start, GridPoint(start, n - 1))| >= n
    requires forall t :: t in rows && start <= t <= GridPoint(start, n - 1) ==> (t - start) % BAR_SECS == 0
    ensures Complete(rows, start, n)
  {
    var range := InRange(rows, start, GridPoint(start, n - 1));
    assert OnGrid(rows, start, GridPoint(start, n - 1)) == range.Keys;
    CompleteIffEnoughOnGrid(rows, start, n);
  }

  /** With a stray time stored the early return can leave a hole: one record on the grid and any
      other before the next grid point are as many rows as two grid points need. */
  lemma StrayRowHidesHole(first: PriceRecord, stray: PriceRecord)
    requires first.time < stray.time < first.time + BAR_SECS
    ensures var rows := map[first.time := first][stray.time := stray];
            |InRange(rows, first.time, GridPoint(first.time, 1))| >= 2 && !Complete(rows, first.time, 2)
  {
    var rows := map[first.time := first][stray.time := stray];
    assert InRange(rows, first.time, GridPoint(first.time, 1)) == rows;
    assert |rows| == 2;
    assert GridPoint(first.time, 1) !in rows;
  }

  // ---- records from the fetched bars ----------------------------------------------------------------

  /** The bar of a time in seconds. */
  predicate HasBar(bars: map<int, Candle>, t: int) {
    t * 1000 in bars
  }

  function BarAt(bars: map<int, Candle>, t: int): Candle
    requires HasBar(bars, t)
  {
    bars[t * 1000]
  }

  /** The symbol whose bar or price is missing at a time; None if both are there. */
  function MissingAt(eth: map<int, Candle>, btc: map<int, Candle>, field: PriceField, t: int): Option<Symbol> {
    if !HasBar(eth, t) then Some(EthPerp)
    else if !HasBar(btc, t) then Some(BtcPerp)
    else if EffectivePrice(field, BarAt(eth, t)).None? then Some(EthPerp)
    else if EffectivePrice(field, BarAt(btc, t)).None? then Some(BtcPerp)
    else None
  }

  /** A missing mid price is filled with the effective one. */
  function PricesToStore(field: PriceField, c: Candle): StoredPrices {
    StoredPrices(Or(c.mid, EffectivePrice(field, c)), c.mark, c.close)
  }

  function RecordAt(eth: map<int, Candle>, btc: map<int, Candle>, field: PriceField, t: int): PriceRecord
    requires MissingAt(eth, btc, field, t) == None
  {
    PriceRecord(t, PricesToStore(field, BarAt(eth, t)), PricesToStore(field, BarAt(btc, t)))
  }

  /** The filled mid price does not change which price is read back. */
  lemma ReadsBackEffective(field: PriceField, c: Candle)
    ensures PricesToStore(field, c).Selected(field) == EffectivePrice(field, c)
  {
  }

  /** Bars by their time; of several with one time the last stays. */
  function ByTime(bars: seq<Candle>): (m: map<int, Candle>)
    ensures forall t :: t in m ==> m[t].time == t && m[t] in bars
    ensures forall c :: c in bars ==> c.time in m
  {
    if |bars| == 0 then map[]
    else
      var init, last := bars[..|bars| - 1], bars[|bars| - 1];
      assert bars == init + [last];
      ByTime(init)[last.time := last]
  }

  /** The store after saving the first k grid points. */
  ghost predicate SavedUpTo(before: Rows, after: Rows, eth: map<int, Candle>, btc: map<int, Candle>,
                            field: PriceField, start: int, k: nat)
  {
    && (forall i :: 0 <= i < k ==>
          var t := GridPoint(start, i);
          MissingAt(eth, btc, field, t) == None && t in after && after[t] == RecordAt(eth, btc, field, t))
    && (forall t :: (forall i :: 0 <= i < k ==> t != GridPoint(start, i)) ==>
          (if t in after then Some(after[t]) else None) == (if t in before then Some(before[t]) else None))
  }

  lemma SaveStep(before: Rows, rows: Rows, eth: map<int, Candle>, btc: map<int, Candle>, field: PriceField, start: int, k: nat)
    requires SavedUpTo(before, rows, eth, btc, field, start, k)
    requires MissingAt(eth, btc, field, GridPoint(start, k)) == None
    ensures var t := GridPoint(start, k);
            SavedUpTo(before, rows[t := RecordAt(eth, btc, field, t)], eth, btc, field, start, k + 1)
  {
  }

  lemma SavedIsComplete(before: Rows, rows: Rows, eth: map<int, Candle>, btc: map<int, Candle>, field: PriceField,
                        start: int, n: nat)
    requires SavedUpTo(before, rows, eth, btc, field, start, n)
    ensures Complete(rows, start, n)
  {
  }

  class PriceStore {
    var rows: Rows

    constructor ()
      ensures rows == map[]
    {
      rows := map[];
    }

    method Save(record: PriceRecord)
      modifies this
      ensures rows == old(rows)[record.time := record]
    {
      rows := rows[record.time := record];
    }
  }

  ghost predicate StoppedAt(eth: map<int, Candle>, btc: map<int, Candle>, field: PriceField, start: int,
                            k: nat, symbol: Symbol, t: int)
  {
    t == GridPoint(start, k) && MissingAt(eth, btc, field, t) == Some(symbol)
  }

  /** All grid points saved, or those before the first one that lacks a bar or a price. */
  ghost predicate SavedAsFar(before: Rows, after: Rows, eth: map<int, Candle>, btc: map<int, Candle>, field: PriceField,
                             start: int, n: nat, r: Outcome)
  {
    match r
    case DataFailed(_) => false
    case Stored => SavedUpTo(before, after, eth, btc, field, start, n) && Complete(after, start, n)
    case MissingBar(symbol, t) =>
      exists k: nat :: k < n && StoppedAt(eth, btc, field, start, k, symbol, t)
                       && SavedUpTo(before, after, eth, btc, field, start, k)
  }

  method SaveGrid(store: PriceStore, eth: map<int, Candle>, btc: map<int, Candle>, field: PriceField, start: int, n: nat)
    returns (r: Outcome)
    modifies store
    ensures SavedAsFar(old(store.rows), store.rows, eth, btc, field, start, n, r)
  {
    for idx := 0 to n
      invariant SavedUpTo(old(store.rows), store.rows, eth, btc, field, start, idx)
    {
      var t := start + BAR_SECS * idx;
      var missing := MissingAt(eth, btc, field, t);
      if missing.Some? {
        assert StoppedAt(eth, btc, field, start, idx, missing.value, t);
        return MissingBar(missing.value, t);
      }
      SaveStep(old(store.rows), store.rows, eth, btc, field, start, idx);
      store.Save(RecordAt(eth, btc, field, t));
    }
    SavedIsComplete(old(store.rows), store.rows, eth, btc, field, start, n);
    r := Stored;
  }

  /** Fills the store for the last bars needed.  An error may leave the bars before it saved. */
  method EnsurePriceHistory(store: PriceStore, source: Source, field: PriceField, barsNeeded: nat, now: int)
    returns (r: Outcome)
    modifies store
    ensures barsNeeded == 0 ==> r == Stored && store.rows == old(store.rows)
    ensures barsNeeded > 0 ==>
              var start, end := GridStart(now, barsNeeded), GridEnd(now);
              var eth, btc := source(EthPerp, start * 1000, end * 1000), source(BtcPerp, start * 1000, end * 1000);
              if |InRange(old(store.rows), start, end)| >= barsNeeded then r == Stored && store.rows == old(store.rows)
              else if eth.FetchFailed? then r == DataFailed(eth.error) && store.rows == old(store.rows)
              else if btc.FetchFailed? then r == DataFailed(btc.error) && store.rows == old(store.rows)
              else SavedAsFar(old(store.rows), store.rows, ByTime(eth.bars), ByTime(btc.bars), field, start, barsNeeded, r)
    ensures r == Stored && OnlyGridTimes(old(store.rows)) ==> Complete(store.rows, GridStart(now, barsNeeded), barsNeeded)
  {
    if barsNeeded == 0 {
      return Stored;
    }
    var end := LatestCompletedBar(now);
    var start := end - BAR_SECS * (barsNeeded - 1);
    var existing := InRange(store.rows, start, end);
    if |existing| >= barsNeeded {
      if OnlyGridTimes(store.rows) {
        StartOnGrid(now, barsNeeded);
        EnoughRowsAreAll(store.rows, start, barsNeeded);
      }
      return Stored;
    }
    var eth := source(EthPerp, start * 1000, end * 1000);
    if eth.FetchFailed? {
      return DataFailed(eth.error);
    }
    var btc := source(BtcPerp, start * 1000, end * 1000);
    if btc.FetchFailed? {
      return DataFailed(btc.error);
    }
    r := SaveGrid(store, ByTime(eth.bars), ByTime(btc.bars), field, start, barsNeeded);
  }

  /** The store holds no time off the 15-minute grid. */
  ghost predicate OnlyGridTimes(rows: Rows) {
    forall t :: t in rows ==> t % BAR_SECS == 0
  }

  /** Every record is stored under its own time. */
  ghost predicate Keyed(rows: Rows) {
    forall t :: t in rows ==> rows[t].time == t
  }

  lemma SavedKeepsStore(before: Rows, after: Rows, eth: map<int, Candle>, btc: map<int, Candle>, field: PriceField,
                        start: int, n: nat, r: Outcome)
    requires SavedAsFar(before, after, eth, btc, field, start, n, r) && start % BAR_SECS == 0
    requires Keyed(before) && OnlyGridTimes(before)
    ensures Keyed(after) && OnlyGridTimes(after)
  {
    match r
    case Stored => SavedUpToKeepsStore(before, after, eth, btc, field, start, n);
    case MissingBar(symbol, t) =>
      var k: nat :| k < n && StoppedAt(eth, btc, field, start, k, symbol, t)
                    && SavedUpTo(before, after, eth, btc, field, start, k);
      SavedUpToKeepsStore(before, after, eth, btc, field, start, k);
  }

  lemma SavedUpToKeepsStore(before: Rows, after: Rows, eth: map<int, Candle>, btc: map<int, Candle>, field: PriceField,
                            start: int, k: nat)
    requires SavedUpTo(before, after, eth, btc, field, start, k) && start % BAR_SECS == 0
    requires Keyed(before) && OnlyGridTimes(before)
    ensures Keyed(after) && OnlyGridTimes(after)
  {
    forall t | t in after
      ensures after[t].time == t && t % BAR_SECS == 0
    {
      SavedRow(before, after, eth, btc, field, start, k, t);
    }
  }

  lemma SavedRow(before: Rows, after: Rows, eth: map<int, Candle>, btc: map<int, Candle>, field: PriceField,
                 start: int, k: nat, t: int)
    requires SavedUpTo(before, after, eth, btc, field, start, k) && t in after && start % BAR_SECS == 0
    ensures (t in before && after[t] == before[t]) || (after[t].time == t && t % BAR_SECS == 0)
  {
    if i :| 0 <= i < k && t == GridPoint(start, i) {
      GridPointAligned(start, i);
    } else {
      assert (if t in after then Some(after[t]) else None) == (if t in before then Some(before[t]) else None);
    }
  }

  lemma GridPointAligned(start: int, i: int)
    requires start % BAR_SECS == 0
    ensures GridPoint(start, i) % BAR_SECS == 0
  {
  }

  lemma StartOnGrid(now: int, n: nat)
    requires n > 0
    ensures GridStart(now, n) % BAR_SECS == 0 && GridPoint(GridStart(now, n), n - 1) == GridEnd(now)
    ensures forall t :: t % BAR_SECS == 0 ==> (t - GridStart(now, n)) % BAR_SECS == 0
  {
    var q := LatestCompletedBar(now) / BAR_SECS;
    assert GridEnd(now) == BAR_SECS * q;
    assert GridStart(now, n) == BAR_SECS * (q - n + 1);
  }
}
