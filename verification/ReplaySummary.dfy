/** The summary of a list of replayed trades. */
module ReplaySummary {
  import opened Numbers
  import opened Trading
  import opened Replay

  datatype ReplayTrade = ReplayTrade(direction: TradeDirection, source: Source, reason: ExitReason, netBps: real)

  function Total(trades: seq<ReplayTrade>): real {
    if |trades| == 0 then 0.0 else Total(trades[..|trades| - 1]) + trades[|trades| - 1].netBps
  }

  datatype DirectionTotal = DirectionTotal(trades: nat, totalNetBps: real)

  datatype Summary = Summary(
    trades: nat, wins: nat, losses: nat, breakeven: nat,
    totalNetBps: real, positiveBps: real, negativeBpsAbs: real,
    avgNetBps: Option<real>, winRate: Option<real>, profitFactor: Option<real>,
    entrySources: map<Source, nat>, exitReasons: map<ExitReason, nat>,
    directions: map<TradeDirection, DirectionTotal>)

  const NO_TRADES := Summary(0, 0, 0, 0, 0.0, 0.0, 0.0, None, None, None, map[], map[], map[])

  function Where(trades: seq<ReplayTrade>, keep: ReplayTrade -> bool): seq<ReplayTrade> {
    if |trades| == 0 then []
    else
      var rest, last := Where(trades[..|trades| - 1], keep), trades[|trades| - 1];
      if keep(last) then rest + [last] else rest
  }

  lemma WhereSnoc(trades: seq<ReplayTrade>, keep: ReplayTrade -> bool, last: ReplayTrade)
    ensures Where(trades + [last], keep) == if keep(last) then Where(trades, keep) + [last] else Where(trades, keep)
  {
    assert (trades + [last])[..|trades|] == trades;
  }

  lemma TotalSnoc(trades: seq<ReplayTrade>, last: ReplayTrade)
    ensures Total(trades + [last]) == Total(trades) + last.netBps
  {
    assert (trades + [last])[..|trades|] == trades;
  }

  const WON: ReplayTrade -> bool := (t: ReplayTrade) => t.netBps > 0.0
  const LOST: ReplayTrade -> bool := (t: ReplayTrade) => t.netBps < 0.0

  /** The counters of a summary count the trades they name. */
  ghost predicate Counts(s: Summary, trades: seq<ReplayTrade>) {
    && s.trades == |trades| == s.wins + s.losses + s.breakeven
    && s.wins == |Where(trades, WON)| && s.losses == |Where(trades, LOST)|
    && s.positiveBps == Total(Where(trades, WON)) && s.negativeBpsAbs == -Total(Where(trades, LOST))
    && s.totalNetBps == Total(trades) == s.positiveBps - s.negativeBpsAbs
    && s.positiveBps >= 0.0 && s.negativeBpsAbs >= 0.0
  }

  function Keyed<K(==)>(keyOf: ReplayTrade -> K, key: K): ReplayTrade -> bool {
    (t: ReplayTrade) => keyOf(t) == key
  }

  /** A count per key, with a row for exactly the keys that occur. */
  ghost predicate Counted<K(!new)>(counts: map<K, nat>, trades: seq<ReplayTrade>, keyOf: ReplayTrade -> K) {
    && (forall key {:trigger Keyed(keyOf, key)} ::
          |Where(trades, Keyed(keyOf, key))| == if key in counts then counts[key] else 0)
    && (forall key :: key in counts ==> counts[key] > 0)
  }

  /** A count and a total per key, with a row for exactly the keys that occur. */
  ghost predicate Totalled<K(!new)>(totals: map<K, DirectionTotal>, trades: seq<ReplayTrade>, keyOf: ReplayTrade -> K) {
    && (forall key {:trigger Keyed(keyOf, key)} ::
          TotalOf(Where(trades, Keyed(keyOf, key))) == if key in totals then totals[key] else DirectionTotal(0, 0.0))
    && (forall key :: key in totals ==> totals[key].trades > 0)
  }

  function TotalOf(trades: seq<ReplayTrade>): DirectionTotal {
    DirectionTotal(|trades|, Total(trades))
  }

  const BY_SOURCE: ReplayTrade -> Source := (t: ReplayTrade) => t.source
  const BY_REASON: ReplayTrade -> ExitReason := (t: ReplayTrade) => t.reason
  const BY_DIRECTION: ReplayTrade -> TradeDirection := (t: ReplayTrade) => t.direction

  /** The breakdowns of a summary. */
  ghost predicate BrokenDown(s: Summary, trades: seq<ReplayTrade>) {
    && Counted(s.entrySources, trades, BY_SOURCE)
    && Counted(s.exitReasons, trades, BY_REASON)
    && Totalled(s.directions, trades, BY_DIRECTION)
  }

  ghost predicate Averages(s: Summary) {
    && s.avgNetBps == Ratio(s.totalNetBps, s.trades as real)
    && s.winRate == Ratio(s.wins as real, s.trades as real)
    && s.profitFactor == Ratio(s.positiveBps, s.negativeBpsAbs)
  }

  ghost predicate Summarizes(s: Summary, trades: seq<ReplayTrade>) {
    Counts(s, trades) && BrokenDown(s, trades) && Averages(s)
  }

  function CountOne<K(==)>(counts: map<K, nat>, key: K): map<K, nat> {
    counts[key := (if key in counts then counts[key] else 0) + 1]
  }

  function AddOne<K(==)>(totals: map<K, DirectionTotal>, key: K, netBps: real): map<K, DirectionTotal> {
    var d := if key in totals then totals[key] else DirectionTotal(0, 0.0);
    totals[key := DirectionTotal(d.trades + 1, d.totalNetBps + netBps)]
  }

  function Added(s: Summary, t: ReplayTrade): Summary {
    s.(trades := s.trades + 1,
       totalNetBps := s.totalNetBps + t.netBps,
       wins := s.wins + (if t.netBps > 0.0 then 1 else 0),
       positiveBps := s.positiveBps + (if t.netBps > 0.0 then t.netBps else 0.0),
       losses := s.losses + (if t.netBps < 0.0 then 1 else 0),
       negativeBpsAbs := s.negativeBpsAbs + (if t.netBps < 0.0 then Abs(t.netBps) else 0.0),
       breakeven := s.breakeven + (if t.netBps == 0.0 then 1 else 0),
       entrySources := CountOne(s.entrySources, t.source),
       exitReasons := CountOne(s.exitReasons, t.reason),
       directions := AddOne(s.directions, t.direction, t.netBps))
  }

  lemma AddedCounts(s: Summary, trades: seq<ReplayTrade>, t: ReplayTrade)
    requires Counts(s, trades)
    ensures Counts(Added(s, t), trades + [t])
  {
    WhereSnoc(trades, WON, t);
    WhereSnoc(trades, LOST, t);
    TotalSnoc(trades, t);
    TotalSnoc(Where(trades, WON), t);
    TotalSnoc(Where(trades, LOST), t);
  }

  lemma CountedOne<K(!new)>(counts: map<K, nat>, trades: seq<ReplayTrade>, keyOf: ReplayTrade -> K, t: ReplayTrade)
    requires Counted(counts, trades, keyOf)
    ensures Counted(CountOne(counts, keyOf(t)), trades + [t], keyOf)
  {
    var counts' := CountOne(counts, keyOf(t));
    forall key: K
      ensures |Where(trades + [t], Keyed(keyOf, key))| == if key in counts' then counts'[key] else 0
    {
      WhereSnoc(trades, Keyed(keyOf, key), t);
    }
  }

  lemma TotalledOne<K(!new)>(totals: map<K, DirectionTotal>, trades: seq<ReplayTrade>, keyOf: ReplayTrade -> K, t: ReplayTrade)
    requires Totalled(totals, trades, keyOf)
    ensures Totalled(AddOne(totals, keyOf(t), t.netBps), trades + [t], keyOf)
  {
    var totals' := AddOne(totals, keyOf(t), t.netBps);
    forall key: K
      ensures TotalOf(Where(trades + [t], Keyed(keyOf, key))) == if key in totals' then totals'[key] else DirectionTotal(0, 0.0)
    {
      WhereSnoc(trades, Keyed(keyOf, key), t);
      TotalSnoc(Where(trades, Keyed(keyOf, key)), t);
    }
  }

  lemma NothingCounted()
    ensures Counts(NO_TRADES, []) && BrokenDown(NO_TRADES, [])
  {
  }

  /** One trade after the other. */
  function Tally(trades: seq<ReplayTrade>): (s: Summary)
    ensures s.avgNetBps == None && s.winRate == None && s.profitFactor == None
  {
    if |trades| == 0 then NO_TRADES else Added(Tally(trades[..|trades| - 1]), trades[|trades| - 1])
  }

  lemma {:induction false} TallyCounts(trades: seq<ReplayTrade>)
    ensures Counts(Tally(trades), trades) && BrokenDown(Tally(trades), trades)
  {
    if |trades| == 0 {
      NothingCounted();
    } else {
      var init, last := trades[..|trades| - 1], trades[|trades| - 1];
      assert trades == init + [last];
      TallyCounts(init);
      var s := Tally(init);
      AddedCounts(s, init, last);
      CountedOne(s.entrySources, init, BY_SOURCE, last);
      CountedOne(s.exitReasons, init, BY_REASON, last);
      TotalledOne(s.directions, init, BY_DIRECTION, last);
    }
  }

  /** The summary with its averages. */
  function Averaged(s: Summary): Summary {
    s.(avgNetBps := Ratio(s.totalNetBps, s.trades as real), winRate := Ratio(s.wins as real, s.trades as real),
       profitFactor := Ratio(s.positiveBps, s.negativeBpsAbs))
  }

  lemma AveragedSummarizes(trades: seq<ReplayTrade>)
    ensures Summarizes(Averaged(Tally(trades)), trades)
  {
    TallyCounts(trades);
  }

  /** Counts every trade once, in every breakdown, and loses no basis point. */
  method SummarizeReplayTrades(trades: seq<ReplayTrade>) returns (summary: Summary)
    ensures Summarizes(summary, trades)
  {
    summary := NO_TRADES;
    for k := 0 to |trades|
      invariant summary == Tally(trades[..k])
    {
      assert trades[..k + 1][..k] == trades[..k];
      summary := Added(summary, trades[k]);
    }
    assert trades[..|trades|] == trades;
    if summary.trades > 0 {
      summary := summary.(avgNetBps := Ratio(summary.totalNetBps, summary.trades as real),
                          winRate := Ratio(summary.wins as real, summary.trades as real));
    }
    if summary.negativeBpsAbs > 0.0 {
      summary := summary.(profitFactor := Ratio(summary.positiveBps, summary.negativeBpsAbs));
    }
    AveragedSummarizes(trades);
    assert summary == Averaged(Tally(trades));
  }
}
