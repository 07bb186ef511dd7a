/** The three replays take the same trades, and every replay spaces its trades. */
module ReplayParity {
  import opened Trading
  import opened Accounts
  import opened Replay
  import opened ReplaySummary
  import opened ReplayLoops

  /** The rows as the filtered replay gets them when every entry is allowed. */
  function AllAllowed(rows: seq<StatsRow>): (filtered: seq<FilteredRow>)
    ensures |filtered| == |rows|
    ensures forall i :: 0 <= i < |rows| ==> filtered[i] == FilteredRow(rows[i].legs, rows[i].zscore, true)
  {
    seq(|rows|, i requires 0 <= i < |rows| => FilteredRow(rows[i].legs, rows[i].zscore, true))
  }

  function CarrySum(rows: seq<StatsRow>, config: CarryReplay, spans: seq<Span>): real {
    if |spans| == 0 then 0.0
    else CarrySum(rows, config, spans[..|spans| - 1]) + SpanCarry(rows, config, spans[|spans| - 1])
  }

  /** The carry of a trade is the funding a live position would pay, received instead, per interval of its
      holding time and in basis points. */
  lemma CarryIsFundingReceived(entry: StatsRow, direction: TradeDirection, hours: real, intervalHours: nat)
    requires intervalHours > 0 && entry.fundingEth.Some? && entry.fundingBtc.Some?
    ensures CarryForHours(entry, direction, hours, intervalHours)
            == -PaidPerInterval(direction, entry.legs.wEth, entry.legs.wBtc, entry.fundingEth.value, entry.fundingBtc.value)
               * (hours / intervalHours as real) * 10000.0
  {
    SignedRates(entry.legs.wEth, entry.fundingEth.value);
    SignedRates(entry.legs.wBtc, entry.fundingBtc.value);
  }

  /** The same entries and exits, in bars, directions, sources and reasons. */
  lemma SameSpans(rows: seq<StatsRow>, config: CarryReplay, recoveryBars: nat)
    ensures var spans := StrategySpans(rows, StrategyReplay(config.limits, false, recoveryBars));
            && spans == FilteredSpans(AllAllowed(rows), config.limits)
            && spans == CarrySpans(rows, config, false)
  {
    var z, lim := StatsZ(rows), config.limits;
    assert FilteredZ(AllAllowed(rows)) == z;
    var a := StrategyRule(rows, StrategyReplay(lim, false, recoveryBars));
    var b := FilteredRule(AllAllowed(rows), lim);
    var c := CarryRule(rows, config, false);
    forall i: nat, release: Option<nat> | i < |z|
      ensures a(i, release) == b(i, release) == c(i, release)
    {
      assert FilteredZ(AllAllowed(rows)) == z;
    }
    SameIdle(z, lim, a, b, None, 0);
    SameIdle(z, lim, a, c, None, 0);
  }

  lemma {:induction false} CarryAdds(rows: seq<StatsRow>, config: CarryReplay, spans: seq<Span>)
    ensures Total(Priced(CarryPrice(rows, config), spans))
            == Total(Priced(StrategyPrice(rows), spans)) + CarrySum(rows, config, spans)
  {
    if |spans| > 0 {
      var init, last := spans[..|spans| - 1], spans[|spans| - 1];
      assert spans == init + [last];
      CarryAdds(rows, config, init);
      PricedSnoc(CarryPrice(rows, config), init, last);
      PricedSnoc(StrategyPrice(rows), init, last);
      TotalSnoc(Priced(CarryPrice(rows, config), init), Priced(CarryPrice(rows, config), spans)[|init|]);
      TotalSnoc(Priced(StrategyPrice(rows), init), Priced(StrategyPrice(rows), spans)[|init|]);
    }
  }

  /** Without recovery, with every entry allowed and without the gate the three replays make the
      same trades; the filtered one also at the same prices, and the carry one for exactly the
      carry of its trades more. */
  lemma ReplaysAgree(rows: seq<StatsRow>, config: CarryReplay, recoveryBars: nat)
    ensures var plain := StrategyTrades(rows, StrategyReplay(config.limits, false, recoveryBars));
            var spans := StrategySpans(rows, StrategyReplay(config.limits, false, recoveryBars));
            var carry := CarryTrades(rows, config, false);
            && plain == FilteredTrades(AllAllowed(rows), config.limits)
            && |carry| == |plain|
            && (forall k :: 0 <= k < |plain| ==> carry[k].(netBps := plain[k].netBps) == plain[k])
            && Total(carry) == Total(plain) + CarrySum(rows, config, spans)
  {
    SameSpans(rows, config, recoveryBars);
    var spans := CarrySpans(rows, config, false);
    CarryAdds(rows, config, spans);
    SamePrices(rows, spans);
  }

  lemma SamePrices(rows: seq<StatsRow>, spans: seq<Span>)
    ensures Priced(StrategyPrice(rows), spans) == Priced(FilteredPrice(AllAllowed(rows)), spans)
  {
    forall span: Span
      ensures StrategyPrice(rows)(span) == FilteredPrice(AllAllowed(rows))(span)
    {
    }
  }

  /** In every replay, whatever its configuration, trades never overlap, are held for 1 to 192
      bars, and none enters within 96 bars after a stop-loss. */
  lemma EveryReplayWellSpaced(stats: seq<StatsRow>, filtered: seq<FilteredRow>, lim: Limits,
                              strategy: StrategyReplay, carry: CarryReplay, enforceGate: bool)
    ensures WellSpaced(FilteredZ(filtered), lim, FilteredSpans(filtered, lim), 0)
    ensures WellSpaced(StatsZ(stats), strategy.limits, StrategySpans(stats, strategy), 0)
    ensures WellSpaced(StatsZ(stats), carry.limits, CarrySpans(stats, carry, enforceGate), 0)
  {
    ReplayExact(FilteredZ(filtered), lim, FilteredRule(filtered, lim));
    ReplayExact(StatsZ(stats), strategy.limits, StrategyRule(stats, strategy));
    ReplayExact(StatsZ(stats), carry.limits, CarryRule(stats, carry, enforceGate));
  }
}
