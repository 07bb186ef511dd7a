/** What the figures of a trade mean: fills, gains of a leg, funding. */
module Accounts {
  import opened Numbers
  import opened Trading
  import opened State
  import opened Execution
  import opened Sizing
  import opened Strategy

  // ---- accounting from exchange fills ------------------------------------------------------------

  predicate FillOf(fill: ExchangeFill, oids: set<nat>, coin: Symbol) {
    fill.coin == coin && fill.oid.Some? && fill.oid.value in oids
  }

  /** The lookup found a fill of this coin for one of the orders. */
  predicate Found(fetched: Fetched, oids: set<nat>, coin: Symbol) {
    fetched.Some? && exists i :: 0 <= i < |fetched.value| && FillOf(fetched.value[i], oids, coin)
  }

  lemma {:induction false} MatchingHas(fills: seq<ExchangeFill>, oids: set<nat>, coin: Symbol)
    ensures (exists i :: 0 <= i < |fills| && FillOf(fills[i], oids, coin))
            <==> exists f :: f in Matching(fills, oids) && f.coin == coin
  {
    if i :| 0 <= i < |fills| && FillOf(fills[i], oids, coin) {
      assert fills[i] in fills;
      assert fills[i] in Matching(fills, oids);
    }
    if f :| f in Matching(fills, oids) && f.coin == coin {
      var i :| 0 <= i < |fills| && fills[i] == f;
      assert FillOf(fills[i], oids, coin);
    }
  }

  /** The fills of the orders are all of them, each as often as the lookup returned it. */
  lemma {:induction false} MatchingKeepsAll(fills: seq<ExchangeFill>, oids: set<nat>, fill: ExchangeFill)
    ensures multiset(Matching(fills, oids))[fill]
            == if fill.oid.Some? && fill.oid.value in oids then multiset(fills)[fill] else 0
  {
    if |fills| > 0 {
      var init, last := fills[..|fills| - 1], fills[|fills| - 1];
      MatchingKeepsAll(init, oids, fill);
      assert fills == init + [last];
    }
  }

  lemma NoOrdersNoFills(fetched: Fetched, coin: Symbol)
    ensures !Found(fetched, {}, coin)
  {
  }

  /** The accounting of a pair is the exchange's own if and only if the lookup found fills of both
      coins; otherwise the model's figures stand. */
  lemma AccountOfPair(fetched: Fetched, oids: set<nat>, ethPrice: real, btcPrice: real, pnl: real)
    ensures AccountFor(fetched, oids, {EthPerp, BtcPerp}, ethPrice, btcPrice, pnl)
            == if Found(fetched, oids, EthPerp) && Found(fetched, oids, BtcPerp)
               then SummarizeFills(Matching(fetched.value, oids), ethPrice, btcPrice)
               else FillAccounting(ethPrice, btcPrice, pnl)
  {
    NoOrdersNoFills(fetched, EthPerp);
    if fetched.Some? && oids != {} {
      var matched := Matching(fetched.value, oids);
      MatchingHas(fetched.value, oids, EthPerp);
      MatchingHas(fetched.value, oids, BtcPerp);
      assert Found(fetched, oids, EthPerp) <==> !forall f | f in matched :: f.coin != EthPerp;
      assert Found(fetched, oids, BtcPerp) <==> !forall f | f in matched :: f.coin != BtcPerp;
    }
  }

  lemma AccountOfLeg(fetched: Fetched, oids: set<nat>, coin: Symbol, ethPrice: real, btcPrice: real, pnl: real)
    ensures AccountFor(fetched, oids, {coin}, ethPrice, btcPrice, pnl)
            == if Found(fetched, oids, coin) then SummarizeFills(Matching(fetched.value, oids), ethPrice, btcPrice)
               else FillAccounting(ethPrice, btcPrice, pnl)
  {
    NoOrdersNoFills(fetched, coin);
    if fetched.Some? && oids != {} {
      var matched := Matching(fetched.value, oids);
      MatchingHas(fetched.value, oids, coin);
      assert Found(fetched, oids, coin) <==> !forall f | f in matched :: f.coin != coin;
    }
  }

  // ---- funding -----------------------------------------------------------------------------------

  /** The number of intervals that have begun after so many hours. */
  ghost predicate Begun(intervals: nat, interval: nat, hours: nat) {
    hours <= intervals * interval < hours + interval
  }

  /** What a pair pays per interval: the bought leg pays its rate, the sold one receives it. */
  function PaidPerInterval(direction: TradeDirection, notionalEth: real, notionalBtc: real, rateEth: real, rateBtc: real): real {
    Notional(Signed(EntrySide(direction, EthPerp), notionalEth), rateEth)
    + Notional(Signed(EntrySide(direction, BtcPerp), notionalBtc), rateBtc)
  }

  /** Funding is paid for every interval begun, and never received. */
  lemma FundingIsPaid(direction: TradeDirection, notionalEth: real, notionalBtc: real,
                      rateEth: real, rateBtc: real, interval: nat, hours: nat, intervals: nat)
    requires interval > 0 && Begun(intervals, interval, hours)
    ensures FundingCost(direction, notionalEth, notionalBtc, rateEth, rateBtc, interval, hours)
            == MaxReal(Notional(intervals as real, PaidPerInterval(direction, notionalEth, notionalBtc, rateEth, rateBtc)), 0.0)
  {
    BegunIsCeiling(intervals, interval, hours);
    SignedRates(notionalEth, rateEth);
    SignedRates(notionalBtc, rateBtc);
  }

  lemma SignedRates(notional: real, rate: real)
    ensures Notional(-notional, rate) == -(rate * notional) == -rate * notional && Notional(notional, rate) == rate * notional
  {
  }

  lemma BegunIsCeiling(intervals: nat, interval: nat, hours: nat)
    requires interval > 0 && Begun(intervals, interval, hours)
    ensures (hours + interval - 1) / interval == intervals
  {
    var n := hours + interval - 1;
    DivisionUnique(n, interval, intervals);
  }

  lemma TimesMono(a: int, b: int, d: nat)
    requires a <= b
    ensures a * d <= b * d
  {
  }

  lemma DivisionUnique(n: nat, d: nat, q: nat)
    requires d > 0 && q * d <= n < q * d + d
    ensures n / d == q
  {
    var p := n / d;
    assert n == p * d + n % d;
    if p < q {
      TimesMono(p + 1, q, d);
    } else if q < p {
      TimesMono(q + 1, p, d);
    }
  }

  /** Every number of hours has such a number of intervals. */
  lemma IntervalsBegun(interval: nat, hours: nat) returns (intervals: nat)
    requires interval > 0
    ensures Begun(intervals, interval, hours)
  {
    var n := hours + interval - 1;
    intervals := n / interval;
    assert n == intervals * interval + n % interval;
  }

  /** Whole hours held, none before the entry. */
  lemma HoursElapsed(p: PositionSnapshot, now: int)
    ensures p.entryTime <= now ==> HoursHeld(p, now) * 3600 <= now - p.entryTime < HoursHeld(p, now) * 3600 + 3600
    ensures now <= p.entryTime ==> HoursHeld(p, now) == 0
  {
  }

  // ---- sizes -------------------------------------------------------------------------------------

  /** Two notionals that make up the capital and carry the same risk. */
  predicate SharesRisk(capital: real, worthEth: real, worthBtc: real, volEth: real, volBtc: real) {
    && worthEth + worthBtc == capital
    && (volEth > 0.0 && volBtc > 0.0 ==> Notional(worthEth, volEth) == Notional(worthBtc, volBtc))
    && (volEth <= 0.0 || volBtc <= 0.0 ==> worthEth == worthBtc)
  }

  lemma RiskIsShared(capital: real, volEth: real, volBtc: real)
    ensures var w := RiskParityWeights(volEth, volBtc);
            SharesRisk(capital, Share(capital, w.eth), Share(capital, w.btc), volEth, volBtc)
  {
    var w := RiskParityWeights(volEth, volBtc);
    WeightsShareRisk(volEth, volBtc);
    SharesOfCapital(capital, w.eth, w.btc);
    assert Notional(Share(capital, w.eth), volEth) == capital * (w.eth * volEth);
    assert Notional(Share(capital, w.btc), volBtc) == capital * (w.btc * volBtc);
  }

  // ---- gains -------------------------------------------------------------------------------------

  /** What a leg gains from its entry price to another. */
  function Gain(leg: PositionLeg, price: real): real {
    Notional(leg.qty, price - leg.avgPrice)
  }

  /** A price as the exchange reported it, or the bar's own. */
  predicate PricedAt(price: real, fill: OrderFill, barPrice: real) {
    && (fill.avgPrice.Some? ==> price == fill.avgPrice.value)
    && (fill.avgPrice.None? ==> price == barPrice)
  }
}
