/** What the cycle totals conserve, and how the buckets of the summary fit together. */
module CycleSummary {
  import opened Numbers
  import opened Trading
  import opened Cycles

  // ---- conservation ---------------------------------------------------------------------------

  function CycleSum(cycles: seq<Cycle>, field: Cycle -> real): real {
    if |cycles| == 0 then 0.0 else CycleSum(Init(cycles), field) + field(Last(cycles))
  }

  const NET: Cycle -> real := (c: Cycle) => c.netPnl
  const FEES: Cycle -> real := (c: Cycle) => c.fees
  const NOTIONAL: Cycle -> real := (c: Cycle) => c.openNotional
  const ROWS: Cycle -> real := (c: Cycle) => c.rowCount as real
  const ONE: Field := (r: HistoryRow) => 1.0

  lemma {:induction false} SumOfOnes(rows: seq<HistoryRow>)
    ensures RowSum(rows, ONE) == |rows| as real
  {
    if |rows| > 0 {
      SumOfOnes(Init(rows));
    }
  }

  /** A field of a cycle that adds up a field of its rows. */
  ghost predicate AddsUp(total: Cycle -> real, field: Field) {
    forall rows, closed :: |rows| > 0 ==> total(CycleOf(rows, closed)) == RowSum(rows, field)
  }

  lemma {:induction false} ClosedSum(trips: seq<seq<HistoryRow>>, total: Cycle -> real, field: Field)
    requires NonEmpty(trips) && AddsUp(total, field)
    ensures CycleSum(ClosedCycles(trips), total) == RowSum(Flatten(trips), field)
  {
    if |trips| > 0 {
      ClosedSum(Init(trips), total, field);
      RowSumAppend(Flatten(Init(trips)), Last(trips), field);
      assert Init(ClosedCycles(trips)) == ClosedCycles(Init(trips));
    }
  }

  lemma TotalConserved(rows: seq<HistoryRow>, cycles: seq<Cycle>, total: Cycle -> real, field: Field)
    requires CyclesOf(rows, cycles) && AddsUp(total, field)
    ensures CycleSum(cycles, total) == RowSum(rows, field)
  {
    var (trips, rest) := Split(rows);
    SplitIsPartition(rows);
    ClosedSum(trips, total, field);
    RowSumAppend(Flatten(trips), rest, field);
    if rest == [] {
      assert cycles == ClosedCycles(trips);
    } else {
      assert Init(cycles) == ClosedCycles(trips);
    }
  }

  /** Every row, every unit of PnL, every fee and every opened notional ends up in exactly one
      cycle, and only the last cycle may be open. */
  lemma CyclesConserve(rows: seq<HistoryRow>, cycles: seq<Cycle>)
    requires CyclesOf(rows, cycles)
    ensures CycleSum(cycles, NET) == RowSum(rows, CLOSED_PNL)
    ensures CycleSum(cycles, FEES) == RowSum(rows, FEE)
    ensures CycleSum(cycles, NOTIONAL) == RowSum(rows, OPENED)
    ensures CycleSum(cycles, ROWS) == |rows| as real
    ensures forall i :: 0 <= i < |cycles| && !cycles[i].closed ==> i == |cycles| - 1
    ensures (exists i :: 0 <= i < |cycles| && !cycles[i].closed) <==> !NetsToZero(rows)
  {
    TotalConserved(rows, cycles, NET, CLOSED_PNL);
    TotalConserved(rows, cycles, FEES, FEE);
    TotalConserved(rows, cycles, NOTIONAL, OPENED);
    RowsConserved(rows, cycles);
    OpenIffPosition(rows, cycles);
  }

  lemma RowsConserved(rows: seq<HistoryRow>, cycles: seq<Cycle>)
    requires CyclesOf(rows, cycles)
    ensures CycleSum(cycles, ROWS) == |rows| as real
  {
    forall part: seq<HistoryRow>, closed | |part| > 0
      ensures ROWS(CycleOf(part, closed)) == RowSum(part, ONE)
    {
      SumOfOnes(part);
    }
    TotalConserved(rows, cycles, ROWS, ONE);
    SumOfOnes(rows);
  }

  /** The history ends in an open cycle exactly when it ends with a position. */
  lemma OpenIffPosition(rows: seq<HistoryRow>, cycles: seq<Cycle>)
    requires CyclesOf(rows, cycles)
    ensures (exists i :: 0 <= i < |cycles| && !cycles[i].closed) <==> !NetsToZero(rows)
  {
    var (trips, rest) := Split(rows);
    SplitIsPartition(rows);
    TripsNetToZero(trips);
    RowSumAppend(Flatten(trips), rest, ETH);
    RowSumAppend(Flatten(trips), rest, BTC);
    if rest != [] {
      assert rest[..|rest|] == rest;
      assert !cycles[|cycles| - 1].closed;
    }
  }

  predicate InTimeOrder(rows: seq<HistoryRow>) {
    forall i, j :: 0 <= i < j < |rows| ==> rows[i].time <= rows[j].time
  }

  /** Cycles follow one another: each starts no later than it ends, and ends no later than the next starts
      or than the given time. */
  ghost predicate Follow(cycles: seq<Cycle>, until: int) {
    && (forall i :: 0 <= i < |cycles| ==> cycles[i].startTime <= cycles[i].endTime <= until)
    && (forall i, j :: 0 <= i < j < |cycles| ==> cycles[i].endTime <= cycles[j].startTime)
  }

  lemma FollowMore(cycles: seq<Cycle>, part: seq<HistoryRow>, closed: bool, until: int)
    requires |part| > 0 && InTimeOrder(part) && Follow(cycles, part[0].time) && Last(part).time <= until
    ensures Follow(cycles + [CycleOf(part, closed)], until)
  {
  }

  lemma {:induction false} ClosedFollow(trips: seq<seq<HistoryRow>>, until: int)
    requires NonEmpty(trips) && InTimeOrder(Flatten(trips))
    requires forall k :: 0 <= k < |Flatten(trips)| ==> Flatten(trips)[k].time <= until
    ensures Follow(ClosedCycles(trips), until)
  {
    if |trips| > 0 {
      var part := Last(trips);
      PartsInOrder(Flatten(trips), Flatten(Init(trips)), part, until);
      assert Last(part) == Last(Flatten(trips));
      ClosedFollow(Init(trips), part[0].time);
      FollowMore(ClosedCycles(Init(trips)), part, true, until);
      assert ClosedCycles(trips) == ClosedCycles(Init(trips)) + [CycleOf(part, true)];
    }
  }

  lemma PartsInOrder(rows: seq<HistoryRow>, before: seq<HistoryRow>, rest: seq<HistoryRow>, until: int)
    requires before + rest == rows && InTimeOrder(rows) && (forall k :: 0 <= k < |rows| ==> rows[k].time <= until)
    ensures InTimeOrder(before) && InTimeOrder(rest)
    ensures forall k :: 0 <= k < |before| ==> before[k].time <= if |rest| > 0 then rest[0].time else until
  {
    assert forall k :: 0 <= k < |before| ==> before[k] == rows[k];
    assert forall k :: 0 <= k < |rest| ==> rest[k] == rows[|before| + k];
  }

  /** The cycles of a history in time order follow one another in time, all within the history. */
  lemma CyclesFollow(rows: seq<HistoryRow>, cycles: seq<Cycle>)
    requires CyclesOf(rows, cycles) && InTimeOrder(rows) && |rows| > 0
    ensures Follow(cycles, Last(rows).time)
  {
    var (trips, rest) := Split(rows);
    SplitIsPartition(rows);
    PartsInOrder(rows, Flatten(trips), rest, Last(rows).time);
    if rest == [] {
      ClosedFollow(trips, Last(rows).time);
      assert cycles == ClosedCycles(trips);
    } else {
      ClosedFollow(trips, rest[0].time);
      assert Last(rest) == Last(rows);
      FollowMore(ClosedCycles(trips), rest, false, Last(rows).time);
    }
  }

  /** A cycle has a direction exactly when it is paired. */
  lemma DirectedIffPaired(rows: seq<HistoryRow>, cycles: seq<Cycle>)
    requires CyclesOf(rows, cycles)
    ensures forall i :: 0 <= i < |cycles| ==> (cycles[i].direction.Some? <==> cycles[i].kind == Paired)
  {
  }

  // ---- summary buckets ------------------------------------------------------------------------

  /** The additive part of a summary. */
  datatype Tally = Tally(
    cycles: nat, wins: nat, losses: nat, breakeven: nat, netPnl: real, fees: real, grossPnl: real,
    openNotional: real, positivePnl: real, negativePnlAbs: real)

  const ZERO := Tally(0, 0, 0, 0, 0.0, 0.0, 0.0, 0.0, 0.0, 0.0)

  datatype Bucket = Bucket(
    tally: Tally, winRate: Option<real>, feeBps: Option<real>, grossEdgeBps: Option<real>,
    netEdgeBps: Option<real>, profitFactor: Option<real>)

  const EMPTY := Bucket(ZERO, None, None, None, None, None)

  datatype History = History(
    total: Bucket, paired: Bucket, singleLeg: Bucket, unclassified: Bucket, directions: map<TradeDirection, Bucket>)

  function TallyOne(c: Cycle): Tally {
    Tally(1, if c.netPnl > 0.0 then 1 else 0, if c.netPnl < 0.0 then 1 else 0, if c.netPnl == 0.0 then 1 else 0,
          c.netPnl, c.fees, c.grossPnl, c.openNotional, MaxReal(c.netPnl, 0.0), MaxReal(-c.netPnl, 0.0))
  }

  function Plus(a: Tally, b: Tally): Tally {
    Tally(a.cycles + b.cycles, a.wins + b.wins, a.losses + b.losses, a.breakeven + b.breakeven,
          a.netPnl + b.netPnl, a.fees + b.fees, a.grossPnl + b.grossPnl, a.openNotional + b.openNotional,
          a.positivePnl + b.positivePnl, a.negativePnlAbs + b.negativePnlAbs)
  }

  /** The buckets of a summary. */
  datatype Name = Every | OfKind(kind: CycleKind) | Towards(direction: TradeDirection)

  predicate Keeps(name: Name, c: Cycle) {
    match name
    case Every => true
    case OfKind(kind) => c.kind == kind
    case Towards(direction) => c.direction == Some(direction)
  }

  /** The tally of the cycles a bucket keeps. */
  function TallyOf(cycles: seq<Cycle>, name: Name): Tally {
    if |cycles| == 0 then ZERO
    else
      var before := TallyOf(Init(cycles), name);
      if Keeps(name, Last(cycles)) then Plus(before, TallyOne(Last(cycles))) else before
  }

  /** A part with or without one more cycle. */
  function Grown(a: Tally, grows: bool, x: Tally): Tally {
    if grows then Plus(a, x) else a
  }

  /** Adding `x` to one part of a sum adds it to the sum. */
  lemma OnePart(a: Tally, b: Tally, c: Tally, x: Tally, inA: bool, inB: bool, inC: bool)
    requires (inA ==> !inB && !inC) && (inB ==> !inC)
    ensures Plus(Plus(Grown(a, inA, x), Grown(b, inB, x)), Grown(c, inC, x)) == Grown(Plus(Plus(a, b), c), inA || inB || inC, x)
  {
  }

  /** The last cycle joins the buckets that keep it. */
  lemma LastTally(cycles: seq<Cycle>, name: Name)
    requires |cycles| > 0
    ensures TallyOf(cycles, name) == Grown(TallyOf(Init(cycles), name), Keeps(name, Last(cycles)), TallyOne(Last(cycles)))
  {
  }

  /** A cycle goes to exactly one of three buckets when it goes to the fourth, or to none. */
  predicate Shares(all: Name, a: Name, b: Name, c: Name, cycle: Cycle) {
    && (Keeps(all, cycle) <==> Keeps(a, cycle) || Keeps(b, cycle) || Keeps(c, cycle))
    && !(Keeps(a, cycle) && Keeps(b, cycle)) && !(Keeps(a, cycle) && Keeps(c, cycle)) && !(Keeps(b, cycle) && Keeps(c, cycle))
  }

  lemma NothingAddsNothing(a: Tally, nothing: Tally)
    requires nothing == ZERO
    ensures Plus(a, nothing) == a
  {
    AddsNothing(a, nothing);
  }

  lemma AddsNothing(a: Tally, z: Tally)
    requires z.cycles == z.wins == z.losses == z.breakeven == 0
    requires z.netPnl == z.fees == z.grossPnl == z.openNotional == z.positivePnl == z.negativePnlAbs == 0.0
    ensures Plus(a, z) == a
  {
    var s := Plus(a, z);
    assert s.cycles == a.cycles && s.wins == a.wins && s.losses == a.losses && s.breakeven == a.breakeven;
    assert s.netPnl == a.netPnl && s.fees == a.fees && s.grossPnl == a.grossPnl;
    assert s.openNotional == a.openNotional && s.positivePnl == a.positivePnl && s.negativePnlAbs == a.negativePnlAbs;
  }

  lemma {:induction false} PartsMakeWhole(cycles: seq<Cycle>, all: Name, a: Name, b: Name, c: Name)
    requires forall i :: 0 <= i < |cycles| ==> Shares(all, a, b, c, cycles[i])
    ensures TallyOf(cycles, all) == Plus(Plus(TallyOf(cycles, a), TallyOf(cycles, b)), TallyOf(cycles, c))
  {
    if |cycles| > 0 {
      var init, last := Init(cycles), Last(cycles);
      PartsMakeWhole(init, all, a, b, c);
      assert Shares(all, a, b, c, last);
      LastTally(cycles, all);
      LastTally(cycles, a);
      LastTally(cycles, b);
      LastTally(cycles, c);
      OnePart(TallyOf(init, a), TallyOf(init, b), TallyOf(init, c), TallyOne(last), Keeps(a, last), Keeps(b, last), Keeps(c, last));
    } else {
      var nothing := TallyOf(cycles, all);
      NothingAddsNothing(nothing, nothing);
    }
  }

  /** Total = paired + single-leg + unclassified, in every field, and the two directions make the
      paired bucket. */
  lemma BucketsFit(rows: seq<HistoryRow>, cycles: seq<Cycle>)
    requires CyclesOf(rows, cycles)
    ensures TallyOf(cycles, Every)
            == Plus(Plus(TallyOf(cycles, OfKind(Paired)), TallyOf(cycles, OfKind(SingleLeg))),
                    TallyOf(cycles, OfKind(Unclassified)))
    ensures TallyOf(cycles, OfKind(Paired))
            == Plus(TallyOf(cycles, Towards(LongEthShortBtc)), TallyOf(cycles, Towards(ShortEthLongBtc)))
  {
    DirectedIffPaired(rows, cycles);
    PartsMakeWhole(cycles, Every, OfKind(Paired), OfKind(SingleLeg), OfKind(Unclassified));
    DirectionsFit(cycles);
  }

  lemma {:induction false} DirectionsFit(cycles: seq<Cycle>)
    requires forall i :: 0 <= i < |cycles| ==> (cycles[i].direction.Some? <==> cycles[i].kind == Paired)
    ensures TallyOf(cycles, OfKind(Paired))
            == Plus(TallyOf(cycles, Towards(LongEthShortBtc)), TallyOf(cycles, Towards(ShortEthLongBtc)))
  {
    var long, short := Towards(LongEthShortBtc), Towards(ShortEthLongBtc);
    if |cycles| > 0 {
      var init, last := Init(cycles), Last(cycles);
      DirectionsFit(init);
      LastTally(cycles, OfKind(Paired));
      LastTally(cycles, long);
      LastTally(cycles, short);
      if last.direction.Some? {
        match last.direction.value
        case LongEthShortBtc => assert Keeps(long, last) && !Keeps(short, last);
        case ShortEthLongBtc => assert Keeps(short, last) && !Keeps(long, last);
      }
      TwoParts(TallyOf(init, long), TallyOf(init, short), TallyOne(last), Keeps(long, last), Keeps(short, last));
    } else {
      var nothing := TallyOf(cycles, long);
      NothingAddsNothing(nothing, nothing);
    }
  }

  lemma TwoParts(a: Tally, b: Tally, x: Tally, inA: bool, inB: bool)
    requires !(inA && inB)
    ensures Plus(Grown(a, inA, x), Grown(b, inB, x)) == Grown(Plus(a, b), inA || inB, x)
  {
  }

  /** Within a bucket: every cycle is won, lost or even; gross is net plus fees; net is the won
      less the lost. */
  lemma {:induction false} BucketBalances(cycles: seq<Cycle>, name: Name)
    requires forall i :: 0 <= i < |cycles| ==> cycles[i].grossPnl == cycles[i].netPnl + cycles[i].fees
    ensures var t := TallyOf(cycles, name);
            && t.cycles == t.wins + t.losses + t.breakeven
            && t.grossPnl == t.netPnl + t.fees
            && t.netPnl == t.positivePnl - t.negativePnlAbs && t.positivePnl >= 0.0 && t.negativePnlAbs >= 0.0
  {
    if |cycles| > 0 {
      BucketBalances(Init(cycles), name);
    }
  }

  lemma {:induction false} NetIsCycleSum(cycles: seq<Cycle>)
    ensures TallyOf(cycles, Every).cycles == |cycles|
    ensures TallyOf(cycles, Every).netPnl == CycleSum(cycles, NET)
    ensures TallyOf(cycles, Every).fees == CycleSum(cycles, FEES)
  {
    if |cycles| > 0 {
      NetIsCycleSum(Init(cycles));
    }
  }

  function Bps(part: real, whole: real): Option<real> {
    if whole > 0.0 then Some(part / whole * 10000.0) else None
  }

  function Finalized(t: Tally): Bucket {
    Bucket(t, Ratio(t.wins as real, t.cycles as real), Bps(t.fees, t.openNotional), Bps(t.grossPnl, t.openNotional),
           Bps(t.netPnl, t.openNotional), Ratio(t.positivePnl, t.negativePnlAbs))
  }

  lemma BpsTimes(part: real, whole: real)
    requires whole > 0.0
    ensures Bps(part, whole).Some? && Bps(part, whole).value * whole == part * 10000.0
  {
    QuotientTimes(part, whole);
    assert part / whole * 10000.0 * whole == part / whole * whole * 10000.0;
  }

  lemma BpsAdd(a: real, b: real, whole: real)
    requires whole > 0.0
    ensures Bps(a + b, whole).value == Bps(a, whole).value + Bps(b, whole).value
  {
    assert (a + b) / whole == a / whole + b / whole;
  }

  /** The rates of a tally: an edge in basis points of the opened notional, of which the gross one is the
      net one and the fees; a share of wins; and wins against losses.  Each exists exactly if its base is
      positive. */
  predicate Rates(t: Tally, b: Bucket) {
    && (b.netEdgeBps.Some? <==> t.openNotional > 0.0) && (b.feeBps.Some? <==> t.openNotional > 0.0)
    && (b.grossEdgeBps.Some? <==> t.openNotional > 0.0)
    && (t.openNotional > 0.0 ==>
          && b.netEdgeBps.value * t.openNotional == t.netPnl * 10000.0
          && b.feeBps.value * t.openNotional == t.fees * 10000.0
          && b.grossEdgeBps.value == b.netEdgeBps.value + b.feeBps.value)
    && (b.winRate.Some? <==> t.cycles > 0) && (t.cycles > 0 ==> b.winRate.value * t.cycles as real == t.wins as real)
    && (b.profitFactor.Some? <==> t.negativePnlAbs > 0.0)
    && (t.negativePnlAbs > 0.0 ==> b.profitFactor.value * t.negativePnlAbs == t.positivePnl)
  }

  lemma RatesOf(t: Tally)
    requires t.grossPnl == t.netPnl + t.fees
    ensures Rates(t, Finalized(t))
  {
    if t.openNotional > 0.0 {
      BpsTimes(t.netPnl, t.openNotional);
      BpsTimes(t.fees, t.openNotional);
      BpsAdd(t.netPnl, t.fees, t.openNotional);
    }
    if t.cycles > 0 {
      QuotientTimes(t.wins as real, t.cycles as real);
    }
    if t.negativePnlAbs > 0.0 {
      QuotientTimes(t.positivePnl, t.negativePnlAbs);
    }
  }

  lemma CycleBalances(rows: seq<HistoryRow>, closed: bool)
    requires |rows| > 0
    ensures var c := CycleOf(rows, closed); c.grossPnl == c.netPnl + c.fees
  {
  }

  /** Every bucket of the cycles of every history has these rates. */
  lemma RatesBalance(rows: seq<HistoryRow>, cycles: seq<Cycle>, name: Name)
    requires CyclesOf(rows, cycles)
    ensures Rates(TallyOf(cycles, name), Finalized(TallyOf(cycles, name)))
  {
    forall i | 0 <= i < |cycles|
      ensures cycles[i].grossPnl == cycles[i].netPnl + cycles[i].fees
    {
      var (trips, rest) := Split(rows);
      if i < |trips| {
        CycleBalances(trips[i], true);
      } else {
        CycleBalances(rest, false);
      }
    }
    GrossIsNetAndFees(cycles, name);
    RatesOf(TallyOf(cycles, name));
  }

  lemma {:induction false} GrossIsNetAndFees(cycles: seq<Cycle>, name: Name)
    requires forall i :: 0 <= i < |cycles| ==> cycles[i].grossPnl == cycles[i].netPnl + cycles[i].fees
    ensures TallyOf(cycles, name).grossPnl == TallyOf(cycles, name).netPnl + TallyOf(cycles, name).fees
  {
    if |cycles| > 0 {
      GrossIsNetAndFees(Init(cycles), name);
    }
  }

  method Add(b: Bucket, c: Cycle) returns (r: Bucket)
    ensures r == b.(tally := Plus(b.tally, TallyOne(c)))
  {
    var t := b.tally.(cycles := b.tally.cycles + 1);
    if c.netPnl > 0.0 {
      t := t.(wins := t.wins + 1, positivePnl := t.positivePnl + c.netPnl);
    } else if c.netPnl < 0.0 {
      t := t.(losses := t.losses + 1, negativePnlAbs := t.negativePnlAbs + Abs(c.netPnl));
    } else {
      t := t.(breakeven := t.breakeven + 1);
    }
    t := t.(netPnl := t.netPnl + c.netPnl, fees := t.fees + c.fees, grossPnl := t.grossPnl + c.grossPnl,
            openNotional := t.openNotional + c.openNotional);
    r := b.(tally := t);
  }

  /** A bucket still without its rates. */
  function Raw(t: Tally): Bucket {
    Bucket(t, None, None, None, None, None)
  }

  method Finalize(b: Bucket) returns (r: Bucket)
    requires b == Raw(b.tally) && b.tally.negativePnlAbs >= 0.0
    ensures r == Finalized(b.tally)
  {
    var t := b.tally;
    r := b;
    if t.cycles > 0 {
      r := r.(winRate := Ratio(t.wins as real, t.cycles as real));
    }
    if t.openNotional > 0.0 {
      r := r.(feeBps := Bps(t.fees, t.openNotional), grossEdgeBps := Bps(t.grossPnl, t.openNotional),
              netEdgeBps := Bps(t.netPnl, t.openNotional));
    }
    if t.negativePnlAbs > 0.0 {
      r := r.(profitFactor := Ratio(t.positivePnl, t.negativePnlAbs));
    }
  }

  /** Every bucket of a summary before its rates. */
  ghost predicate Bucketed(cycles: seq<Cycle>, total: Bucket, paired: Bucket, singleLeg: Bucket, unclassified: Bucket) {
    && total == Raw(TallyOf(cycles, Every)) && paired == Raw(TallyOf(cycles, OfKind(Paired)))
    && singleLeg == Raw(TallyOf(cycles, OfKind(SingleLeg)))
    && unclassified == Raw(TallyOf(cycles, OfKind(Unclassified)))
  }

  ghost predicate Directed(cycles: seq<Cycle>, directions: map<TradeDirection, Bucket>) {
    forall d :: BucketFor(directions, d) == Raw(TallyOf(cycles, Towards(d)))
  }

  function BucketFor(directions: map<TradeDirection, Bucket>, d: TradeDirection): Bucket {
    if d in directions then directions[d] else EMPTY
  }

  lemma NextCycle(cycles: seq<Cycle>, k: nat, name: Name)
    requires k < |cycles|
    ensures TallyOf(cycles[..k + 1], name)
            == if Keeps(name, cycles[k]) then Plus(TallyOf(cycles[..k], name), TallyOne(cycles[k])) else TallyOf(cycles[..k], name)
  {
    assert Init(cycles[..k + 1]) == cycles[..k];
  }

  lemma {:induction false} LossesNotNegative(cycles: seq<Cycle>, name: Name)
    ensures TallyOf(cycles, name).negativePnlAbs >= 0.0
  {
    if |cycles| > 0 {
      LossesNotNegative(Init(cycles), name);
    }
  }

  lemma AllLossesNotNegative(cycles: seq<Cycle>)
    ensures forall name {:trigger TallyOf(cycles, name)} :: TallyOf(cycles, name).negativePnlAbs >= 0.0
  {
    forall name
      ensures TallyOf(cycles, name).negativePnlAbs >= 0.0
    {
      LossesNotNegative(cycles, name);
    }
  }

  method FinalizeDirections(ghost cycles: seq<Cycle>, directions: map<TradeDirection, Bucket>)
    returns (finalized: map<TradeDirection, Bucket>)
    requires Directed(cycles, directions)
    ensures forall d :: BucketFor(finalized, d) == Finalized(TallyOf(cycles, Towards(d)))
  {
    AllLossesNotNegative(cycles);
    finalized := directions;
    assert BucketFor(directions, LongEthShortBtc) == Raw(TallyOf(cycles, Towards(LongEthShortBtc)));
    assert BucketFor(directions, ShortEthLongBtc) == Raw(TallyOf(cycles, Towards(ShortEthLongBtc)));
    if LongEthShortBtc in directions {
      var b := Finalize(directions[LongEthShortBtc]);
      finalized := finalized[LongEthShortBtc := b];
    }
    if ShortEthLongBtc in directions {
      var b := Finalize(directions[ShortEthLongBtc]);
      finalized := finalized[ShortEthLongBtc := b];
    }
    forall d
      ensures BucketFor(finalized, d) == Finalized(TallyOf(cycles, Towards(d)))
    {
      match d
      case LongEthShortBtc =>
      case ShortEthLongBtc =>
    }
  }

  method FinalizeAll(ghost cycles: seq<Cycle>, total: Bucket, paired: Bucket, singleLeg: Bucket, unclassified: Bucket,
                     directions: map<TradeDirection, Bucket>)
    returns (h: History)
    requires Bucketed(cycles, total, paired, singleLeg, unclassified) && Directed(cycles, directions)
    ensures h.total == Finalized(TallyOf(cycles, Every))
    ensures h.paired == Finalized(TallyOf(cycles, OfKind(Paired)))
    ensures h.singleLeg == Finalized(TallyOf(cycles, OfKind(SingleLeg)))
    ensures h.unclassified == Finalized(TallyOf(cycles, OfKind(Unclassified)))
    ensures forall d :: BucketFor(h.directions, d) == Finalized(TallyOf(cycles, Towards(d)))
  {
    AllLossesNotNegative(cycles);
    var t := Finalize(total);
    var p := Finalize(paired);
    var s := Finalize(singleLeg);
    var u := Finalize(unclassified);
    var ds := FinalizeDirections(cycles, directions);
    h := History(t, p, s, u, ds);
  }

  lemma NextDirections(cycles: seq<Cycle>, k: nat, before: map<TradeDirection, Bucket>, after: map<TradeDirection, Bucket>)
    requires k < |cycles| && Directed(cycles[..k], before)
    requires var c := cycles[k];
             after == if c.direction.None? then before
                      else before[c.direction.value := Raw(Plus(BucketFor(before, c.direction.value).tally, TallyOne(c)))]
    ensures Directed(cycles[..k + 1], after)
  {
    forall d
      ensures BucketFor(after, d) == Raw(TallyOf(cycles[..k + 1], Towards(d)))
    {
      NextCycle(cycles, k, Towards(d));
      assert BucketFor(before, d) == Raw(TallyOf(cycles[..k], Towards(d)));
    }
  }

  /** The summary loop fills every bucket with exactly its cycles. */
  method SummarizeCycles(cycles: seq<Cycle>) returns (h: History)
    ensures h.total == Finalized(TallyOf(cycles, Every))
    ensures h.paired == Finalized(TallyOf(cycles, OfKind(Paired)))
    ensures h.singleLeg == Finalized(TallyOf(cycles, OfKind(SingleLeg)))
    ensures h.unclassified == Finalized(TallyOf(cycles, OfKind(Unclassified)))
    ensures forall d :: BucketFor(h.directions, d) == Finalized(TallyOf(cycles, Towards(d)))
  {
    var total, paired, singleLeg, unclassified := EMPTY, EMPTY, EMPTY, EMPTY;
    var directions: map<TradeDirection, Bucket> := map[];
    for k := 0 to |cycles|
      invariant Bucketed(cycles[..k], total, paired, singleLeg, unclassified)
      invariant Directed(cycles[..k], directions)
    {
      var cycle := cycles[k];
      NextCycle(cycles, k, Every);
      NextCycle(cycles, k, OfKind(Paired));
      NextCycle(cycles, k, OfKind(SingleLeg));
      NextCycle(cycles, k, OfKind(Unclassified));
      total := Add(total, cycle);
      match cycle.kind {
        case Paired => paired := Add(paired, cycle);
        case SingleLeg => singleLeg := Add(singleLeg, cycle);
        case Unclassified => unclassified := Add(unclassified, cycle);
      }
      ghost var before := directions;
      if cycle.direction.Some? {
        var d := cycle.direction.value;
        assert BucketFor(directions, d) == Raw(TallyOf(cycles[..k], Towards(d)));
        var bucket := Add(BucketFor(directions, d), cycle);
        directions := directions[d := bucket];
      }
      NextDirections(cycles, k, before, directions);
    }
    assert cycles[..|cycles|] == cycles;
    h := FinalizeAll(cycles, total, paired, singleLeg, unclassified, directions);
  }
}
