/** Trade cycles: how a trade history splits into round trips, and what each one adds up to. */
module Cycles {
  import opened Trading

  datatype TradeAction = OpenLong | CloseLong | OpenShort | CloseShort

  datatype HistoryRow = HistoryRow(
    time: int, coin: Symbol, action: TradeAction, size: real, notional: real, fee: real, closedPnl: real)

  datatype CycleKind = Paired | SingleLeg | Unclassified

  datatype Cycle = Cycle(
    startTime: int, endTime: int, rowCount: nat, kind: CycleKind, direction: Option<TradeDirection>, closed: bool,
    netPnl: real, fees: real, grossPnl: real, openNotional: real)

  function SignedDelta(action: TradeAction, size: real): real {
    match action
    case OpenLong => size
    case CloseShort => size
    case CloseLong => -size
    case OpenShort => -size
  }

  predicate IsOpen(action: TradeAction) {
    action == OpenLong || action == OpenShort
  }

  // ---- sums over rows ------------------------------------------------------------------------

  function Last<T>(s: seq<T>): T
    requires |s| > 0
  {
    s[|s| - 1]
  }

  function Init<T>(s: seq<T>): seq<T>
    requires |s| > 0
  {
    s[..|s| - 1]
  }

  type Field = HistoryRow -> real

  function RowSum(rows: seq<HistoryRow>, field: Field): real {
    if |rows| == 0 then 0.0 else RowSum(Init(rows), field) + field(Last(rows))
  }

  const CLOSED_PNL: Field := (r: HistoryRow) => r.closedPnl
  const FEE: Field := (r: HistoryRow) => r.fee
  const OPENED: Field := (r: HistoryRow) => if IsOpen(r.action) then r.notional else 0.0
  const ETH: Field := (r: HistoryRow) => if r.coin == EthPerp then SignedDelta(r.action, r.size) else 0.0
  const BTC: Field := (r: HistoryRow) => if r.coin == BtcPerp then SignedDelta(r.action, r.size) else 0.0

  lemma {:induction false} RowSumAppend(a: seq<HistoryRow>, b: seq<HistoryRow>, field: Field)
    ensures RowSum(a + b, field) == RowSum(a, field) + RowSum(b, field)
  {
    if |b| == 0 {
      assert a + b == a;
    } else {
      RowSumAppend(a, Init(b), field);
      assert Init(a + b) == a + Init(b);
    }
  }

  /** No position left in either coin. */
  predicate NetsToZero(rows: seq<HistoryRow>) {
    RowSum(rows, ETH) == 0.0 && RowSum(rows, BTC) == 0.0
  }

  // ---- the partition ------------------------------------------------------------------------

  function Flatten(parts: seq<seq<HistoryRow>>): seq<HistoryRow> {
    if |parts| == 0 then [] else Flatten(Init(parts)) + Last(parts)
  }

  /** A round trip: back to zero at its last row and at no earlier one. */
  ghost predicate RoundTrip(part: seq<HistoryRow>) {
    |part| > 0 && NetsToZero(part) && Unfinished(Init(part))
  }

  /** Rows that never get back to zero. */
  ghost predicate Unfinished(part: seq<HistoryRow>) {
    forall k :: 0 < k <= |part| ==> !NetsToZero(part[..k])
  }

  /** The exact partition of a history: in order, all round trips, but for an unfinished rest. */
  ghost predicate Partition(rows: seq<HistoryRow>, trips: seq<seq<HistoryRow>>, rest: seq<HistoryRow>) {
    && Flatten(trips) + rest == rows
    && (forall i :: 0 <= i < |trips| ==> RoundTrip(trips[i]))
    && Unfinished(rest)
  }

  lemma {:induction false} TripsNetToZero(trips: seq<seq<HistoryRow>>)
    requires forall i :: 0 <= i < |trips| ==> RoundTrip(trips[i])
    ensures NetsToZero(Flatten(trips))
  {
    if |trips| > 0 {
      TripsNetToZero(Init(trips));
      RowSumAppend(Flatten(Init(trips)), Last(trips), ETH);
      RowSumAppend(Flatten(Init(trips)), Last(trips), BTC);
    }
  }

  /** One more row either finishes a round trip or stays in the rest. */
  lemma PartitionStep(rows: seq<HistoryRow>, trips: seq<seq<HistoryRow>>, rest: seq<HistoryRow>, row: HistoryRow)
    requires Partition(rows, trips, rest)
    ensures NetsToZero(rest + [row]) <==> NetsToZero(rows + [row])
    ensures if NetsToZero(rest + [row]) then Partition(rows + [row], trips + [rest + [row]], [])
            else Partition(rows + [row], trips, rest + [row])
  {
    TripsNetToZero(trips);
    assert Flatten(trips) + (rest + [row]) == rows + [row];
    RowSumAppend(Flatten(trips), rest + [row], ETH);
    RowSumAppend(Flatten(trips), rest + [row], BTC);
    assert Init(rest + [row]) == rest;
    assert (rest + [row])[..|rest| + 1] == rest + [row];
    assert forall k :: 0 < k <= |rest| ==> (rest + [row])[..k] == rest[..k];
    var trips' := trips + [rest + [row]];
    assert Init(trips') == trips && Last(trips') == rest + [row];
    assert Flatten(trips') + [] == Flatten(trips) + (rest + [row]);
  }

  /** Row by row: the finished round trips and the rest. */
  function Split(rows: seq<HistoryRow>): (seq<seq<HistoryRow>>, seq<HistoryRow>) {
    if |rows| == 0 then ([], [])
    else
      var (trips, rest) := Split(Init(rows));
      var current := rest + [Last(rows)];
      if NetsToZero(current) then (trips + [current], []) else (trips, current)
  }

  lemma {:induction false} SplitIsPartition(rows: seq<HistoryRow>)
    ensures Partition(rows, Split(rows).0, Split(rows).1)
  {
    if |rows| > 0 {
      SplitIsPartition(Init(rows));
      PartitionStep(Init(rows), Split(Init(rows)).0, Split(Init(rows)).1, Last(rows));
      assert Init(rows) + [Last(rows)] == rows;
    }
  }

  lemma {:induction false} NoEmptyTrip(trips: seq<seq<HistoryRow>>)
    requires forall i :: 0 <= i < |trips| ==> RoundTrip(trips[i])
    ensures |Flatten(trips)| >= |trips|
  {
    if |trips| > 0 {
      NoEmptyTrip(Init(trips));
    }
  }

  lemma ShorterRest(rows: seq<HistoryRow>, trips: seq<seq<HistoryRow>>, rest: seq<HistoryRow>)
    requires Partition(rows, trips, rest) && |rest| > 0
    ensures Partition(Init(rows), trips, Init(rest)) && Init(rest) + [Last(rows)] == rest && !NetsToZero(rest)
  {
    assert Flatten(trips) + Init(rest) == Init(rows);
    assert forall k :: 0 < k <= |rest| - 1 ==> Init(rest)[..k] == rest[..k];
    assert rest[..|rest|] == rest;
  }

  lemma OpenedTrip(rows: seq<HistoryRow>, trips: seq<seq<HistoryRow>>)
    requires Partition(rows, trips, []) && |trips| > 0
    ensures var part := Last(trips);
            && |rows| > 0 && |part| > 0 && Partition(Init(rows), Init(trips), Init(part))
            && Init(part) + [Last(rows)] == part && NetsToZero(part)
  {
    var part := Last(trips);
    assert RoundTrip(part);
    assert Flatten(trips) == rows;
    assert Flatten(Init(trips)) + Init(part) == Init(rows);
  }

  /** There is only one such partition. */
  lemma {:induction false} PartitionUnique(rows: seq<HistoryRow>, trips: seq<seq<HistoryRow>>, rest: seq<HistoryRow>)
    requires Partition(rows, trips, rest)
    ensures Split(rows) == (trips, rest)
  {
    NoEmptyTrip(trips);
    if |rows| > 0 {
      if |rest| > 0 {
        ShorterRest(rows, trips, rest);
        PartitionUnique(Init(rows), trips, Init(rest));
      } else {
        OpenedTrip(rows, trips);
        PartitionUnique(Init(rows), Init(trips), Init(Last(trips)));
        assert Init(trips) + [Last(trips)] == trips;
      }
    }
  }

  // ---- one cycle ------------------------------------------------------------------------------

  function DetectDirection(eth: real, btc: real): Option<TradeDirection> {
    if eth > 0.0 && btc < 0.0 then Some(LongEthShortBtc)
    else if eth < 0.0 && btc > 0.0 then Some(ShortEthLongBtc)
    else None
  }

  /** The direction of the first row after which the legs oppose each other. */
  function FirstDirection(rows: seq<HistoryRow>): Option<TradeDirection> {
    if |rows| == 0 then None
    else if FirstDirection(Init(rows)).Some? then FirstDirection(Init(rows))
    else DetectDirection(RowSum(rows, ETH), RowSum(rows, BTC))
  }

  predicate Trades(rows: seq<HistoryRow>, coin: Symbol) {
    exists i :: 0 <= i < |rows| && rows[i].coin == coin
  }

  function KindOf(rows: seq<HistoryRow>): CycleKind {
    if FirstDirection(rows).Some? then Paired
    else if Trades(rows, EthPerp) != Trades(rows, BtcPerp) then SingleLeg
    else Unclassified
  }

  function CycleOf(rows: seq<HistoryRow>, closed: bool): Cycle
    requires |rows| > 0
  {
    Cycle(rows[0].time, Last(rows).time, |rows|, KindOf(rows), FirstDirection(rows), closed,
          RowSum(rows, CLOSED_PNL), RowSum(rows, FEE), RowSum(rows, CLOSED_PNL) + RowSum(rows, FEE), RowSum(rows, OPENED))
  }

  lemma {:induction false} NoTradeNoPosition(rows: seq<HistoryRow>)
    ensures !Trades(rows, EthPerp) ==> RowSum(rows, ETH) == 0.0
    ensures !Trades(rows, BtcPerp) ==> RowSum(rows, BTC) == 0.0
  {
    if |rows| > 0 {
      NoTradeNoPosition(Init(rows));
      assert Last(rows).coin == EthPerp || Last(rows).coin == BtcPerp;
    }
  }

  /** A paired cycle did trade both coins, against each other. */
  lemma {:induction false} PairedTradesBoth(rows: seq<HistoryRow>)
    ensures KindOf(rows) == Paired ==> Trades(rows, EthPerp) && Trades(rows, BtcPerp)
    ensures KindOf(rows) == Paired <==>
              exists k :: 0 < k <= |rows| && DetectDirection(RowSum(rows[..k], ETH), RowSum(rows[..k], BTC)).Some?
  {
    if |rows| > 0 {
      var init := Init(rows);
      PairedTradesBoth(init);
      NoTradeNoPosition(rows);
      assert forall k :: 0 <= k <= |init| ==> rows[..k] == init[..k];
      assert rows[..|rows|] == rows;
      assert forall i :: 0 <= i < |init| ==> init[i] == rows[i];
    }
  }

  /** Bought and sold quantities of a coin. */
  function Bought(coin: Symbol): Field {
    (r: HistoryRow) => if r.coin == coin && (r.action == OpenLong || r.action == CloseShort) then r.size else 0.0
  }

  function Sold(coin: Symbol): Field {
    (r: HistoryRow) => if r.coin == coin && (r.action == OpenShort || r.action == CloseLong) then r.size else 0.0
  }

  /** A position is what was bought less what was sold. */
  lemma {:induction false} PositionIsBoughtLessSold(rows: seq<HistoryRow>)
    ensures RowSum(rows, ETH) == RowSum(rows, Bought(EthPerp)) - RowSum(rows, Sold(EthPerp))
    ensures RowSum(rows, BTC) == RowSum(rows, Bought(BtcPerp)) - RowSum(rows, Sold(BtcPerp))
  {
    if |rows| > 0 {
      PositionIsBoughtLessSold(Init(rows));
    }
  }

  /** The direction of the legs after the first `k` rows, if they oppose each other. */
  function OpposedAfter(rows: seq<HistoryRow>, k: nat): Option<TradeDirection>
    requires k <= |rows|
  {
    var eth := RowSum(rows[..k], Bought(EthPerp)) - RowSum(rows[..k], Sold(EthPerp));
    var btc := RowSum(rows[..k], Bought(BtcPerp)) - RowSum(rows[..k], Sold(BtcPerp));
    if eth > 0.0 > btc then Some(LongEthShortBtc) else if eth < 0.0 < btc then Some(ShortEthLongBtc) else None
  }

  /** They first do so after row `k`. */
  ghost predicate FirstOpposed(rows: seq<HistoryRow>, k: nat, direction: TradeDirection) {
    && 0 < k <= |rows| && OpposedAfter(rows, k) == Some(direction)
    && forall j :: 0 < j < k ==> OpposedAfter(rows, j) == None
  }

  lemma OpposedByThen(rows: seq<HistoryRow>, k: nat)
    requires 0 < k <= |rows|
    ensures OpposedAfter(rows, |rows|) == DetectDirection(RowSum(rows, ETH), RowSum(rows, BTC))
    ensures k < |rows| ==> OpposedAfter(rows, k) == OpposedAfter(Init(rows), k)
  {
    PositionIsBoughtLessSold(rows);
    assert rows[..|rows|] == rows;
    if k < |rows| {
      assert rows[..k] == Init(rows)[..k];
    }
  }

  /** The direction of a cycle is that of its legs when they first oppose each other. */
  lemma {:induction false} DirectionIsFirstOpposed(rows: seq<HistoryRow>, direction: TradeDirection)
    ensures FirstDirection(rows) == Some(direction) <==> exists k :: FirstOpposed(rows, k, direction)
    ensures FirstDirection(rows) == None ==> forall j :: 0 < j <= |rows| ==> OpposedAfter(rows, j) == None
  {
    if |rows| > 0 {
      var init := Init(rows);
      DirectionIsFirstOpposed(init, direction);
      forall j | 0 < j <= |rows|
        ensures j < |rows| ==> OpposedAfter(rows, j) == OpposedAfter(init, j)
      {
        OpposedByThen(rows, j);
      }
      OpposedByThen(rows, |rows|);
      if k: nat :| FirstOpposed(init, k, direction) {
        assert FirstOpposed(rows, k, direction);
      }
      if k: nat :| FirstOpposed(rows, k, direction) {
        assert k < |rows| ==> FirstOpposed(init, k, direction);
        if k == |rows| && FirstDirection(init).Some? {
          DirectionIsFirstOpposed(init, FirstDirection(init).value);
        }
      }
      if FirstDirection(init) == None && FirstDirection(rows) == Some(direction) {
        assert FirstOpposed(rows, |rows|, direction);
      }
    }
  }

  /** The accumulation loop over the rows of a cycle. */
  method BuildCycle(rows: seq<HistoryRow>, closed: bool) returns (cycle: Cycle)
    requires |rows| > 0
    ensures cycle == CycleOf(rows, closed)
  {
    var eth, btc, net, fees, openNotional := 0.0, 0.0, 0.0, 0.0, 0.0;
    var sawEth, sawBtc := false, false;
    var direction: Option<TradeDirection> := None;
    for k := 0 to |rows|
      invariant sawEth == Trades(rows[..k], EthPerp) && sawBtc == Trades(rows[..k], BtcPerp)
      invariant eth == RowSum(rows[..k], ETH) && btc == RowSum(rows[..k], BTC)
      invariant net == RowSum(rows[..k], CLOSED_PNL) && fees == RowSum(rows[..k], FEE) && openNotional == RowSum(rows[..k], OPENED)
      invariant direction == FirstDirection(rows[..k])
    {
      var row := rows[k];
      NextRow(rows, k);
      sawEth := sawEth || row.coin == EthPerp;
      sawBtc := sawBtc || row.coin == BtcPerp;
      net := net + row.closedPnl;
      fees := fees + row.fee;
      if IsOpen(row.action) {
        openNotional := openNotional + row.notional;
      }
      var delta := SignedDelta(row.action, row.size);
      match row.coin {
        case EthPerp => eth := eth + delta;
        case BtcPerp => btc := btc + delta;
      }
      if direction.None? {
        direction := DetectDirection(eth, btc);
      }
    }
    assert rows[..|rows|] == rows;
    var kind := if direction.Some? then Paired else if sawEth != sawBtc then SingleLeg else Unclassified;
    cycle := Cycle(rows[0].time, rows[|rows| - 1].time, |rows|, kind, direction, closed, net, fees, net + fees, openNotional);
  }

  lemma NextRow(rows: seq<HistoryRow>, k: nat)
    requires k < |rows|
    ensures forall field :: RowSum(rows[..k + 1], field) == RowSum(rows[..k], field) + field(rows[k])
    ensures forall coin :: Trades(rows[..k + 1], coin) == (Trades(rows[..k], coin) || rows[k].coin == coin)
    ensures FirstDirection(rows[..k + 1])
            == if FirstDirection(rows[..k]).Some? then FirstDirection(rows[..k])
               else DetectDirection(RowSum(rows[..k + 1], ETH), RowSum(rows[..k + 1], BTC))
  {
    var next := rows[..k + 1];
    assert Init(next) == rows[..k] && Last(next) == rows[k];
    forall coin
      ensures Trades(next, coin) == (Trades(rows[..k], coin) || rows[k].coin == coin)
    {
      if rows[k].coin == coin {
        assert next[k].coin == coin;
      }
      if Trades(rows[..k], coin) {
        var i :| 0 <= i < k && rows[..k][i].coin == coin;
        assert next[i].coin == coin;
      }
    }
  }

  // ---- all cycles -------------------------------------------------------------------------------

  predicate NonEmpty(parts: seq<seq<HistoryRow>>) {
    forall i :: 0 <= i < |parts| ==> |parts[i]| > 0
  }

  function ClosedCycles(trips: seq<seq<HistoryRow>>): (cycles: seq<Cycle>)
    requires NonEmpty(trips)
    ensures |cycles| == |trips|
    ensures forall i :: 0 <= i < |trips| ==> cycles[i] == CycleOf(trips[i], true)
  {
    seq(|trips|, i requires 0 <= i < |trips| => CycleOf(trips[i], true))
  }

  /** A closed cycle for every round trip, and an open one for the rest if there is any. */
  ghost predicate CyclesOf(rows: seq<HistoryRow>, cycles: seq<Cycle>) {
    var (trips, rest) := Split(rows);
    && NonEmpty(trips)
    && cycles == ClosedCycles(trips) + (if rest == [] then [] else [CycleOf(rest, false)])
  }

  lemma SplitStep(rows: seq<HistoryRow>, k: nat)
    requires k < |rows|
    ensures var (trips, rest) := Split(rows[..k]);
            var current := rest + [rows[k]];
            && Split(rows[..k + 1]) == (if NetsToZero(rows[..k + 1]) then (trips + [current], []) else (trips, current))
    ensures RowSum(rows[..k + 1], ETH) == RowSum(rows[..k], ETH) + ETH(rows[k])
    ensures RowSum(rows[..k + 1], BTC) == RowSum(rows[..k], BTC) + BTC(rows[k])
    ensures NonEmpty(Split(rows[..k]).0) && NonEmpty(Split(rows[..k + 1]).0)
  {
    var init, next := rows[..k], rows[..k + 1];
    assert Init(next) == init && Last(next) == rows[k] && init + [rows[k]] == next;
    SplitIsPartition(init);
    SplitIsPartition(next);
    PartitionStep(init, Split(init).0, Split(init).1, rows[k]);
  }

  /** The reconstruction loop. */
  method ReconstructCycles(rows: seq<HistoryRow>) returns (cycles: seq<Cycle>)
    ensures CyclesOf(rows, cycles)
  {
    cycles := [];
    var current: seq<HistoryRow> := [];
    var eth, btc := 0.0, 0.0;
    for k := 0 to |rows|
      invariant NonEmpty(Split(rows[..k]).0)
      invariant cycles == ClosedCycles(Split(rows[..k]).0) && current == Split(rows[..k]).1
      invariant eth == RowSum(rows[..k], ETH) && btc == RowSum(rows[..k], BTC)
    {
      var row := rows[k];
      SplitStep(rows, k);
      var delta := SignedDelta(row.action, row.size);
      match row.coin {
        case EthPerp => eth := eth + delta;
        case BtcPerp => btc := btc + delta;
      }
      current := current + [row];
      if eth == 0.0 && btc == 0.0 && current != [] {
        var cycle := BuildCycle(current, true);
        cycles := cycles + [cycle];
        current := [];
      }
    }
    assert rows[..|rows|] == rows;
    if current != [] {
      var cycle := BuildCycle(current, false);
      cycles := cycles + [cycle];
    }
  }
}
