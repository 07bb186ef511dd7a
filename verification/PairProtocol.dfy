/** What the two-leg protocol guarantees for every sequence of exchange answers. */
module PairProtocol {
  import opened Numbers
  import opened Trading
  import opened State
  import opened Pricing
  import opened Execution

  /** A request that ends in a fill moved its leg by exactly that fill; one that ends resting
      added one new order; one that fails changed nothing. */
  ghost predicate PlacedExactly(v: Venue, order: OrderRequest, v': Venue, r: Reply<SubmitResult>) {
    && v'.Sound() && v'.paper == v.paper
    && match r
       case Ok(Filled(fill)) =>
         && v'.book == v.book.Move(order.symbol, Signed(order.side, fill.qty))
         && (if v.paper then fill.qty == order.qty else fill.qty > 0.0)
       case Ok(Resting(oid)) =>
         && order.orderType != Market && !v.paper
         && oid == v.book.nextOid && oid !in v.book.resting
         && v'.book == v.book.(resting := v.book.resting + {oid}, nextOid := oid + 1)
       case Err(_) => v'.book == v.book && (v.paper ==> v'.sent == v.sent)
  }

  lemma AskConsumes(v: Venue, request: Request)
    requires v.Sound()
    ensures var v' := Ask(v, request).0; v'.Sound() && v'.book == v.book && v'.paper == v.paper
  {
    var v' := Ask(v, request).0;
    assert forall i :: 0 <= i < |v'.script| && v'.script[i].FillAnswer? ==> v'.script[i] == v.script[i + 1];
  }

  /** One order sent: a fill moves its leg by exactly the reported quantity, a resting order is new
      on the book, an error changes nothing, and paper fills all. */
  lemma PlaceOnce(v: Venue, order: OrderRequest)
    requires v.Sound()
    ensures PlacedExactly(v, order, Place(v, order).0, Place(v, order).1)
    ensures Place(v, order).0.sent == v.sent + [OrderSent(order)]
    ensures v.paper ==> Place(v, order).1.Ok?
  {
    if !v.paper {
      AskConsumes(v, OrderSent(order));
    }
  }

  lemma {:induction false} RetryPlaceExact(v: Venue, order: OrderRequest, attempt: nat, attempts: nat)
    requires v.Sound() && order.orderType != Market
    ensures PlacedExactly(v, order, RetryPlace(v, order, attempt, attempts).0, RetryPlace(v, order, attempt, attempts).1)
    ensures |v.sent| <= |RetryPlace(v, order, attempt, attempts).0.sent|
    ensures attempt <= attempts ==> |RetryPlace(v, order, attempt, attempts).0.sent| <= |v.sent| + attempts - attempt
    decreases attempts - attempt
  {
    if attempt < attempts {
      PlaceOnce(v, order);
      var (v', r) := Place(v, order);
      if r.Err? && r.error.Transient? && attempt + 1 < attempts {
        RetryPlaceExact(v', order, attempt + 1, attempts);
      }
    }
  }

  lemma {:induction false} RetryMarketExact(v: Venue, order: OrderRequest, base: real, attempt: nat, attempts: nat)
    requires v.Sound() && order.orderType == Market
    ensures PlacedExactly(v, order, RetryMarket(v, order, base, attempt, attempts).0,
                          RetryMarket(v, order, base, attempt, attempts).1)
    ensures |v.sent| <= |RetryMarket(v, order, base, attempt, attempts).0.sent|
    ensures attempt <= attempts ==>
              |RetryMarket(v, order, base, attempt, attempts).0.sent| <= |v.sent| + attempts - attempt
    decreases attempts - attempt
  {
    if attempt < attempts && RequotedMarketPrice(base, order.side, attempt).Some? {
      var priced := order.(limitPrice := RequotedMarketPrice(base, order.side, attempt));
      PlaceOnce(v, priced);
      var (v', r) := Place(v, priced);
      if r.Err? {
        RetryMarketExact(v', order, base, attempt + 1, attempts);
      }
    }
  }

  /** One retried request: exact effect on the book, and a bounded number of calls. */
  lemma RetryExact(v: Venue, order: OrderRequest, maxAttempts: nat)
    requires v.Sound()
    ensures PlacedExactly(v, order, RetrySubmitResult(v, order, maxAttempts).0,
                          RetrySubmitResult(v, order, maxAttempts).1)
    ensures |RetrySubmitResult(v, order, maxAttempts).0.sent|
            <= |v.sent| + if order.orderType == Market then Max4(maxAttempts) else Max1(maxAttempts)
  {
    if order.orderType == Market {
      if order.limitPrice.Some? {
        RetryMarketExact(v, order, order.limitPrice.value, 0, Max4(maxAttempts));
      }
    } else {
      RetryPlaceExact(v, order, 0, Max1(maxAttempts));
    }
  }

  /** The answers a retried market order consumed: all but the last were retryable, and only the
      last may be a fill. */
  lemma {:induction false} NoCallAfterFill(v: Venue, order: OrderRequest, base: real, attempt: nat, attempts: nat)
    requires !v.paper && order.orderType == Market && attempt <= attempts
    ensures var v' := RetryMarket(v, order, base, attempt, attempts).0;
            var used := |v'.sent| - |v.sent|;
            && 0 <= used && v'.script == (if used <= |v.script| then v.script[used..] else [])
            && forall i :: 0 <= i < used - 1 && i < |v.script| ==> !v.script[i].FillAnswer?
    decreases attempts - attempt
  {
    if attempt < attempts && RequotedMarketPrice(base, order.side, attempt).Some? {
      var priced := order.(limitPrice := RequotedMarketPrice(base, order.side, attempt));
      var (v1, r) := Place(v, priced);
      if r.Err? && (r.error.Transient? || IsIocNoMatch(r.error)) && attempt + 1 < attempts {
        NoCallAfterFill(v1, order, base, attempt + 1, attempts);
        var used := |RetryMarket(v, order, base, attempt, attempts).0.sent| - |v.sent|;
        forall i | 0 <= i < used - 1 && i < |v.script|
          ensures !v.script[i].FillAnswer?
        {
          if i > 0 {
            assert v1.script[i - 1] == v.script[i];
          }
        }
      }
    }
  }

  /** One cancellation sent: without an error exactly that order is off the book, with one nothing
      changed. */
  lemma CancelOnceExact(v: Venue, oid: nat)
    requires v.Sound()
    ensures var (v', r) := CancelOnce(v, oid);
            && v'.Sound() && v'.paper == v.paper && v'.sent == v.sent + [CancelSent(oid)]
            && v'.book == if r.Ok? && !v.paper then v.book.(resting := v.book.resting - {oid}) else v.book
  {
    if !v.paper {
      AskConsumes(v, CancelSent(oid));
    }
  }

  lemma {:induction false} CancelExact(v: Venue, oid: nat, attempt: nat, attempts: nat)
    requires v.Sound() && !v.paper
    ensures var (v', r) := RetryCancelFrom(v, oid, attempt, attempts);
            && v'.Sound() && !v'.paper
            && v'.book == if r.Ok? then v.book.(resting := v.book.resting - {oid}) else v.book
    decreases attempts - attempt
  {
    if attempt < attempts {
      CancelOnceExact(v, oid);
      var (v', r) := CancelOnce(v, oid);
      if r.Err? && r.error.Transient? && attempt + 1 < attempts {
        CancelExact(v', oid, attempt + 1, attempts);
      }
    }
  }

  // ---- opening ----------------------------------------------------------------------------

  /** Two orders for the two legs. */
  predicate IsPair(eth: OrderRequest, btc: OrderRequest) {
    eth.symbol == EthPerp && btc.symbol == BtcPerp
  }

  /** A leg that was filled and then had to be undone: what the exchange reported as filled, and
      what it reported for the rollback, if that filled. */
  datatype Undo = NoUndo | Undo(symbol: Symbol, filled: real, back: Option<real>)

  /** The undo of a request that filled, by the given order sent next. */
  function UndoBy(v: Venue, order: OrderRequest, filled: real, maxAttempts: nat): Undo {
    var r := RetryFilled(v, order, maxAttempts).1;
    Undo(order.symbol, filled, if r.Ok? then Some(r.value.qty) else None)
  }

  /** The leg that opening a pair had to undo, from the exchange's own reports. */
  function OpenUndo(v: Venue, eth: OrderRequest, btc: OrderRequest, maxAttempts: nat): Undo {
    var (v1, first) := RetrySubmitResult(v, eth, maxAttempts);
    var (v2, second) := RetrySubmitResult(v1, btc, maxAttempts);
    match first
    case Err(_) => NoUndo
    case Ok(Filled(fill)) =>
      if second.Ok? && second.value.Filled? then NoUndo
      else UndoBy(v2, RollbackOrder(eth, fill), fill.qty, maxAttempts)
    case Ok(Resting(_)) =>
      if second.Ok? && second.value.Filled?
      then UndoBy(v2, RollbackOrder(btc, second.value.fill), second.value.fill.qty, maxAttempts)
      else NoUndo
  }

  /** The leg of an undo as the reports leave it: the rollback sells whatever the leg did. */
  function Undone(before: real, side: OrderSide, undo: Undo): real
    requires undo.Undo?
  {
    before + Signed(side, undo.filled) - (if undo.back.Some? then undo.back.value else 0.0)
  }

  /** The undo is of this leg, and it did or did not fill. */
  predicate UndoOf(undo: Undo, symbol: Symbol, rolledBack: bool) {
    && undo.Undo? && undo.symbol == symbol && undo.filled > 0.0
    && (undo.back.Some? <==> rolledBack) && (undo.back.Some? ==> undo.back.value > 0.0)
  }

  /** The book an unsuccessful open leaves: which leg was undone and to what quantity, and which
      order stays on the book. */
  ghost predicate OpenErrorBook(before: Book, eth: OrderRequest, btc: OrderRequest, error: ExecError, undo: Undo, after: Book) {
    var firstRests := before.resting + {before.nextOid};
    match error
    case PartialFill(SecondRestingRolledBack) =>
      UndoOf(undo, EthPerp, true) && after.eth == Undone(before.eth, eth.side, undo) && after.btc == before.btc
      && after.resting == firstRests
    case PartialFill(SecondRestingRollbackFailed) =>
      UndoOf(undo, EthPerp, false) && after.eth == Undone(before.eth, eth.side, undo) && after.btc == before.btc
      && after.resting == firstRests
    case PartialFill(SecondFailedRolledBack) =>
      UndoOf(undo, EthPerp, true) && after.eth == Undone(before.eth, eth.side, undo) && after.btc == before.btc
      && after.resting == before.resting
    case PartialFill(SecondFailedRollbackFailed) =>
      UndoOf(undo, EthPerp, false) && after.eth == Undone(before.eth, eth.side, undo) && after.btc == before.btc
      && after.resting == before.resting
    case PartialFill(FirstRestingRolledBack) =>
      UndoOf(undo, BtcPerp, true) && after.btc == Undone(before.btc, btc.side, undo) && after.eth == before.eth
      && after.resting == firstRests
    case PartialFill(FirstRestingRollbackFailed) =>
      UndoOf(undo, BtcPerp, false) && after.btc == Undone(before.btc, btc.side, undo) && after.eth == before.eth
      && after.resting == firstRests
    case PartialFill(FirstCancelFailed) =>
      undo == NoUndo && after.eth == before.eth && after.btc == before.btc && after.resting == firstRests
    case _ =>
      undo == NoUndo && after.eth == before.eth && after.btc == before.btc && after.resting == before.resting
  }

  /** The whole outcome table of opening a pair, for every script of answers. */
  lemma OpenPairOutcome(v: Venue, eth: OrderRequest, btc: OrderRequest, maxAttempts: nat)
    requires v.Sound() && !v.paper && IsPair(eth, btc)
    ensures var (v', r) := OpenPair(v, eth, btc, maxAttempts);
            && v'.Sound() && !v'.paper
            && match r
               case Ok(PairFilled(fills)) =>
                 && fills.eth.qty > 0.0 && fills.btc.qty > 0.0
                 && v'.book.eth == v.book.eth + Signed(eth.side, fills.eth.qty)
                 && v'.book.btc == v.book.btc + Signed(btc.side, fills.btc.qty)
                 && v'.book.resting == v.book.resting
               case Ok(PairResting(ethOid, btcOid)) =>
                 && v'.book.eth == v.book.eth && v'.book.btc == v.book.btc
                 && ethOid != btcOid && ethOid !in v.book.resting && btcOid !in v.book.resting
                 && v'.book.resting == v.book.resting + {ethOid, btcOid}
               case Err(error) =>
                 OpenErrorBook(v.book, eth, btc, error, OpenUndo(v, eth, btc, maxAttempts), v'.book)
  {
    RetryExact(v, eth, maxAttempts);
    var (v1, first) := RetrySubmitResult(v, eth, maxAttempts);
    if first.Err? {
      RequestErrorNotPartial(v, eth, maxAttempts);
      return;
    }
    RetryExact(v1, btc, maxAttempts);
    var (v2, second) := RetrySubmitResult(v1, btc, maxAttempts);
    match first.value
    case Filled(ethFill) =>
      if !(second.Ok? && second.value.Filled?) {
        FirstLegFilled(v, v1, v2, eth, btc, ethFill, second, maxAttempts);
      }
    case Resting(ethOid) =>
      if !(second.Ok? && second.value.Resting?) {
        FirstLegResting(v, v1, v2, eth, btc, ethOid, second, maxAttempts);
      }
  }

  lemma FirstLegFilled(v: Venue, v1: Venue, v2: Venue, eth: OrderRequest, btc: OrderRequest,
                       ethFill: OrderFill, second: Reply<SubmitResult>, maxAttempts: nat)
    requires v.Sound() && !v.paper && IsPair(eth, btc)
    requires (v1, Ok(Filled(ethFill))) == RetrySubmitResult(v, eth, maxAttempts)
    requires (v2, second) == RetrySubmitResult(v1, btc, maxAttempts)
    requires PlacedExactly(v, eth, v1, Ok(Filled(ethFill))) && PlacedExactly(v1, btc, v2, second)
    requires !(second.Ok? && second.value.Filled?)
    ensures var (v', r) := OpenPair(v, eth, btc, maxAttempts);
            v'.Sound() && !v'.paper && r.Err?
            && OpenErrorBook(v.book, eth, btc, r.error, OpenUndo(v, eth, btc, maxAttempts), v'.book)
  {
    RetryExact(v2, RollbackOrder(eth, ethFill), maxAttempts);
  }

  lemma FirstLegResting(v: Venue, v1: Venue, v2: Venue, eth: OrderRequest, btc: OrderRequest,
                        ethOid: nat, second: Reply<SubmitResult>, maxAttempts: nat)
    requires v.Sound() && !v.paper && IsPair(eth, btc)
    requires (v1, Ok(Resting(ethOid))) == RetrySubmitResult(v, eth, maxAttempts)
    requires (v2, second) == RetrySubmitResult(v1, btc, maxAttempts)
    requires PlacedExactly(v, eth, v1, Ok(Resting(ethOid))) && PlacedExactly(v1, btc, v2, second)
    requires !(second.Ok? && second.value.Resting?)
    ensures var (v', r) := OpenPair(v, eth, btc, maxAttempts);
            v'.Sound() && !v'.paper && r.Err?
            && OpenErrorBook(v.book, eth, btc, r.error, OpenUndo(v, eth, btc, maxAttempts), v'.book)
  {
    match second
    case Err(_) =>
      CancelExact(v2, ethOid, 0, Max1(maxAttempts));
      assert v.book.resting + {ethOid} - {ethOid} == v.book.resting;
    case Ok(Filled(btcFill)) =>
      RetryExact(v2, RollbackOrder(btc, btcFill), maxAttempts);
  }

  /** From a flat book, every unsuccessful open leaves at most one leg non-zero. */
  lemma OpenErrorLeavesOneLeg(v: Venue, eth: OrderRequest, btc: OrderRequest, maxAttempts: nat)
    requires v.Sound() && !v.paper && IsPair(eth, btc) && v.book.eth == 0.0 && v.book.btc == 0.0
    ensures var (v', r) := OpenPair(v, eth, btc, maxAttempts);
            r.Err? ==> v'.book.eth == 0.0 || v'.book.btc == 0.0
  {
    OpenPairOutcome(v, eth, btc, maxAttempts);
  }

  /** The side of a leg. */
  function SideOf(eth: OrderRequest, btc: OrderRequest, symbol: Symbol): OrderSide {
    if symbol == EthPerp then eth.side else btc.side
  }

  /** Whenever opening a pair has to undo a leg, the other leg is untouched, and the leg is restored
      if and only if it was bought and the rollback reports the leg's own fill; a sold leg whose
      rollback reports that ends twice as short. */
  lemma RollbackRestoresOnlyBuys(v: Venue, eth: OrderRequest, btc: OrderRequest, maxAttempts: nat)
    requires v.Sound() && !v.paper && IsPair(eth, btc)
    ensures var v' := OpenPair(v, eth, btc, maxAttempts).0;
            var undo := OpenUndo(v, eth, btc, maxAttempts);
            undo.Undo? ==>
              var leg, leg' := v.book.Exposure(undo.symbol), v'.book.Exposure(undo.symbol);
              var side := SideOf(eth, btc, undo.symbol);
              && OpenPair(v, eth, btc, maxAttempts).1.Err?
              && leg' == Undone(leg, side, undo)
              && (leg' == leg <==> side == Buy && undo.back == Some(undo.filled))
              && (undo.back == Some(undo.filled) && side == Sell ==> leg' == leg - 2.0 * undo.filled)
              && (undo.symbol == EthPerp ==> v'.book.btc == v.book.btc)
              && (undo.symbol == BtcPerp ==> v'.book.eth == v.book.eth)
  {
    OpenPairOutcome(v, eth, btc, maxAttempts);
  }

  // ---- an exchange that honours the reduce-only flag ---------------------------------------------

  /** What a reduce-only request can do where the flag is honoured: fill against the exposure and
      no further. */
  ghost predicate ReducedAtMost(v: Venue, order: OrderRequest, v': Venue, r: Reply<SubmitResult>) {
    && v'.honoursReduceOnly == v.honoursReduceOnly
    && (order.reduceOnly && v.honoursReduceOnly && !v.paper && r.Ok? && r.value.Filled? ==>
          var held := v.book.Exposure(order.symbol);
          Reduces(order.side, held) && r.value.fill.qty <= Abs(held))
  }

  lemma {:induction false} RetryMarketReduces(v: Venue, order: OrderRequest, base: real, attempt: nat, attempts: nat)
    requires v.Sound() && order.orderType == Market
    ensures ReducedAtMost(v, order, RetryMarket(v, order, base, attempt, attempts).0, RetryMarket(v, order, base, attempt, attempts).1)
    decreases attempts - attempt
  {
    if attempt < attempts && RequotedMarketPrice(base, order.side, attempt).Some? {
      var priced := order.(limitPrice := RequotedMarketPrice(base, order.side, attempt));
      PlaceOnce(v, priced);
      var (v', r) := Place(v, priced);
      if r.Err? {
        RetryMarketReduces(v', order, base, attempt + 1, attempts);
      }
    }
  }

  lemma {:induction false} RetryPlaceReduces(v: Venue, order: OrderRequest, attempt: nat, attempts: nat)
    requires v.Sound() && order.orderType != Market
    ensures ReducedAtMost(v, order, RetryPlace(v, order, attempt, attempts).0, RetryPlace(v, order, attempt, attempts).1)
    decreases attempts - attempt
  {
    if attempt < attempts {
      PlaceOnce(v, order);
      var (v', r) := Place(v, order);
      if r.Err? && r.error.Transient? && attempt + 1 < attempts {
        RetryPlaceReduces(v', order, attempt + 1, attempts);
      }
    }
  }

  lemma RetryReduces(v: Venue, order: OrderRequest, maxAttempts: nat)
    requires v.Sound()
    ensures ReducedAtMost(v, order, RetrySubmitResult(v, order, maxAttempts).0, RetrySubmitResult(v, order, maxAttempts).1)
  {
    if order.orderType == Market {
      if order.limitPrice.Some? {
        RetryMarketReduces(v, order, order.limitPrice.value, 0, Max4(maxAttempts));
      }
    } else {
      RetryPlaceReduces(v, order, 0, Max1(maxAttempts));
    }
  }

  /** Where the flag is honoured, the rollback of a leg opened from flat fills only if the leg was
      bought: a sold leg simply stays sold, and a bought one ends between flat and its fill, flat
      exactly when the rollback reports the whole fill. */
  lemma HonouredRollback(v: Venue, eth: OrderRequest, btc: OrderRequest, maxAttempts: nat)
    requires v.Sound() && !v.paper && v.honoursReduceOnly && IsPair(eth, btc)
    requires v.book.eth == 0.0 && v.book.btc == 0.0
    ensures var v' := OpenPair(v, eth, btc, maxAttempts).0;
            var undo := OpenUndo(v, eth, btc, maxAttempts);
            undo.Undo? ==>
              var leg' := v'.book.Exposure(undo.symbol);
              match SideOf(eth, btc, undo.symbol)
              case Sell => undo.back == None && leg' == -undo.filled
              case Buy => 0.0 <= leg' <= undo.filled && (leg' == 0.0 <==> undo.back == Some(undo.filled))
  {
    OpenPairOutcome(v, eth, btc, maxAttempts);
    RetryExact(v, eth, maxAttempts);
    RetryReduces(v, eth, maxAttempts);
    var (v1, first) := RetrySubmitResult(v, eth, maxAttempts);
    if first.Ok? {
      RetryExact(v1, btc, maxAttempts);
      RetryReduces(v1, btc, maxAttempts);
      var (v2, second) := RetrySubmitResult(v1, btc, maxAttempts);
      if first.value.Filled? && !(second.Ok? && second.value.Filled?) {
        RetryReduces(v2, RollbackOrder(eth, first.value.fill), maxAttempts);
      } else if first.value.Resting? && second.Ok? && second.value.Filled? {
        RetryReduces(v2, RollbackOrder(btc, second.value.fill), maxAttempts);
      }
    }
  }

  /** On an exchange that ignores the flag the rollback of a sold leg can double it. */
  lemma SoldLegRollbackDoubles()
    ensures var v := Venue(Book(0.0, 0.0, {}, 0),
                           [FillAnswer(1.0, None, None), FatalAnswer(PLAIN), FillAnswer(1.0, None, None)], false, [], false);
            var eth := OrderRequest(EthPerp, Sell, 1.0, Limit, Some(100.0), false);
            var btc := OrderRequest(BtcPerp, Buy, 1.0, Limit, Some(100.0), false);
            var (v', r) := OpenPair(v, eth, btc, 1);
            r == Err(PartialFill(SecondFailedRolledBack)) && v'.book.eth == -2.0 && v'.book.btc == 0.0
  {
    var v := Venue(Book(0.0, 0.0, {}, 0),
                   [FillAnswer(1.0, None, None), FatalAnswer(PLAIN), FillAnswer(1.0, None, None)], false, [], false);
    var eth := OrderRequest(EthPerp, Sell, 1.0, Limit, Some(100.0), false);
    var btc := OrderRequest(BtcPerp, Buy, 1.0, Limit, Some(100.0), false);
    var (v1, first) := RetrySubmitResult(v, eth, 1);
    assert v1.script == [FatalAnswer(PLAIN), FillAnswer(1.0, None, None)];
    assert first == Ok(Filled(OrderFill(1.0, None, None))) && v1.book == Book(-1.0, 0.0, {}, 0);
    var (v2, second) := RetrySubmitResult(v1, btc, 1);
    assert v2.script == [FillAnswer(1.0, None, None)];
    assert second.Err? && v2.book == v1.book;
    var undo := RollbackOrder(eth, first.value.fill);
    assert undo == OrderRequest(EthPerp, Sell, 1.0, Market, Some(100.0), true);
    var (v3, back) := RetrySubmitResult(v2, undo, 1);
    assert back == Ok(Filled(OrderFill(1.0, None, None))) && v3.book.eth == -2.0;
  }

  // ---- closing ----------------------------------------------------------------------------

  /** The first leg that closing a pair had to reopen, from the exchange's own reports. */
  function CloseUndo(v: Venue, eth: OrderRequest, btc: OrderRequest, maxAttempts: nat): Undo {
    var (v1, first) := RetryFilled(v, eth, maxAttempts);
    var (v2, second) := RetryFilled(v1, btc, maxAttempts);
    if first.Err? || second.Ok? then NoUndo
    else UndoBy(v2, ReopenOrder(eth, first.value), first.value.qty, maxAttempts)
  }

  /** Closing a pair: success moves both legs by their fills and leaves no order behind; failure
      leaves the second leg alone, and the first leg untouched or as the reports of its close and
      of the reopening sale say.  Only orders that can rest leave orders behind. */
  lemma ClosePairOutcome(v: Venue, eth: OrderRequest, btc: OrderRequest, maxAttempts: nat)
    requires v.Sound() && !v.paper && IsPair(eth, btc)
    ensures var (v', r) := ClosePair(v, eth, btc, maxAttempts);
            var undo := CloseUndo(v, eth, btc, maxAttempts);
            && v'.Sound() && !v'.paper && v.book.resting <= v'.book.resting
            && (r.Ok? || (eth.orderType == Market && btc.orderType == Market) ==> v'.book.resting == v.book.resting)
            && match r
               case Ok(fills) =>
                 && undo == NoUndo && fills.eth.qty > 0.0 && fills.btc.qty > 0.0
                 && v'.book.eth == v.book.eth + Signed(eth.side, fills.eth.qty)
                 && v'.book.btc == v.book.btc + Signed(btc.side, fills.btc.qty)
               case Err(PartialFill(why)) =>
                 && UndoOf(undo, EthPerp, why == CloseRolledBack)
                 && v'.book.btc == v.book.btc && v'.book.eth == Undone(v.book.eth, eth.side, undo)
               case Err(_) => undo == NoUndo && v'.book.eth == v.book.eth && v'.book.btc == v.book.btc
  {
    RetryExact(v, eth, maxAttempts);
    RequestErrorNotPartial(v, eth, maxAttempts);
    var (v1, first) := RetrySubmitResult(v, eth, maxAttempts);
    if first.Ok? && first.value.Filled? {
      RetryExact(v1, btc, maxAttempts);
      var (v2, second) := RetrySubmitResult(v1, btc, maxAttempts);
      if !(second.Ok? && second.value.Filled?) {
        RetryExact(v2, ReopenOrder(eth, first.value.fill), maxAttempts);
      }
    }
  }

  /** When the second leg cannot be closed, the first leg is restored if and only if it was closed by
      a purchase, that is, was short, and the reopening sale reports the closed quantity. */
  lemma ReopeningRestoresOnlyShorts(v: Venue, eth: OrderRequest, btc: OrderRequest, maxAttempts: nat)
    requires v.Sound() && !v.paper && IsPair(eth, btc)
    ensures var v' := ClosePair(v, eth, btc, maxAttempts).0;
            var undo := CloseUndo(v, eth, btc, maxAttempts);
            undo.Undo? ==>
              && (v'.book.eth == v.book.eth <==> eth.side == Buy && undo.back == Some(undo.filled))
              && (eth.side == Sell && undo.back == Some(undo.filled) ==> v'.book.eth == v.book.eth - 2.0 * undo.filled)
              && v'.book.btc == v.book.btc
  {
    ClosePairOutcome(v, eth, btc, maxAttempts);
  }

  /** Single requests never report a partial fill. */
  lemma RequestErrorNotPartial(v: Venue, order: OrderRequest, maxAttempts: nat)
    ensures var r := RetrySubmitResult(v, order, maxAttempts).1; r.Err? ==> !r.error.PartialFill?
  {
    if order.orderType == Market {
      if order.limitPrice.Some? {
        MarketErrorNotPartial(v, order, order.limitPrice.value, 0, Max4(maxAttempts));
      }
    } else {
      PlaceErrorNotPartial(v, order, 0, Max1(maxAttempts));
    }
  }

  lemma {:induction false} MarketErrorNotPartial(v: Venue, order: OrderRequest, base: real, attempt: nat, attempts: nat)
    ensures var r := RetryMarket(v, order, base, attempt, attempts).1; r.Err? ==> !r.error.PartialFill?
    decreases attempts - attempt
  {
    if attempt < attempts && RequotedMarketPrice(base, order.side, attempt).Some? {
      MarketErrorNotPartial(Place(v, order.(limitPrice := RequotedMarketPrice(base, order.side, attempt))).0,
                            order, base, attempt + 1, attempts);
    }
  }

  lemma {:induction false} PlaceErrorNotPartial(v: Venue, order: OrderRequest, attempt: nat, attempts: nat)
    ensures var r := RetryPlace(v, order, attempt, attempts).1; r.Err? ==> !r.error.PartialFill?
    decreases attempts - attempt
  {
    if attempt < attempts {
      PlaceErrorNotPartial(Place(v, order).0, order, attempt + 1, attempts);
    }
  }

  // ---- repairing ----------------------------------------------------------------------------

  /** A fill on the only open leg flattens the book exactly when it has the size of that leg. */
  predicate RepairedBy(before: Book, symbol: Symbol, qty: real, after: Book) {
    && qty > 0.0 && before.Exposure(symbol) != 0.0
    && (after.eth == 0.0 && after.btc == 0.0 <==> qty == Abs(before.Exposure(symbol)))
  }

  /** A repair that reports the whole leg leaves that leg at zero and everything else alone; a
      failed repair changes nothing. */
  lemma RepairOutcome(v: Venue, position: PositionSnapshot, maxAttempts: nat)
    requires v.Sound() && !v.paper && position.HasResidual()
    requires position.eth.qty == v.book.eth && position.btc.qty == v.book.btc
    ensures var (v', r) := RepairResidual(v, position, maxAttempts);
            && v'.Sound() && !v'.paper && v'.book.resting == v.book.resting
            && (r.Err? ==> v'.book == v.book)
            && (r.Ok? ==> r.value.Some? && RepairedBy(v.book, r.value.value.0, r.value.value.1.qty, v'.book))
  {
    RetryExact(v, ResidualOrder(position).value, maxAttempts);
  }
}
