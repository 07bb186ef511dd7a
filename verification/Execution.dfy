/** Orders, an exchange that answers them, and the two-leg protocol run against it. */
module Execution {
  import opened Numbers
  import opened Trading
  import opened State
  import opened Pricing

  /** An order as it is sent; closing orders are sent reduce-only. */
  datatype OrderRequest = OrderRequest(
    symbol: Symbol, side: OrderSide, qty: real, orderType: OrderType, limitPrice: Option<real>, reduceOnly: bool)

  datatype OrderFill = OrderFill(qty: real, avgPrice: Option<real>, oid: Option<nat>)

  datatype SubmitResult = Filled(fill: OrderFill) | Resting(oid: nat)

  /** What an error message says that the program reacts to. */
  datatype FatalText = FatalText(noMatch: bool, wouldTake: bool)

  datatype FatalCause = Refused | RestingOnBook | BadPrice | FirstLegCancelled

  datatype PartialCause =
    | SecondRestingRolledBack | SecondRestingRollbackFailed
    | SecondFailedRolledBack | SecondFailedRollbackFailed
    | FirstRestingRolledBack | FirstRestingRollbackFailed
    | FirstCancelFailed
    | CloseRolledBack | CloseRollbackFailed

  datatype ExecError = Transient | Fatal(cause: FatalCause, text: FatalText) | PartialFill(why: PartialCause)

  datatype Reply<+T> = Ok(value: T) | Err(error: ExecError)

  datatype PairFill = PairFill(eth: OrderFill, btc: OrderFill)

  datatype PairOpenOutcome = PairFilled(fills: PairFill) | PairResting(ethOid: nat, btcOid: nat)

  const PLAIN := FatalText(false, false)
  const RESTING_ON_BOOK := Fatal(RestingOnBook, FatalText(true, false))

  /** The error text that an immediate-or-cancel order found no counterpart. */
  predicate IsIocNoMatch(error: ExecError) {
    error.Fatal? && error.text.noMatch
  }

  // ---- the exchange --------------------------------------------------------------------

  /** What the exchange decides about one request. */
  datatype Answer =
    | FillAnswer(qty: real, avgPrice: Option<real>, oid: Option<nat>)
    | RestAnswer
    | TransientAnswer
    | FatalAnswer(text: FatalText)

  /** Signed exposures and resting orders. */
  datatype Book = Book(eth: real, btc: real, resting: set<nat>, nextOid: nat)
  {
    predicate Sound() {
      forall oid :: oid in resting ==> oid < nextOid
    }

    function Exposure(symbol: Symbol): real {
      match symbol
      case EthPerp => eth
      case BtcPerp => btc
    }

    function Move(symbol: Symbol, delta: real): Book {
      match symbol
      case EthPerp => this.(eth := eth + delta)
      case BtcPerp => this.(btc := btc + delta)
    }
  }

  /** What the program sends. */
  datatype Request = OrderSent(order: OrderRequest) | CancelSent(oid: nat)

  /** The exchange: its book, the answers it will give, and all it was sent.  An exhausted script
      refuses; paper trading fills every request in full.  An exchange that honours the reduce-only
      flag refuses such an order on the wrong side and never fills it beyond the exposure. */
  datatype Venue = Venue(book: Book, script: seq<Answer>, paper: bool, sent: seq<Request>, honoursReduceOnly: bool)
  {
    /** Reported fills are positive magnitudes. */
    predicate Sound() {
      && book.Sound()
      && forall i :: 0 <= i < |script| && script[i].FillAnswer? ==> script[i].qty > 0.0
    }
  }

  function Signed(side: OrderSide, qty: real): real {
    match side
    case Buy => qty
    case Sell => -qty
  }

  /** A request sent and its answer consumed. */
  function Ask(v: Venue, request: Request): (Venue, Answer) {
    var v' := v.(sent := v.sent + [request]);
    if |v.script| == 0 then (v', FatalAnswer(PLAIN)) else (v'.(script := v.script[1..]), v.script[0])
  }

  /** The side takes the exposure toward zero. */
  predicate Reduces(side: OrderSide, exposure: real) {
    match side
    case Buy => exposure < 0.0
    case Sell => exposure > 0.0
  }

  predicate RefusesToIncrease(v: Venue, order: OrderRequest) {
    order.reduceOnly && v.honoursReduceOnly && !Reduces(order.side, v.book.Exposure(order.symbol))
  }

  /** The quantity of a fill the exchange would give. */
  function FilledQty(v: Venue, order: OrderRequest, qty: real): real {
    var held := Abs(v.book.Exposure(order.symbol));
    if order.reduceOnly && v.honoursReduceOnly && held < qty then held else qty
  }

  /** One order sent.  A market order never rests: an answer to rest is a missing match. */
  function Place(v: Venue, order: OrderRequest): (Venue, Reply<SubmitResult>) {
    if v.paper then
      (v.(sent := v.sent + [OrderSent(order)], book := v.book.Move(order.symbol, Signed(order.side, order.qty))),
       Ok(Filled(OrderFill(order.qty, None, None))))
    else
      var (v', answer) := Ask(v, OrderSent(order));
      match answer
      case FillAnswer(wanted, avgPrice, oid) =>
        if RefusesToIncrease(v, order) then (v', Err(Fatal(Refused, PLAIN)))
        else
          var qty := FilledQty(v, order, wanted);
          (v'.(book := v.book.Move(order.symbol, Signed(order.side, qty))),
           Ok(Filled(OrderFill(qty, avgPrice, oid))))
      case RestAnswer =>
        if RefusesToIncrease(v, order) then (v', Err(Fatal(Refused, PLAIN)))
        else if order.orderType == Market then (v', Err(Fatal(Refused, FatalText(true, false))))
        else
          var oid := v.book.nextOid;
          (v'.(book := v.book.(resting := v.book.resting + {oid}, nextOid := oid + 1)), Ok(Resting(oid)))
      case TransientAnswer => (v', Err(Transient))
      case FatalAnswer(text) => (v', Err(Fatal(Refused, text)))
  }

  /** One cancellation sent; any answer but an error takes the order off the book. */
  function CancelOnce(v: Venue, oid: nat): (Venue, Reply<()>) {
    if v.paper then (v.(sent := v.sent + [CancelSent(oid)]), Ok(()))
    else
      var (v', answer) := Ask(v, CancelSent(oid));
      match answer
      case TransientAnswer => (v', Err(Transient))
      case FatalAnswer(text) => (v', Err(Fatal(Refused, text)))
      case _ => (v'.(book := v.book.(resting := v.book.resting - {oid})), Ok(()))
  }

  class Exchange {
    var venue: Venue

    constructor (venue: Venue)
      ensures this.venue == venue
    {
      this.venue := venue;
    }

    method Submit(order: OrderRequest) returns (r: Reply<SubmitResult>)
      modifies this
      ensures (venue, r) == Place(old(venue), order)
    {
      var step := Place(venue, order);
      venue := step.0;
      r := step.1;
    }

    method Cancel(oid: nat) returns (r: Reply<()>)
      modifies this
      ensures (venue, r) == CancelOnce(old(venue), oid)
    {
      var step := CancelOnce(venue, oid);
      venue := step.0;
      r := step.1;
    }
  }

  // ---- retries ----------------------------------------------------------------------------

  function Max1(n: nat): (r: nat)
    ensures r >= 1
  {
    if n < 1 then 1 else n
  }

  function Max4(n: nat): (r: nat)
    ensures r >= 4
  {
    if n < 4 then 4 else n
  }

  /** Resting and limit orders: repeat while the error is transient and attempts are left. */
  function RetryPlace(v: Venue, order: OrderRequest, attempt: nat, attempts: nat): (Venue, Reply<SubmitResult>)
    decreases attempts - attempt
  {
    if attempt >= attempts then (v, Err(Transient))
    else
      var (v', r) := Place(v, order);
      if r.Err? && r.error.Transient? && attempt + 1 < attempts
      then RetryPlace(v', order, attempt + 1, attempts)
      else (v', r)
  }

  function RetryCancelFrom(v: Venue, oid: nat, attempt: nat, attempts: nat): (Venue, Reply<()>)
    decreases attempts - attempt
  {
    if attempt >= attempts then (v, Err(Transient))
    else
      var (v', r) := CancelOnce(v, oid);
      if r.Err? && r.error.Transient? && attempt + 1 < attempts
      then RetryCancelFrom(v', oid, attempt + 1, attempts)
      else (v', r)
  }

  /** Market orders: also repeat when nothing matched, each time at a wider price. */
  function RetryMarket(v: Venue, order: OrderRequest, base: real, attempt: nat, attempts: nat)
    : (Venue, Reply<SubmitResult>)
    decreases attempts - attempt
  {
    if attempt >= attempts then (v, Err(Transient))
    else
      match RequotedMarketPrice(base, order.side, attempt)
      case None => (v, Err(Fatal(BadPrice, PLAIN)))
      case Some(price) =>
        var (v', r) := Place(v, order.(limitPrice := Some(price)));
        var error := if r.Err? then r.error else RESTING_ON_BOOK;
        if r.Ok? && r.value.Filled? then (v', r)
        else if (error.Transient? || IsIocNoMatch(error)) && attempt + 1 < attempts
        then RetryMarket(v', order, base, attempt + 1, attempts)
        else (v', Err(error))
  }

  function RetrySubmitResult(v: Venue, order: OrderRequest, maxAttempts: nat): (Venue, Reply<SubmitResult>) {
    if order.orderType == Market then
      match order.limitPrice
      case None => (v, Err(Fatal(BadPrice, PLAIN)))
      case Some(base) => RetryMarket(v, order, base, 0, Max4(maxAttempts))
    else RetryPlace(v, order, 0, Max1(maxAttempts))
  }

  function ExpectFilled(r: Reply<SubmitResult>): Reply<OrderFill> {
    match r
    case Err(e) => Err(e)
    case Ok(Filled(fill)) => Ok(fill)
    case Ok(Resting(_)) => Err(RESTING_ON_BOOK)
  }

  function RetryFilled(v: Venue, order: OrderRequest, maxAttempts: nat): (Venue, Reply<OrderFill>) {
    var (v', r) := RetrySubmitResult(v, order, maxAttempts);
    (v', ExpectFilled(r))
  }

  function RetryCancel(v: Venue, oid: nat, maxAttempts: nat): (Venue, Reply<()>) {
    RetryCancelFrom(v, oid, 0, Max1(maxAttempts))
  }

  // ---- the pair protocol --------------------------------------------------------------------

  /** The order that undoes a filled opening leg: a reduce-only one at the market.  Reported
      quantities are positive, so its side is always Sell. */
  function RollbackOrder(order: OrderRequest, fill: OrderFill): OrderRequest {
    OrderRequest(order.symbol, CloseForQty(fill.qty), Abs(fill.qty), Market, order.limitPrice, true)
  }

  function OpenPair(v: Venue, eth: OrderRequest, btc: OrderRequest, maxAttempts: nat)
    : (Venue, Reply<PairOpenOutcome>)
  {
    var (v1, first) := RetrySubmitResult(v, eth, maxAttempts);
    match first
    case Err(e) => (v1, Err(e))
    case Ok(Filled(ethFill)) =>
      var (v2, second) := RetrySubmitResult(v1, btc, maxAttempts);
      (match second
       case Ok(Filled(btcFill)) => (v2, Ok(PairFilled(PairFill(ethFill, btcFill))))
       case Ok(Resting(_)) =>
         var (v3, undo) := RetryFilled(v2, RollbackOrder(eth, ethFill), maxAttempts);
         (v3, Err(PartialFill(if undo.Ok? then SecondRestingRolledBack else SecondRestingRollbackFailed)))
       case Err(_) =>
         var (v3, undo) := RetryFilled(v2, RollbackOrder(eth, ethFill), maxAttempts);
         (v3, Err(PartialFill(if undo.Ok? then SecondFailedRolledBack else SecondFailedRollbackFailed))))
    case Ok(Resting(ethOid)) =>
      var (v2, second) := RetrySubmitResult(v1, btc, maxAttempts);
      (match second
       case Ok(Resting(btcOid)) => (v2, Ok(PairResting(ethOid, btcOid)))
       case Ok(Filled(btcFill)) =>
         var (v3, undo) := RetryFilled(v2, RollbackOrder(btc, btcFill), maxAttempts);
         (v3, Err(PartialFill(if undo.Ok? then FirstRestingRolledBack else FirstRestingRollbackFailed)))
       case Err(e) =>
         var (v3, cancel) := RetryCancel(v2, ethOid, maxAttempts);
         (v3, Err(if cancel.Ok? then Fatal(FirstLegCancelled, if e.Fatal? then e.text else PLAIN)
                  else PartialFill(FirstCancelFailed))))
  }

  /** The order that reopens a closed leg: same type and price, side from the reported fill; it is
      submitted, not sent reduce-only. */
  function ReopenOrder(order: OrderRequest, fill: OrderFill): OrderRequest {
    OrderRequest(order.symbol, CloseForQty(fill.qty), Abs(fill.qty), order.orderType, order.limitPrice, false)
  }

  function ClosePair(v: Venue, eth: OrderRequest, btc: OrderRequest, maxAttempts: nat): (Venue, Reply<PairFill>) {
    var (v1, first) := RetryFilled(v, eth, maxAttempts);
    match first
    case Err(e) => (v1, Err(e))
    case Ok(ethFill) =>
      var (v2, second) := RetryFilled(v1, btc, maxAttempts);
      match second
      case Ok(btcFill) => (v2, Ok(PairFill(ethFill, btcFill)))
      case Err(_) =>
        var (v3, undo) := RetryFilled(v2, ReopenOrder(eth, ethFill), maxAttempts);
        (v3, Err(PartialFill(if undo.Ok? then CloseRolledBack else CloseRollbackFailed)))
  }

  /** The order that closes the only non-zero leg, if exactly one is non-zero. */
  function ResidualOrder(position: PositionSnapshot): Option<OrderRequest> {
    if position.eth.qty != 0.0 && position.btc.qty == 0.0 then
      Some(OrderRequest(EthPerp, CloseForQty(position.eth.qty), Abs(position.eth.qty), Market,
                        Some(position.eth.avgPrice), true))
    else if position.btc.qty != 0.0 && position.eth.qty == 0.0 then
      Some(OrderRequest(BtcPerp, CloseForQty(position.btc.qty), Abs(position.btc.qty), Market,
                        Some(position.btc.avgPrice), true))
    else None
  }

  function RepairResidual(v: Venue, position: PositionSnapshot, maxAttempts: nat)
    : (Venue, Reply<Option<(Symbol, OrderFill)>>)
  {
    match ResidualOrder(position)
    case None => (v, Ok(None))
    case Some(order) =>
      var (v', r) := RetryFilled(v, order, maxAttempts);
      (v', match r case Err(e) => Err(e) case Ok(fill) => Ok(Some((order.symbol, fill))))
  }

  class ExecutionEngine {
    const exchange: Exchange
    const maxAttempts: nat

    constructor (exchange: Exchange, maxAttempts: nat)
      ensures this.exchange == exchange && this.maxAttempts == maxAttempts
    {
      this.exchange := exchange;
      this.maxAttempts := maxAttempts;
    }

    method RetryWith(order: OrderRequest) returns (r: Reply<SubmitResult>)
      modifies exchange
      ensures (exchange.venue, r) == RetryPlace(old(exchange.venue), order, 0, Max1(maxAttempts))
    {
      var attempts := Max1(maxAttempts);
      var attempt := 0;
      while attempt < attempts
        invariant 0 <= attempt <= attempts
        invariant RetryPlace(old(exchange.venue), order, 0, attempts)
                  == RetryPlace(exchange.venue, order, attempt, attempts)
      {
        var reply := exchange.Submit(order);
        if reply.Ok? {
          return reply;
        }
        if reply.error.Transient? && attempt + 1 < attempts {
          attempt := attempt + 1;
          continue;
        }
        return reply;
      }
      return Err(Transient);
    }

    /** One attempt of a market order; unless it is done, the rest of the attempts decide. */
    method AttemptMarket(order: OrderRequest, base: real, attempt: nat, attempts: nat)
      returns (done: bool, r: Reply<SubmitResult>)
      requires attempt < attempts
      modifies exchange
      ensures !done ==> attempt + 1 < attempts
      ensures RetryMarket(old(exchange.venue), order, base, attempt, attempts)
              == if done then (exchange.venue, r) else RetryMarket(exchange.venue, order, base, attempt + 1, attempts)
    {
      var price := RequotedMarketPrice(base, order.side, attempt);
      if price.None? {
        return true, Err(Fatal(BadPrice, PLAIN));
      }
      r := exchange.Submit(order.(limitPrice := price));
      if r.Ok? && r.value.Filled? {
        return true, r;
      }
      var error := if r.Err? then r.error else RESTING_ON_BOOK;
      return !((error.Transient? || IsIocNoMatch(error)) && attempt + 1 < attempts), Err(error);
    }

    method RetryMarketWithRequote(order: OrderRequest) returns (r: Reply<SubmitResult>)
      modifies exchange
      ensures (exchange.venue, r) ==
                match order.limitPrice
                case None => (old(exchange.venue), Err(Fatal(BadPrice, PLAIN)))
                case Some(base) => RetryMarket(old(exchange.venue), order, base, 0, Max4(maxAttempts))
    {
      if order.limitPrice.None? {
        return Err(Fatal(BadPrice, PLAIN));
      }
      var base := order.limitPrice.value;
      var attempts := Max4(maxAttempts);
      var attempt := 0;
      while attempt < attempts
        invariant 0 <= attempt <= attempts
        invariant RetryMarket(old(exchange.venue), order, base, 0, attempts)
                  == RetryMarket(exchange.venue, order, base, attempt, attempts)
      {
        var done, reply := AttemptMarket(order, base, attempt, attempts);
        if done {
          return reply;
        }
        attempt := attempt + 1;
      }
      return Err(Transient);
    }

    method SubmitWithRetry(order: OrderRequest) returns (r: Reply<SubmitResult>)
      modifies exchange
      ensures (exchange.venue, r) == RetrySubmitResult(old(exchange.venue), order, maxAttempts)
    {
      if order.orderType == Market {
        r := RetryMarketWithRequote(order);
      } else {
        r := RetryWith(order);
      }
    }

    method FillWithRetry(order: OrderRequest) returns (r: Reply<OrderFill>)
      modifies exchange
      ensures (exchange.venue, r) == RetryFilled(old(exchange.venue), order, maxAttempts)
    {
      var reply := SubmitWithRetry(order);
      return ExpectFilled(reply);
    }

    method CancelWithRetry(oid: nat) returns (r: Reply<()>)
      modifies exchange
      ensures (exchange.venue, r) == RetryCancel(old(exchange.venue), oid, maxAttempts)
    {
      var attempts := Max1(maxAttempts);
      var attempt := 0;
      while attempt < attempts
        invariant 0 <= attempt <= attempts
        invariant RetryCancelFrom(old(exchange.venue), oid, 0, attempts)
                  == RetryCancelFrom(exchange.venue, oid, attempt, attempts)
      {
        var reply := exchange.Cancel(oid);
        if reply.Ok? {
          return reply;
        }
        if reply.error.Transient? && attempt + 1 < attempts {
          attempt := attempt + 1;
          continue;
        }
        return reply;
      }
      return Err(Transient);
    }

    method Open(eth: OrderRequest, btc: OrderRequest) returns (r: Reply<PairOpenOutcome>)
      modifies exchange
      ensures (exchange.venue, r) == OpenPair(old(exchange.venue), eth, btc, maxAttempts)
    {
      var first := SubmitWithRetry(eth);
      if first.Err? {
        return Err(first.error);
      }
      var second := SubmitWithRetry(btc);
      match first.value
      case Filled(ethFill) =>
        if second.Ok? && second.value.Filled? {
          return Ok(PairFilled(PairFill(ethFill, second.value.fill)));
        }
        var undo := FillWithRetry(RollbackOrder(eth, ethFill));
        if second.Ok? {
          return Err(PartialFill(if undo.Ok? then SecondRestingRolledBack else SecondRestingRollbackFailed));
        }
        return Err(PartialFill(if undo.Ok? then SecondFailedRolledBack else SecondFailedRollbackFailed));
      case Resting(ethOid) =>
        if second.Err? {
          var cancel := CancelWithRetry(ethOid);
          return Err(if cancel.Ok? then Fatal(FirstLegCancelled, if second.error.Fatal? then second.error.text else PLAIN)
                     else PartialFill(FirstCancelFailed));
        }
        match second.value
        case Resting(btcOid) =>
          return Ok(PairResting(ethOid, btcOid));
        case Filled(btcFill) =>
          var undo := FillWithRetry(RollbackOrder(btc, btcFill));
          return Err(PartialFill(if undo.Ok? then FirstRestingRolledBack else FirstRestingRollbackFailed));
    }

    method Close(eth: OrderRequest, btc: OrderRequest) returns (r: Reply<PairFill>)
      modifies exchange
      ensures (exchange.venue, r) == ClosePair(old(exchange.venue), eth, btc, maxAttempts)
    {
      var first := FillWithRetry(eth);
      if first.Err? {
        return Err(first.error);
      }
      var second := FillWithRetry(btc);
      if second.Ok? {
        return Ok(PairFill(first.value, second.value));
      }
      var undo := FillWithRetry(ReopenOrder(eth, first.value));
      return Err(PartialFill(if undo.Ok? then CloseRolledBack else CloseRollbackFailed));
    }

    method Repair(position: PositionSnapshot) returns (r: Reply<Option<(Symbol, OrderFill)>>)
      modifies exchange
      ensures (exchange.venue, r) == RepairResidual(old(exchange.venue), position, maxAttempts)
    {
      if position.eth.qty != 0.0 && position.btc.qty == 0.0 {
        var fill := FillWithRetry(OrderRequest(EthPerp, CloseForQty(position.eth.qty), Abs(position.eth.qty),
                                               Market, Some(position.eth.avgPrice), true));
        return match fill case Err(e) => Err(e) case Ok(f) => Ok(Some((EthPerp, f)));
      }
      if position.btc.qty != 0.0 && position.eth.qty == 0.0 {
        var fill := FillWithRetry(OrderRequest(BtcPerp, CloseForQty(position.btc.qty), Abs(position.btc.qty),
                                               Market, Some(position.btc.avgPrice), true));
        return match fill case Err(e) => Err(e) case Ok(f) => Ok(Some((BtcPerp, f)));
      }
      return Ok(None);
    }
  }
}
