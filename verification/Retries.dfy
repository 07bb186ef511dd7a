/** How often, and at what prices, the program asks a live exchange again. */
module Retries {
  import opened Numbers
  import opened Trading
  import opened Pricing
  import opened Execution

  /** Answers after which the program asks again while it has attempts left: transient errors, and for
      a market order also those that mean no match, as resting does. */
  predicate AsksAgain(answer: Answer, atMarket: bool, refused: bool) {
    match answer
    case FillAnswer(_, _, _) => false
    case RestAnswer => atMarket && !refused
    case TransientAnswer => true
    case FatalAnswer(text) => atMarket && text.noMatch
  }

  /** The number of such answers before the first other one. */
  function Leading(script: seq<Answer>, atMarket: bool, refused: bool): (k: nat)
    ensures k <= |script|
    ensures forall i :: 0 <= i < k ==> AsksAgain(script[i], atMarket, refused)
    ensures k < |script| ==> !AsksAgain(script[k], atMarket, refused)
  {
    if |script| == 0 || !AsksAgain(script[0], atMarket, refused) then 0
    else 1 + Leading(script[1..], atMarket, refused)
  }

  /** The calls made with so many attempts left: one for each such answer and one more. */
  function Calls(script: seq<Answer>, atMarket: bool, refused: bool, attempts: nat): nat {
    if Leading(script, atMarket, refused) < attempts then Leading(script, atMarket, refused) + 1 else attempts
  }

  function AnswerTo(script: seq<Answer>, call: nat): Answer {
    if call < |script| then script[call] else FatalAnswer(PLAIN)
  }

  function Unused(script: seq<Answer>, calls: nat): seq<Answer> {
    if calls <= |script| then script[calls..] else []
  }

  /** A market order needs a positive price to start from. */
  predicate Sendable(order: OrderRequest) {
    order.orderType == Market ==> order.limitPrice.Some? && order.limitPrice.value > 0.0
  }

  /** The order of a call: a market order goes at the price of its call. */
  function OrderOf(order: OrderRequest, call: nat): OrderRequest {
    if order.orderType == Market && order.limitPrice.Some?
    then order.(limitPrice := RequotedMarketPrice(order.limitPrice.value, order.side, call)) else order
  }

  /** The orders of the calls `first`, `first + 1`, ... */
  function Orders(order: OrderRequest, first: nat, n: nat): (sent: seq<Request>)
    ensures |sent| == n
    decreases n
  {
    if n == 0 then [] else [OrderSent(OrderOf(order, first))] + Orders(order, first + 1, n - 1)
  }

  lemma {:induction false} OrdersAt(order: OrderRequest, first: nat, n: nat, k: nat)
    requires k < n
    ensures Orders(order, first, n)[k] == OrderSent(OrderOf(order, first + k))
    decreases n
  {
    if k > 0 {
      OrdersAt(order, first + 1, n - 1, k - 1);
    }
  }

  /** What the program reports when this answer was the last. */
  function Reported(book: Book, honours: bool, order: OrderRequest, refused: bool, answer: Answer): Reply<SubmitResult> {
    match answer
    case FillAnswer(qty, avgPrice, oid) =>
      var held := Abs(book.Exposure(order.symbol));
      if refused then Err(Fatal(Refused, PLAIN))
      else Ok(Filled(OrderFill(if order.reduceOnly && honours && held < qty then held else qty, avgPrice, oid)))
    case RestAnswer =>
      if refused then Err(Fatal(Refused, PLAIN))
      else if order.orderType == Market then Err(Fatal(Refused, FatalText(true, false)))
      else Ok(Resting(book.nextOid))
    case TransientAnswer => Err(Transient)
    case FatalAnswer(text) => Err(Fatal(Refused, text))
  }

  /** One request with so many attempts left: the calls it makes, what it sends, what it reports. */
  ghost predicate AskedExactly(v: Venue, order: OrderRequest, first: nat, attempts: nat,
                               sent: seq<Request>, script: seq<Answer>, r: Reply<SubmitResult>)
  {
    var refused := RefusesToIncrease(v, order);
    var calls := Calls(v.script, order.orderType == Market, refused, attempts);
    && calls > 0 && sent == v.sent + Orders(order, first, calls) && script == Unused(v.script, calls)
    && r == Reported(v.book, v.honoursReduceOnly, order, refused, AnswerTo(v.script, calls - 1))
  }

  lemma OneMoreSent(sent: seq<Request>, order: OrderRequest, first: nat, n: nat)
    ensures sent + [OrderSent(OrderOf(order, first))] + Orders(order, first + 1, n) == sent + Orders(order, first, n + 1)
  {
  }

  lemma OneMoreCall(script: seq<Answer>, atMarket: bool, refused: bool, attempts: nat)
    requires |script| > 0 && AsksAgain(script[0], atMarket, refused)
    ensures Calls(script, atMarket, refused, attempts + 1) == Calls(script[1..], atMarket, refused, attempts) + 1
  {
  }

  lemma OneMoreAnswer(script: seq<Answer>, calls: nat)
    requires |script| > 0
    ensures AnswerTo(script[1..], calls) == AnswerTo(script, calls + 1)
    ensures Unused(script[1..], calls) == Unused(script, calls + 1)
  {
  }

  /** A call whose answer asks for another one leaves the rest of the request. */
  lemma AskedOnceMore(v: Venue, order: OrderRequest, first: nat, attempts: nat, v1: Venue,
                      sent: seq<Request>, script: seq<Answer>, r: Reply<SubmitResult>)
    requires |v.script| > 0 && AsksAgain(v.script[0], order.orderType == Market, RefusesToIncrease(v, order))
    requires v1 == v.(sent := v.sent + [OrderSent(OrderOf(order, first))], script := v.script[1..])
    requires AskedExactly(v1, order, first + 1, attempts, sent, script, r)
    ensures AskedExactly(v, order, first, attempts + 1, sent, script, r)
  {
    var refused := RefusesToIncrease(v, order);
    assert RefusesToIncrease(v1, order) == refused;
    var calls := Calls(v1.script, order.orderType == Market, refused, attempts);
    OneMoreCall(v.script, order.orderType == Market, refused, attempts);
    OneMoreSent(v.sent, order, first, calls);
    OneMoreAnswer(v.script, calls - 1);
    OneMoreAnswer(v.script, calls);
  }

  lemma LastCall(script: seq<Answer>, atMarket: bool, refused: bool, attempts: nat)
    requires attempts > 0
    requires attempts == 1 || |script| == 0 || !AsksAgain(script[0], atMarket, refused)
    ensures Calls(script, atMarket, refused, attempts) == 1
  {
  }

  lemma OneOrder(order: OrderRequest, first: nat)
    ensures Orders(order, first, 1) == [OrderSent(OrderOf(order, first))]
  {
  }

  /** The last call of a request. */
  lemma AskedForTheLastTime(v: Venue, order: OrderRequest, first: nat, attempts: nat, v1: Venue, r: Reply<SubmitResult>)
    requires attempts > 0
    requires attempts == 1 || |v.script| == 0 || !AsksAgain(v.script[0], order.orderType == Market, RefusesToIncrease(v, order))
    requires v1.sent == v.sent + [OrderSent(OrderOf(order, first))] && v1.script == Unused(v.script, 1)
    requires r == Reported(v.book, v.honoursReduceOnly, order, RefusesToIncrease(v, order), AnswerTo(v.script, 0))
    ensures AskedExactly(v, order, first, attempts, v1.sent, v1.script, r)
  {
    LastCall(v.script, order.orderType == Market, RefusesToIncrease(v, order), attempts);
    OneOrder(order, first);
  }

  predicate RetryError(r: Reply<SubmitResult>, atMarket: bool) {
    r.Err? && (r.error.Transient? || (atMarket && IsIocNoMatch(r.error)))
  }

  /** One call. */
  lemma CalledOnce(v: Venue, order: OrderRequest, call: nat)
    requires !v.paper
    ensures var (v', r) := Place(v, OrderOf(order, call));
            var again := |v.script| > 0 && AsksAgain(v.script[0], order.orderType == Market, RefusesToIncrease(v, order));
            && v'.sent == v.sent + [OrderSent(OrderOf(order, call))] && v'.script == Unused(v.script, 1)
            && v'.paper == v.paper && r == Reported(v.book, v.honoursReduceOnly, order, RefusesToIncrease(v, order), AnswerTo(v.script, 0))
            && (again ==> v' == v.(sent := v'.sent, script := v.script[1..]))
            && (again <==> RetryError(r, order.orderType == Market))
            && (order.orderType == Market && r.Ok? ==> r.value.Filled?)
  {
  }

  lemma AskedStep(v: Venue, order: OrderRequest, call: nat, attempts: nat, v1: Venue, r1: Reply<SubmitResult>,
                  v': Venue, r: Reply<SubmitResult>)
    requires attempts > 0 && !v.paper && (v1, r1) == Place(v, OrderOf(order, call))
    requires if RetryError(r1, order.orderType == Market) && attempts > 1
             then AskedExactly(v1, order, call + 1, attempts - 1, v'.sent, v'.script, r) else (v', r) == (v1, r1)
    ensures AskedExactly(v, order, call, attempts, v'.sent, v'.script, r)
  {
    CalledOnce(v, order, call);
    if RetryError(r1, order.orderType == Market) && attempts > 1 {
      AskedOnceMore(v, order, call, attempts - 1, v1, v'.sent, v'.script, r);
    } else {
      AskedForTheLastTime(v, order, call, attempts, v1, r1);
    }
  }

  lemma MarketCall(v: Venue, order: OrderRequest, attempt: nat, attempts: nat)
    requires order.orderType == Market && Sendable(order) && attempt < attempts && !v.paper
    ensures var (v1, r1) := Place(v, OrderOf(order, attempt));
            && v1.paper == v.paper
            && RetryMarket(v, order, order.limitPrice.value, attempt, attempts)
               == if RetryError(r1, true) && attempt + 1 < attempts
                  then RetryMarket(v1, order, order.limitPrice.value, attempt + 1, attempts) else (v1, r1)
  {
    RequoteAggressive(order.limitPrice.value, order.side, attempt, attempt);
    CalledOnce(v, order, attempt);
  }

  lemma {:induction false} MarketAsked(v: Venue, order: OrderRequest, attempt: nat, attempts: nat, v': Venue, r: Reply<SubmitResult>)
    requires !v.paper && order.orderType == Market && Sendable(order) && attempt < attempts
    requires (v', r) == RetryMarket(v, order, order.limitPrice.value, attempt, attempts)
    ensures AskedExactly(v, order, attempt, attempts - attempt, v'.sent, v'.script, r)
    decreases attempts - attempt
  {
    var (v1, r1) := Place(v, OrderOf(order, attempt));
    MarketCall(v, order, attempt, attempts);
    if RetryError(r1, true) && attempt + 1 < attempts {
      MarketAsked(v1, order, attempt + 1, attempts, v', r);
    }
    AskedStep(v, order, attempt, attempts - attempt, v1, r1, v', r);
  }

  lemma PlainCall(v: Venue, order: OrderRequest, attempt: nat, attempts: nat)
    requires order.orderType != Market && attempt < attempts && !v.paper
    ensures var (v1, r1) := Place(v, OrderOf(order, attempt));
            && v1.paper == v.paper
            && RetryPlace(v, order, attempt, attempts)
               == if RetryError(r1, false) && attempt + 1 < attempts
                  then RetryPlace(v1, order, attempt + 1, attempts) else (v1, r1)
  {
    CalledOnce(v, order, attempt);
  }

  lemma {:induction false} PlainAsked(v: Venue, order: OrderRequest, attempt: nat, attempts: nat, v': Venue, r: Reply<SubmitResult>)
    requires !v.paper && order.orderType != Market && attempt < attempts
    requires (v', r) == RetryPlace(v, order, attempt, attempts)
    ensures AskedExactly(v, order, attempt, attempts - attempt, v'.sent, v'.script, r)
    decreases attempts - attempt
  {
    var (v1, r1) := Place(v, OrderOf(order, attempt));
    PlainCall(v, order, attempt, attempts);
    if RetryError(r1, false) && attempt + 1 < attempts {
      PlainAsked(v1, order, attempt + 1, attempts, v', r);
    }
    AskedStep(v, order, attempt, attempts - attempt, v1, r1, v', r);
  }

  /** How often an order is sent at most: a market order at least four times. */
  function Attempts(order: OrderRequest, maxAttempts: nat): nat {
    if order.orderType == Market then (if maxAttempts < 4 then 4 else maxAttempts)
    else if maxAttempts < 1 then 1 else maxAttempts
  }

  lemma AsksExactly(v: Venue, order: OrderRequest, maxAttempts: nat)
    requires !v.paper && Sendable(order)
    ensures var (v', r) := RetrySubmitResult(v, order, maxAttempts);
            AskedExactly(v, order, 0, Attempts(order, maxAttempts), v'.sent, v'.script, r)
  {
    var (v', r) := RetrySubmitResult(v, order, maxAttempts);
    if order.orderType == Market {
      MarketAsked(v, order, 0, Max4(maxAttempts), v', r);
    } else {
      PlainAsked(v, order, 0, Max1(maxAttempts), v', r);
    }
  }

  /** An order to a live exchange fills if and only if one of the first answers, up to the limit of
      attempts, is a fill that is not refused and all before it ask for another call.  The calls are
      as many as those answers and one more, up to the limit; the last answer is the one reported. */
  lemma FillsIff(v: Venue, order: OrderRequest, maxAttempts: nat)
    requires !v.paper && Sendable(order)
    ensures var (v', r) := RetrySubmitResult(v, order, maxAttempts);
            var refused, limit := RefusesToIncrease(v, order), Attempts(order, maxAttempts);
            var leading := Leading(v.script, order.orderType == Market, refused);
            var calls := if leading < limit then leading + 1 else limit;
            && (r.Ok? && r.value.Filled? <==>
                  leading < limit && leading < |v.script| && v.script[leading].FillAnswer? && !refused)
            && v'.sent == v.sent + Orders(order, 0, calls) && v'.script == Unused(v.script, calls)
            && r == Reported(v.book, v.honoursReduceOnly, order, refused, AnswerTo(v.script, calls - 1))
  {
    AsksExactly(v, order, maxAttempts);
  }

  /** A market order without a positive price is never sent. */
  lemma UnsendableIsNotSent(v: Venue, order: OrderRequest, maxAttempts: nat)
    requires !Sendable(order)
    ensures RetrySubmitResult(v, order, maxAttempts) == (v, Err(Fatal(BadPrice, PLAIN)))
  {
  }

  /** The order is this one but for its price, which is 15 basis points wider per call before, up to
      120. */
  predicate Widened(order: OrderRequest, base: real, k: nat, call: OrderRequest) {
    var bps := (if k < 8 then 15 * k else 120) as real;
    && call.limitPrice.Some? && call == order.(limitPrice := call.limitPrice)
    && call.limitPrice.value * 10000.0 ==
         if order.side == Buy then base * (10000.0 + bps) else base * (10000.0 - bps)
  }

  /** Every call of a market order sends the order itself, ever wider. */
  lemma CallsWiden(order: OrderRequest, calls: nat, k: nat)
    requires order.orderType == Market && Sendable(order) && k < calls
    ensures Orders(order, 0, calls)[k].OrderSent?
    ensures Widened(order, order.limitPrice.value, k, Orders(order, 0, calls)[k].order)
  {
    OrdersAt(order, 0, calls, k);
    WidenedPrice(order.limitPrice.value, order.side, k);
  }

  lemma WidenedPrice(base: real, side: OrderSide, k: nat)
    requires base > 0.0
    ensures var price, bps := RequotedMarketPrice(base, side, k), (if k < 8 then 15 * k else 120) as real;
            price.Some? && price.value * 10000.0 == if side == Buy then base * (10000.0 + bps) else base * (10000.0 - bps)
  {
    var bps := (if k < 8 then 15 * k else 120) as real;
    RequoteValue(base, side, k);
    assert Bump(k) == bps / 10000.0;
    TenThousandths(base, bps);
  }

  lemma TenThousandths(base: real, bps: real)
    ensures bps / 10000.0 * base * 10000.0 == base * bps
    ensures base * (10000.0 + bps) == base * 10000.0 + base * bps
    ensures base * (10000.0 - bps) == base * 10000.0 - base * bps
  {
  }

  // ---- cancelling ------------------------------------------------------------------------------

  function Cancels(oid: nat, n: nat): seq<Request> {
    seq(n, i requires 0 <= i < n => CancelSent(oid))
  }

  /** The same for a cancellation, which is asked for again after transient errors only. */
  function Cancelled(answer: Answer): Reply<()> {
    match answer
    case TransientAnswer => Err(Transient)
    case FatalAnswer(text) => Err(Fatal(Refused, text))
    case _ => Ok(())
  }

  ghost predicate CancelAskedExactly(v: Venue, oid: nat, attempts: nat, sent: seq<Request>, script: seq<Answer>, r: Reply<()>) {
    var calls := Calls(v.script, false, false, attempts);
    && calls > 0 && sent == v.sent + Cancels(oid, calls) && script == Unused(v.script, calls)
    && r == Cancelled(AnswerTo(v.script, calls - 1))
  }

  lemma CancelledOnce(v: Venue, oid: nat)
    requires !v.paper
    ensures var (v', r) := CancelOnce(v, oid);
            && v'.sent == v.sent + [CancelSent(oid)] && v'.script == Unused(v.script, 1) && v'.paper == v.paper
            && r == Cancelled(AnswerTo(v.script, 0))
            && (r.Err? && r.error.Transient? <==> |v.script| > 0 && AsksAgain(v.script[0], false, false))
  {
  }

  lemma OneCancel(oid: nat, sent: seq<Request>, n: nat)
    ensures Cancels(oid, 1) == [CancelSent(oid)]
    ensures sent + [CancelSent(oid)] + Cancels(oid, n) == sent + Cancels(oid, n + 1)
  {
    assert Cancels(oid, n + 1) == [CancelSent(oid)] + Cancels(oid, n);
  }

  lemma CancelAskedOnceMore(v: Venue, oid: nat, attempts: nat, v1: Venue, sent: seq<Request>, script: seq<Answer>, r: Reply<()>)
    requires |v.script| > 0 && AsksAgain(v.script[0], false, false)
    requires v1.sent == v.sent + [CancelSent(oid)] && v1.script == v.script[1..]
    requires CancelAskedExactly(v1, oid, attempts, sent, script, r)
    ensures CancelAskedExactly(v, oid, attempts + 1, sent, script, r)
  {
    var calls := Calls(v1.script, false, false, attempts);
    OneMoreCall(v.script, false, false, attempts);
    OneCancel(oid, v.sent, calls);
    OneMoreAnswer(v.script, calls - 1);
    OneMoreAnswer(v.script, calls);
  }

  lemma {:induction false} CancelAsked(v: Venue, oid: nat, attempt: nat, attempts: nat)
    requires !v.paper && attempt < attempts
    ensures var (v', r) := RetryCancelFrom(v, oid, attempt, attempts);
            CancelAskedExactly(v, oid, attempts - attempt, v'.sent, v'.script, r)
    decreases attempts - attempt
  {
    var (v1, r1) := CancelOnce(v, oid);
    CancelledOnce(v, oid);
    if r1.Err? && r1.error.Transient? && attempt + 1 < attempts {
      CancelAsked(v1, oid, attempt + 1, attempts);
      var (v', r) := RetryCancelFrom(v1, oid, attempt + 1, attempts);
      CancelAskedOnceMore(v, oid, attempts - attempt - 1, v1, v'.sent, v'.script, r);
    } else {
      LastCall(v.script, false, false, attempts - attempt);
      OneCancel(oid, v.sent, 0);
    }
  }

  /** A cancellation succeeds if and only if the first answer that is not transient comes within the
      limit of attempts and is no error; until then it is asked for again. */
  lemma CancelsIff(v: Venue, oid: nat, maxAttempts: nat)
    requires !v.paper
    ensures var (v', r) := RetryCancel(v, oid, maxAttempts);
            var leading, limit := Leading(v.script, false, false), if maxAttempts < 1 then 1 else maxAttempts;
            var calls := if leading < limit then leading + 1 else limit;
            && (r.Ok? <==> leading < limit && leading < |v.script| && !v.script[leading].FatalAnswer?)
            && v'.sent == v.sent + Cancels(oid, calls) && v'.script == Unused(v.script, calls)
  {
    CancelAsked(v, oid, 0, Max1(maxAttempts));
  }
}
