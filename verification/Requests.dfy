/** What the two-leg protocol sends, call by call. */
module Requests {
  import opened Trading
  import opened Pricing
  import opened Execution
  import opened PairProtocol
  import opened Retries
  import opened State
  import opened Strategy

  /** So many calls for one order: none exactly if it has no price to be sent at, and one on paper. */
  predicate CallsFor(v: Venue, order: OrderRequest, maxAttempts: nat, n: nat) {
    && (n == 0 <==> !Sendable(order)) && n <= Attempts(order, maxAttempts) && (v.paper ==> n <= 1)
  }

  lemma PaperSubmits(v: Venue, order: OrderRequest, maxAttempts: nat)
    requires v.paper && Sendable(order)
    ensures RetrySubmitResult(v, order, maxAttempts).0.sent == v.sent + [OrderSent(OrderOf(order, 0))]
  {
  }

  /** One request sends its order, again and again at its prices, and nothing else. */
  lemma SubmitSends(v: Venue, order: OrderRequest, maxAttempts: nat) returns (n: nat)
    requires v.Sound()
    ensures CallsFor(v, order, maxAttempts, n)
    ensures var v' := RetrySubmitResult(v, order, maxAttempts).0;
            v'.sent == v.sent + Orders(order, 0, n) && v'.Sound() && v'.paper == v.paper
  {
    RetryExact(v, order, maxAttempts);
    if !Sendable(order) {
      UnsendableIsNotSent(v, order, maxAttempts);
      n := 0;
    } else if v.paper {
      PaperSubmits(v, order, maxAttempts);
      OneOrder(order, 0);
      n := 1;
    } else {
      FillsIff(v, order, maxAttempts);
      n := |RetrySubmitResult(v, order, maxAttempts).0.sent| - |v.sent|;
    }
  }

  /** The undo of an opening leg: a reduce-only sale of what it filled, at the market. */
  predicate UndoesOpening(order: OrderRequest, undo: OrderRequest, filled: real) {
    undo == OrderRequest(order.symbol, Sell, filled, Market, order.limitPrice, true)
  }

  /** What follows the two legs of an open. */
  ghost predicate OpenAfterwards(eth: OrderRequest, btc: OrderRequest, maxAttempts: nat, first: Reply<SubmitResult>,
                                 second: Reply<SubmitResult>, requests: seq<Request>)
  {
    match (first, second)
    case (Ok(Filled(_)), Ok(Filled(_))) => requests == []
    case (Ok(Resting(_)), Ok(Resting(_))) => requests == []
    case (Err(_), _) => requests == []
    case (Ok(Filled(fill)), _) =>
      exists undo, n: nat :: UndoesOpening(eth, undo, fill.qty) && n <= Attempts(undo, maxAttempts) && requests == Orders(undo, 0, n)
    case (Ok(Resting(_)), Ok(Filled(fill))) =>
      exists undo, n: nat :: UndoesOpening(btc, undo, fill.qty) && n <= Attempts(undo, maxAttempts) && requests == Orders(undo, 0, n)
    case (Ok(Resting(oid)), Err(_)) => exists n: nat :: n > 0 && requests == Cancels(oid, n)
  }

  /** What an open sends: `a` calls for the ETH leg; unless that fails, `b` calls for the BTC leg; then
      the undo of a leg that filled alone, or the cancellation of one that rests alone. */
  ghost predicate OpenSent(v: Venue, eth: OrderRequest, btc: OrderRequest, maxAttempts: nat, sent: seq<Request>,
                           a: nat, b: nat, more: seq<Request>)
  {
    var (v1, first) := RetrySubmitResult(v, eth, maxAttempts);
    var second := RetrySubmitResult(v1, btc, maxAttempts).1;
    && CallsFor(v, eth, maxAttempts, a) && (if first.Err? then b == 0 else CallsFor(v, btc, maxAttempts, b))
    && OpenAfterwards(eth, btc, maxAttempts, first, second, more)
    && sent == v.sent + Orders(eth, 0, a) + Orders(btc, 0, b) + more
  }

  lemma OpenSends(v: Venue, eth: OrderRequest, btc: OrderRequest, maxAttempts: nat) returns (a: nat, b: nat, more: seq<Request>)
    requires v.Sound() && !v.paper && IsPair(eth, btc)
    ensures OpenSent(v, eth, btc, maxAttempts, OpenPair(v, eth, btc, maxAttempts).0.sent, a, b, more)
  {
    var (v1, first) := RetrySubmitResult(v, eth, maxAttempts);
    a := SubmitSends(v, eth, maxAttempts);
    b, more := 0, [];
    if first.Ok? {
      var (v2, second) := RetrySubmitResult(v1, btc, maxAttempts);
      RetryExact(v, eth, maxAttempts);
      RetryExact(v1, btc, maxAttempts);
      b := SubmitSends(v1, btc, maxAttempts);
      more := OpenGoesOn(v2, eth, btc, maxAttempts, first, second);
      OpenIsTwoLegs(v, eth, btc, maxAttempts);
    }
  }

  lemma OpenIsTwoLegs(v: Venue, eth: OrderRequest, btc: OrderRequest, maxAttempts: nat)
    requires RetrySubmitResult(v, eth, maxAttempts).1.Ok?
    ensures var (v1, first) := RetrySubmitResult(v, eth, maxAttempts);
            var (v2, second) := RetrySubmitResult(v1, btc, maxAttempts);
            OpenPair(v, eth, btc, maxAttempts).0 == Afterwards(v2, eth, btc, maxAttempts, first, second)
  {
  }

  /** The exchange after what follows the two legs. */
  function Afterwards(v2: Venue, eth: OrderRequest, btc: OrderRequest, maxAttempts: nat,
                      first: Reply<SubmitResult>, second: Reply<SubmitResult>): Venue
    requires first.Ok?
  {
    var filled := second.Ok? && second.value.Filled?;
    match first.value
    case Filled(fill) => if filled then v2 else RetryFilled(v2, RollbackOrder(eth, fill), maxAttempts).0
    case Resting(oid) =>
      if filled then RetryFilled(v2, RollbackOrder(btc, second.value.fill), maxAttempts).0
      else if second.Ok? then v2 else RetryCancel(v2, oid, maxAttempts).0
  }

  lemma OpenGoesOn(v2: Venue, eth: OrderRequest, btc: OrderRequest, maxAttempts: nat, first: Reply<SubmitResult>,
                   second: Reply<SubmitResult>) returns (more: seq<Request>)
    requires v2.Sound() && !v2.paper && first.Ok?
    requires first.value.Filled? ==> first.value.fill.qty > 0.0
    requires second.Ok? && second.value.Filled? ==> second.value.fill.qty > 0.0
    ensures OpenAfterwards(eth, btc, maxAttempts, first, second, more)
    ensures Afterwards(v2, eth, btc, maxAttempts, first, second).sent == v2.sent + more
  {
    var filled := second.Ok? && second.value.Filled?;
    more := [];
    if first.value.Filled? && !filled {
      var undo := RollbackOrder(eth, first.value.fill);
      var n := SubmitSends(v2, undo, maxAttempts);
      assert UndoesOpening(eth, undo, first.value.fill.qty);
      more := Orders(undo, 0, n);
    } else if first.value.Resting? && filled {
      var undo := RollbackOrder(btc, second.value.fill);
      var n := SubmitSends(v2, undo, maxAttempts);
      assert UndoesOpening(btc, undo, second.value.fill.qty);
      more := Orders(undo, 0, n);
    } else if first.value.Resting? && second.Err? {
      CancelsIff(v2, first.value.oid, maxAttempts);
      var n := |RetryCancel(v2, first.value.oid, maxAttempts).0.sent| - |v2.sent|;
      more := Cancels(first.value.oid, n);
    }
  }

  /** What a close sends: `a` calls for the ETH leg; unless that fails to fill, `b` calls for the BTC leg;
      and if that fails to fill, `c` calls that sell what was filled of the first, not reduce-only. */
  ghost predicate CloseSent(v: Venue, eth: OrderRequest, btc: OrderRequest, maxAttempts: nat, sent: seq<Request>,
                            a: nat, b: nat, c: nat)
  {
    var (v1, first) := RetryFilled(v, eth, maxAttempts);
    var second := RetryFilled(v1, btc, maxAttempts).1;
    var again := if first.Err? then eth else eth.(side := Sell, qty := first.value.qty, reduceOnly := false);
    && CallsFor(v, eth, maxAttempts, a) && (if first.Err? then b == 0 else CallsFor(v, btc, maxAttempts, b))
    && (first.Err? || second.Ok? ==> c == 0) && c <= Attempts(eth, maxAttempts)
    && sent == v.sent + Orders(eth, 0, a) + Orders(btc, 0, b) + Orders(again, 0, c)
  }

  lemma CloseSends(v: Venue, eth: OrderRequest, btc: OrderRequest, maxAttempts: nat) returns (a: nat, b: nat, c: nat)
    requires v.Sound() && !v.paper && IsPair(eth, btc)
    ensures CloseSent(v, eth, btc, maxAttempts, ClosePair(v, eth, btc, maxAttempts).0.sent, a, b, c)
  {
    var (v1, first) := RetryFilled(v, eth, maxAttempts);
    a := SubmitSends(v, eth, maxAttempts);
    b, c := 0, 0;
    if first.Ok? {
      var (v2, second) := RetryFilled(v1, btc, maxAttempts);
      RetryExact(v, eth, maxAttempts);
      b := SubmitSends(v1, btc, maxAttempts);
      if second.Err? {
        RetryExact(v1, btc, maxAttempts);
        assert ReopenOrder(eth, first.value) == eth.(side := Sell, qty := first.value.qty, reduceOnly := false);
        c := SubmitSends(v2, ReopenOrder(eth, first.value), maxAttempts);
      }
    }
  }

  /** Giving up a pending entry asks for the cancellation of the ETH order and then, whatever came of
      that, of the BTC order; each leaves the book exactly if its cancellation succeeds. */
  lemma CancelsBoth(v: Venue, pending: PendingEntrySnapshot, maxAttempts: nat) returns (a: nat, b: nat)
    requires v.Sound() && !v.paper
    ensures var v' := CancelBoth(v, pending, maxAttempts);
            var (v1, first) := RetryCancel(v, pending.ethOid, maxAttempts);
            var second := RetryCancel(v1, pending.btcOid, maxAttempts).1;
            && a > 0 && b > 0 && v'.sent == v.sent + Cancels(pending.ethOid, a) + Cancels(pending.btcOid, b)
            && v'.book == v.book.(resting := v.book.resting - (if first.Ok? then {pending.ethOid} else {})
                                                            - (if second.Ok? then {pending.btcOid} else {}))
  {
    var v1 := RetryCancel(v, pending.ethOid, maxAttempts).0;
    CancelsIff(v, pending.ethOid, maxAttempts);
    CancelExact(v, pending.ethOid, 0, Max1(maxAttempts));
    CancelsIff(v1, pending.btcOid, maxAttempts);
    CancelExact(v1, pending.btcOid, 0, Max1(maxAttempts));
    a := |v1.sent| - |v.sent|;
    b := |RetryCancel(v1, pending.btcOid, maxAttempts).0.sent| - |v1.sent|;
  }

  /** A pending entry is given up from its expiry on, and not before: both its orders are cancelled and the
      engine is flat, or the bar fails and the entry stays pending. */
  lemma ExpiryCancelsBoth(cfg: Config, t: Turn, time: int)
    requires t.venue.Sound() && !t.venue.paper && t.engine.machine.status == PendingEntry && t.engine.machine.pending.Some?
    ensures var p, pending := ExpirePending(cfg, t, time), t.engine.machine.pending.value;
            && (time < pending.expiresAt ==> p == Continue(t))
            && (time >= pending.expiresAt && p.Continue? ==>
                  && p.turn.venue.book == t.venue.book.(resting := t.venue.book.resting - {pending.ethOid, pending.btcOid})
                  && p.turn.engine.machine.status == Flat && p.turn.engine.machine.position.None?
                  && p.turn.engine.machine.pending.None? && p.turn.engine.cumulative == t.engine.cumulative
                  && p.turn.events == t.events + [EntryCancelled] && p.turn.logs == t.logs)
            && (p.Stop? ==> p.error.Some? && p.turn.engine == t.engine)
  {
    var pending := t.engine.machine.pending.value;
    var v1 := RetryCancel(t.venue, pending.ethOid, cfg.execution.maxAttempts).0;
    CancelExact(t.venue, pending.ethOid, 0, Max1(cfg.execution.maxAttempts));
    CancelExact(v1, pending.btcOid, 0, Max1(cfg.execution.maxAttempts));
    var resting := t.venue.book.resting;
    assert resting - {pending.ethOid} - {pending.btcOid} == resting - {pending.ethOid, pending.btcOid};
    var p := ExpirePending(cfg, t, time);
    if time >= pending.expiresAt && p.Continue? {
      var (v2, second) := RetryCancel(v1, pending.btcOid, cfg.execution.maxAttempts);
      assert second.Ok? && p.turn.venue == v2;
      assert v2.book == v1.book.(resting := v1.book.resting - {pending.btcOid});
    }
  }
}
