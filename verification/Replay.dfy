/** What the offline replays mean: the trades a z-score series and an entry rule determine. */
module Replay {
  import opened Numbers
  import opened Trading

  const MAX_HOLD_BARS: nat := 192
  const COOLDOWN_BARS: nat := 96

  datatype Source = Cross | CooldownRecovery | FundingCarryGate

  datatype Limits = Limits(entryZ: real, tpZ: real, slZ: real)

  /** A trade by its bars. */
  datatype Span = Span(entry: nat, exit: nat, direction: TradeDirection, source: Source, reason: ExitReason)

  /** The source an entry would have at a bar, given the bar at which the last stop-loss cooldown
      of the replay ends. */
  type EntryRule = (nat, Option<nat>) -> Option<Source>

  function ExitReasonAt(lim: Limits, zscore: real, held: int): Option<ExitReason> {
    if Abs(zscore) <= lim.tpZ then Some(TakeProfit)
    else if Abs(zscore) >= lim.slZ then Some(StopLoss)
    else if held >= MAX_HOLD_BARS then Some(TimeStop)
    else None
  }

  predicate InEntryZone(lim: Limits, zscore: real) {
    lim.entryZ <= Abs(zscore) < lim.slZ
  }

  predicate Crosses(lim: Limits, z: seq<real>, i: nat)
    requires i < |z|
  {
    i > 0 && Abs(z[i - 1]) < lim.entryZ && InEntryZone(lim, z[i])
  }

  /** The bar from which a new entry is possible after a trade. */
  function Resumes(span: Span): nat {
    if span.reason == StopLoss then span.exit + COOLDOWN_BARS else span.exit
  }

  function Release(span: Span, release: Option<nat>): Option<nat> {
    if span.reason == StopLoss then Some(span.exit + COOLDOWN_BARS) else release
  }

  /** The trades that start at `from` or later when no position is open. */
  function Idle(z: seq<real>, lim: Limits, rule: EntryRule, release: Option<nat>, from: nat): seq<Span>
    decreases if from < |z| then |z| - from else 0, 0
  {
    if from >= |z| then []
    else
      match rule(from, release)
      case None => Idle(z, lim, rule, release, from + 1)
      case Some(source) => Open(z, lim, rule, release, from, source, from + 1)
  }

  /** The trade entered at `entry` and not exited before `from`, and all after it.  A position
      still open at the last bar makes no trade. */
  function Open(z: seq<real>, lim: Limits, rule: EntryRule, release: Option<nat>, entry: nat, source: Source, from: nat): seq<Span>
    requires entry < from
    decreases if from < |z| then |z| - from else 0, 1
  {
    if from >= |z| then []
    else
      match ExitReasonAt(lim, z[from], from - entry)
      case None => Open(z, lim, rule, release, entry, source, from + 1)
      case Some(reason) =>
        var span := Span(entry, from, DirectionOf(z[entry]), source, reason);
        [span] + Idle(z, lim, rule, Release(span, release), Resumes(span))
  }

  // ---- well-spaced trades -------------------------------------------------------------------

  /** The span ends at its first bar with an exit reason. */
  ghost predicate EndsFirst(z: seq<real>, lim: Limits, span: Span) {
    && span.entry < span.exit < |z|
    && ExitReasonAt(lim, z[span.exit], span.exit - span.entry) == Some(span.reason)
    && (forall k :: span.entry < k < span.exit ==> ExitReasonAt(lim, z[k], k - span.entry) == None)
    && span.direction == DirectionOf(z[span.entry])
  }

  /** Trades in order: each is held for 1 to 192 bars, none overlaps an earlier one, and none
      enters within 96 bars after a stop-loss. */
  ghost predicate WellSpaced(z: seq<real>, lim: Limits, spans: seq<Span>, from: nat) {
    && (forall k :: 0 <= k < |spans| ==>
          EndsFirst(z, lim, spans[k]) && spans[k].exit - spans[k].entry <= MAX_HOLD_BARS && from <= spans[k].entry)
    && (forall j, k :: 0 <= j < k < |spans| ==> Resumes(spans[j]) <= spans[k].entry)
  }

  lemma {:induction false} IdleSpaced(z: seq<real>, lim: Limits, rule: EntryRule, release: Option<nat>, from: nat)
    ensures WellSpaced(z, lim, Idle(z, lim, rule, release, from), from)
    decreases if from < |z| then |z| - from else 0, 0
  {
    if from < |z| {
      match rule(from, release)
      case None => IdleSpaced(z, lim, rule, release, from + 1);
      case Some(source) => OpenSpaced(z, lim, rule, release, from, source, from + 1);
    }
  }

  lemma {:induction false} OpenSpaced(z: seq<real>, lim: Limits, rule: EntryRule, release: Option<nat>,
                                      entry: nat, source: Source, from: nat)
    requires entry < from <= entry + MAX_HOLD_BARS
    requires forall k :: entry < k < from && k < |z| ==> ExitReasonAt(lim, z[k], k - entry) == None
    ensures WellSpaced(z, lim, Open(z, lim, rule, release, entry, source, from), entry)
    decreases if from < |z| then |z| - from else 0, 1
  {
    if from < |z| {
      match ExitReasonAt(lim, z[from], from - entry)
      case None => OpenSpaced(z, lim, rule, release, entry, source, from + 1);
      case Some(reason) =>
        var span := Span(entry, from, DirectionOf(z[entry]), source, reason);
        IdleSpaced(z, lim, rule, Release(span, release), Resumes(span));
        ConsSpaced(z, lim, span, Idle(z, lim, rule, Release(span, release), Resumes(span)));
    }
  }

  lemma ConsSpaced(z: seq<real>, lim: Limits, span: Span, rest: seq<Span>)
    requires EndsFirst(z, lim, span) && span.exit - span.entry <= MAX_HOLD_BARS
    requires WellSpaced(z, lim, rest, Resumes(span))
    ensures WellSpaced(z, lim, [span] + rest, span.entry)
  {
  }

  // ---- no entry is missed --------------------------------------------------------------------

  /** The trade entered at `entry` has no exit bar. */
  ghost predicate NeverExits(z: seq<real>, lim: Limits, entry: nat) {
    forall k :: entry < k < |z| ==> ExitReasonAt(lim, z[k], k - entry) == None
  }

  /** The end of the last stop-loss cooldown that a bar knows of. */
  function InForce(spans: seq<Span>, release: Option<nat>, i: nat): Option<nat> {
    if |spans| == 0 || i < Resumes(spans[0]) then release
    else InForce(spans[1..], Release(spans[0], release), i)
  }

  /** All trades and their cooldowns are over at the bar. */
  predicate AllOver(spans: seq<Span>, i: nat) {
    forall k :: 0 <= k < |spans| ==> Resumes(spans[k]) <= i
  }

  /** Why a bar that the rule would enter on starts no other trade: a trade covers it, a stop-loss
      cools down over it, or the position still open at the end, entered after all trades, covers it. */
  ghost predicate Accounted(z: seq<real>, lim: Limits, spans: seq<Span>, rule: EntryRule, release: Option<nat>,
                            from: nat, i: nat)
  {
    || Covered(spans, i)
    || exists entry :: from <= entry <= i && NeverExits(z, lim, entry) && AllOver(spans, entry)
                       && rule(entry, InForce(spans, release, entry)).Some?
  }

  ghost predicate Covered(spans: seq<Span>, i: nat) {
    exists k :: 0 <= k < |spans| && spans[k].entry <= i < Resumes(spans[k])
  }

  lemma {:induction false} IdleMissesNothing(z: seq<real>, lim: Limits, rule: EntryRule, release: Option<nat>,
                                             from: nat, i: nat)
    requires from <= i < |z|
    requires var spans := Idle(z, lim, rule, release, from);
             rule(i, InForce(spans, release, i)).Some?
    ensures Accounted(z, lim, Idle(z, lim, rule, release, from), rule, release, from, i)
    decreases |z| - from, 0
  {
    match rule(from, release)
    case None =>
      IdleSpaced(z, lim, rule, release, from + 1);
      IdleMissesNothing(z, lim, rule, release, from + 1, i);
    case Some(source) => OpenMissesNothing(z, lim, rule, release, from, source, from + 1, i);
  }

  lemma {:induction false} OpenMissesNothing(z: seq<real>, lim: Limits, rule: EntryRule, release: Option<nat>,
                                             entry: nat, source: Source, from: nat, i: nat)
    requires entry < from <= |z| && entry <= i < |z| && rule(entry, release).Some?
    requires var spans := Open(z, lim, rule, release, entry, source, from);
             rule(i, InForce(spans, release, i)).Some?
    requires forall k :: entry < k < from ==> ExitReasonAt(lim, z[k], k - entry) == None
    ensures Accounted(z, lim, Open(z, lim, rule, release, entry, source, from), rule, release, entry, i)
    decreases |z| - from, 2
  {
    if from == |z| {
      assert NeverExits(z, lim, entry);
    } else {
      match ExitReasonAt(lim, z[from], from - entry)
      case None => OpenMissesNothing(z, lim, rule, release, entry, source, from + 1, i);
      case Some(reason) => ClosedMissesNothing(z, lim, rule, release, Span(entry, from, DirectionOf(z[entry]), source, reason), i);
    }
  }

  lemma {:induction false} ClosedMissesNothing(z: seq<real>, lim: Limits, rule: EntryRule, release: Option<nat>,
                                               span: Span, i: nat)
    requires span.entry <= i < |z| && span.entry < span.exit < |z|
    requires var rest := Idle(z, lim, rule, Release(span, release), Resumes(span));
             rule(i, InForce([span] + rest, release, i)).Some?
    ensures Accounted(z, lim, [span] + Idle(z, lim, rule, Release(span, release), Resumes(span)), rule, release, span.entry, i)
    decreases |z| - span.exit, 1
  {
    var release' := Release(span, release);
    var rest := Idle(z, lim, rule, release', Resumes(span));
    assert ([span] + rest)[1..] == rest;
    if i < Resumes(span) {
      assert ([span] + rest)[0] == span;
    } else {
      IdleMissesNothing(z, lim, rule, release', Resumes(span), i);
      if k :| 0 <= k < |rest| && rest[k].entry <= i < Resumes(rest[k]) {
        assert ([span] + rest)[k + 1] == rest[k];
      } else {
        var entry :| Resumes(span) <= entry <= i && NeverExits(z, lim, entry) && AllOver(rest, entry)
                     && rule(entry, InForce(rest, release', entry)).Some?;
        assert InForce([span] + rest, release, entry) == InForce(rest, release', entry);
      }
    }
  }

  // ---- every trade is an offered entry --------------------------------------------------------

  ghost predicate Offered(spans: seq<Span>, rule: EntryRule, release: Option<nat>) {
    forall k :: 0 <= k < |spans| ==> rule(spans[k].entry, InForce(spans, release, spans[k].entry)) == Some(spans[k].source)
  }

  lemma {:induction false} IdleOffered(z: seq<real>, lim: Limits, rule: EntryRule, release: Option<nat>, from: nat)
    ensures Offered(Idle(z, lim, rule, release, from), rule, release)
    decreases if from < |z| then |z| - from else 0, 0
  {
    if from < |z| {
      match rule(from, release)
      case None => IdleOffered(z, lim, rule, release, from + 1);
      case Some(source) => OpenOffered(z, lim, rule, release, from, source, from + 1);
    }
  }

  lemma {:induction false} OpenOffered(z: seq<real>, lim: Limits, rule: EntryRule, release: Option<nat>,
                                       entry: nat, source: Source, from: nat)
    requires entry < from && rule(entry, release) == Some(source)
    ensures Offered(Open(z, lim, rule, release, entry, source, from), rule, release)
    decreases if from < |z| then |z| - from else 0, 1
  {
    if from < |z| {
      match ExitReasonAt(lim, z[from], from - entry)
      case None => OpenOffered(z, lim, rule, release, entry, source, from + 1);
      case Some(reason) =>
        var span := Span(entry, from, DirectionOf(z[entry]), source, reason);
        var rest := Idle(z, lim, rule, Release(span, release), Resumes(span));
        IdleOffered(z, lim, rule, Release(span, release), Resumes(span));
        IdleSpaced(z, lim, rule, Release(span, release), Resumes(span));
        ConsOffered(rule, release, span, rest);
    }
  }

  lemma ConsOffered(rule: EntryRule, release: Option<nat>, span: Span, rest: seq<Span>)
    requires span.entry < span.exit && rule(span.entry, release) == Some(span.source)
    requires Offered(rest, rule, Release(span, release))
    requires forall k :: 0 <= k < |rest| ==> Resumes(span) <= rest[k].entry
    ensures Offered([span] + rest, rule, release)
  {
    var spans := [span] + rest;
    assert spans[1..] == rest;
    forall k | 0 <= k < |spans|
      ensures rule(spans[k].entry, InForce(spans, release, spans[k].entry)) == Some(spans[k].source)
    {
      if k > 0 {
        assert spans[k] == rest[k - 1];
        assert InForce(spans, release, spans[k].entry) == InForce(rest, Release(span, release), spans[k].entry);
      }
    }
  }

  /** The trades of a replay, whatever its entry rule: well spaced, each on an entry the rule
      offers, and no offered entry passed over without a reason. */
  lemma ReplayExact(z: seq<real>, lim: Limits, rule: EntryRule)
    ensures var spans := Idle(z, lim, rule, None, 0);
            && WellSpaced(z, lim, spans, 0)
            && Offered(spans, rule, None)
            && forall i :: 0 <= i < |z| && rule(i, InForce(spans, None, i)).Some? ==>
                 Accounted(z, lim, spans, rule, None, 0, i)
  {
    var spans := Idle(z, lim, rule, None, 0);
    IdleSpaced(z, lim, rule, None, 0);
    IdleOffered(z, lim, rule, None, 0);
    forall i | 0 <= i < |z| && rule(i, InForce(spans, None, i)).Some?
      ensures Accounted(z, lim, spans, rule, None, 0, i)
    {
      IdleMissesNothing(z, lim, rule, None, 0, i);
    }
  }

  /** A trade bets against the score of its first bar, is held as long as the score stays between the
      thresholds, at most 192 bars, and its reason says how that ended. */
  ghost predicate BetweenThresholds(z: seq<real>, lim: Limits, span: Span) {
    && span.entry < span.exit < |z|
    && (span.direction == ShortEthLongBtc <==> z[span.entry] >= 0.0)
    && (forall k :: span.entry < k < span.exit ==> lim.tpZ < Abs(z[k]) < lim.slZ)
    && match span.reason
       case TakeProfit => Abs(z[span.exit]) <= lim.tpZ
       case StopLoss => lim.tpZ < Abs(z[span.exit]) && lim.slZ <= Abs(z[span.exit])
       case TimeStop => lim.tpZ < Abs(z[span.exit]) < lim.slZ && span.exit - span.entry == 192
  }

  lemma TradesEndAtThresholds(z: seq<real>, lim: Limits, rule: EntryRule)
    ensures var spans := Idle(z, lim, rule, None, 0);
            forall i :: 0 <= i < |spans| ==> BetweenThresholds(z, lim, spans[i])
  {
    var spans := Idle(z, lim, rule, None, 0);
    IdleSpaced(z, lim, rule, None, 0);
    forall i | 0 <= i < |spans|
      ensures BetweenThresholds(z, lim, spans[i])
    {
      var span := spans[i];
      assert EndsFirst(z, lim, span);
      forall k | span.entry < k < span.exit
        ensures lim.tpZ < Abs(z[k]) < lim.slZ
      {
        assert ExitReasonAt(lim, z[k], k - span.entry) == None;
      }
    }
  }

  // ---- equal rules, equal trades -----------------------------------------------------------------

  ghost predicate SameRule(n: nat, a: EntryRule, b: EntryRule) {
    forall i: nat, release :: i < n ==> a(i, release) == b(i, release)
  }

  lemma {:induction false} SameIdle(z: seq<real>, lim: Limits, a: EntryRule, b: EntryRule, release: Option<nat>, from: nat)
    requires SameRule(|z|, a, b)
    ensures Idle(z, lim, a, release, from) == Idle(z, lim, b, release, from)
    decreases if from < |z| then |z| - from else 0, 0
  {
    if from < |z| {
      match a(from, release)
      case None => SameIdle(z, lim, a, b, release, from + 1);
      case Some(source) => SameOpen(z, lim, a, b, release, from, source, from + 1);
    }
  }

  lemma {:induction false} SameOpen(z: seq<real>, lim: Limits, a: EntryRule, b: EntryRule, release: Option<nat>,
                                    entry: nat, source: Source, from: nat)
    requires SameRule(|z|, a, b) && entry < from
    ensures Open(z, lim, a, release, entry, source, from) == Open(z, lim, b, release, entry, source, from)
    decreases if from < |z| then |z| - from else 0, 1
  {
    if from < |z| {
      match ExitReasonAt(lim, z[from], from - entry)
      case None => SameOpen(z, lim, a, b, release, entry, source, from + 1);
      case Some(reason) =>
        var span := Span(entry, from, DirectionOf(z[entry]), source, reason);
        SameIdle(z, lim, a, b, Release(span, release), Resumes(span));
    }
  }
}
