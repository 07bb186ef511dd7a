/** The engine's position against the exchange's book, cycle by cycle. */
module BookSafety {
  import opened Numbers
  import opened Trading
  import opened State
  import opened Indicators
  import opened Pipeline
  import opened Execution
  import opened PairProtocol
  import opened Strategy
  import opened EngineInvariants

  /** The quantities the engine believes it holds are those on the exchange. */
  predicate BookMatches(s: StrategyState, book: Book) {
    match s.position
    case None => book.eth == 0.0 && book.btc == 0.0
    case Some(p) => p.eth.qty == book.eth && p.btc.qty == book.btc
  }

  /** The fetched exposure is that of the exchange. */
  predicate Faithful(x: PairExposure, book: Book) {
    x.EthQty() == book.eth && x.BtcQty() == book.btc
  }

  /** The repair order of a reconciliation that finds a single leg. */
  function RepairReply(cfg: Config, e: EngineState, v: Venue, x: Report): Reply<Option<(Symbol, OrderFill)>>
    requires x.exposure.HasResidual()
  {
    var s := e.machine;
    var v1 := if s.status == PendingEntry && s.pending.Some?
              then CancelBoth(v, s.pending.value, cfg.execution.maxAttempts) else v;
    RepairResidual(v1, ExposureToPosition(x.exposure, x.time).value, cfg.execution.maxAttempts).1
  }

  /** The exchange reported a repair fill of the size of the leg. */
  predicate RepairedInFull(x: PairExposure, reply: Reply<Option<(Symbol, OrderFill)>>) {
    && reply.Ok? && reply.value.Some?
    && reply.value.value.1.qty == Abs(if reply.value.value.0 == EthPerp then x.EthQty() else x.BtcQty())
  }

  /** After a residual reconciliation the engine is flat; the book is flat exactly when the repair
      filled the whole leg, and untouched when the repair failed. */
  lemma ResidualBook(cfg: Config, e: EngineState, v: Venue, x: Report)
    requires EngineSound(cfg, e) && v.Sound() && !v.paper
    requires Faithful(x.exposure, v.book) && x.exposure.HasResidual()
    ensures var r := ReconcileResidual(cfg, e, v, x);
            && (r.error.None? ==> r.engine.machine.status == Flat && r.engine.machine.position.None?)
            && (r.error.None? ==>
                  (BookMatches(r.engine.machine, r.venue.book) <==> RepairedInFull(x.exposure, RepairReply(cfg, e, v, x))))
            && (r.error.Some? ==> r.engine == e && r.venue.book.eth == v.book.eth && r.venue.book.btc == v.book.btc)
  {
    var s := e.machine;
    if s.pending.Some? {
      CancelBothNotPaper(v, s.pending.value, cfg.execution.maxAttempts);
    }
    var v1 := if s.status == PendingEntry && s.pending.Some?
              then CancelBoth(v, s.pending.value, cfg.execution.maxAttempts) else v;
    RepairOutcome(v1, ExposureToPosition(x.exposure, x.time).value, cfg.execution.maxAttempts);
  }

  lemma CancelBothNotPaper(v: Venue, pending: PendingEntrySnapshot, maxAttempts: nat)
    requires v.Sound() && !v.paper
    ensures var v' := CancelBoth(v, pending, maxAttempts);
            v'.Sound() && !v'.paper && v'.book.eth == v.book.eth && v'.book.btc == v.book.btc
  {
    CancelBothKeeps(v, pending, maxAttempts);
  }

  /** A reconciliation that succeeds on a faithful exposure leaves engine and book in agreement,
      except exactly when it repaired a single leg only in part.  Without a single leg it sends
      nothing to the exchange, and it fails exactly on a disagreement. */
  lemma ReconcileAgrees(cfg: Config, e: EngineState, v: Venue, x: Report)
    requires EngineSound(cfg, e) && v.Sound() && !v.paper && Faithful(x.exposure, v.book)
    ensures var r := Reconcile(cfg, e, v, x);
            && (r.error.None? ==>
                  (BookMatches(r.engine.machine, r.venue.book) <==>
                     (x.exposure.HasResidual() ==> RepairedInFull(x.exposure, RepairReply(cfg, e, v, x)))))
            && (!x.exposure.HasResidual() ==> r.venue == v)
            && (!x.exposure.HasResidual() ==>
                  (r.error.Some? <==>
                     !x.exposure.IsFlat() && e.machine.status != PendingEntry && !BookMatches(e.machine, v.book)))
            && (r.error.Some? ==> r.engine == e && r.venue.book.eth == v.book.eth && r.venue.book.btc == v.book.btc)
  {
    if !x.exposure.IsFlat() {
      if x.exposure.HasResidual() {
        ResidualBook(cfg, e, v, x);
      } else if e.machine.status == PendingEntry {
        ReconcilePendingKeeps(cfg, e, v, x);
      }
    }
  }

  // ---- the bar -----------------------------------------------------------------------------

  /** Every close of a bar in progress reports the whole legs. */
  predicate ClosedInFull(p: PositionSnapshot, fills: PairFill) {
    fills.eth.qty == Abs(p.eth.qty) && fills.btc.qty == Abs(p.btc.qty)
  }

  /** The closing fills a bar receives, if it closes. */
  function CloseReply(cfg: Config, t: Turn, bar: BarInput, output: SignalOutput): Option<PairFill> {
    var s := t.engine.machine;
    if output.exit.None? || s.position.None? then None
    else
      var p := s.position.value;
      match ClosePair(t.venue, ExitOrder(cfg, EthPerp, p.eth.qty, bar.eth),
                      ExitOrder(cfg, BtcPerp, p.btc.qty, bar.btc), cfg.execution.maxAttempts).1
      case Err(_) => None
      case Ok(fills) => Some(fills)
  }

  /** An entry touches the exchange only from a flat book, and leaves engine and book in agreement
      unless it ends in an error. */
  lemma EntryAgrees(cfg: Config, t: Turn, bar: BarInput, output: SignalOutput)
    requires TurnSound(cfg, t) && Fits(cfg, t.venue) && BookMatches(t.engine.machine, t.venue.book)
    requires output.entry.Some? ==> t.engine.machine.status == Flat
    ensures var p := EnterIfSignalled(cfg, t, bar, output);
            && (p.turn.venue != t.venue ==> t.venue.book.eth == 0.0 && t.venue.book.btc == 0.0)
            && (p.Continue? || p.error.None? ==> BookMatches(p.turn.engine.machine, p.turn.venue.book))
            && (output.entry.None? ==> p == Continue(t))
  {
    if output.entry.Some? && output.vol.eth.Some? && output.vol.btc.Some? {
      var signal := output.entry.value;
      var plan := EntryPlan(cfg, bar, signal, output.vol.eth.value, output.vol.btc.value);
      OrdersPositive(cfg, bar, signal, output.vol.eth.value, output.vol.btc.value);
      if plan.PlanOrders? {
        SubmittedAgrees(cfg, t, bar, signal, plan);
      }
    }
  }

  lemma SubmittedAgrees(cfg: Config, t: Turn, bar: BarInput, signal: EntrySignal, plan: Plan)
    requires TurnSound(cfg, t) && BookMatches(t.engine.machine, t.venue.book) && t.engine.machine.status == Flat
    requires plan.PlanOrders? && EntryOrders(signal.direction, plan.eth, plan.btc)
    requires t.venue.paper ==> Positive(plan.eth, plan.btc)
    ensures var p := SubmitEntry(cfg, t, bar, signal, plan);
            p.Continue? || p.error.None? ==> BookMatches(p.turn.engine.machine, p.turn.venue.book)
  {
    OpenExact(t.venue, plan.eth, plan.btc, cfg.execution.maxAttempts);
    var (v', r) := OpenPair(t.venue, plan.eth, plan.btc, cfg.execution.maxAttempts);
    if r.Ok? && r.value.PairFilled? {
      EnterFilledKeeps(cfg, t.(venue := v'), bar, signal.direction, r.value.fills);
    }
  }

  /** An exit that succeeds leaves engine and book in agreement exactly when both legs closed in
      full. */
  lemma ExitAgrees(cfg: Config, t: Turn, bar: BarInput, output: SignalOutput)
    requires TurnSound(cfg, t) && BookMatches(t.engine.machine, t.venue.book)
    ensures var p := ExitIfSignalled(cfg, t, bar, output);
            var reply := CloseReply(cfg, t, bar, output);
            p.Continue? ==>
              (BookMatches(p.turn.engine.machine, p.turn.venue.book) <==>
                 (reply.Some? ==> ClosedInFull(t.engine.machine.position.value, reply.value)))
  {
    var s := t.engine.machine;
    if output.exit.Some? && s.position.Some? {
      var eth := ExitOrder(cfg, EthPerp, s.position.value.eth.qty, bar.eth);
      var btc := ExitOrder(cfg, BtcPerp, s.position.value.btc.qty, bar.btc);
      CloseExact(t.venue, eth, btc, cfg.execution.maxAttempts);
      var (v', r) := ClosePair(t.venue, eth, btc, cfg.execution.maxAttempts);
      if r.Ok? {
        ExitClosedKeeps(cfg, t.(venue := v'), bar, s.position.value, output.exit.value.reason, r.value);
      }
    }
  }

  /** The closing fills received by the trading part of a bar. */
  function TradeCloseReply(m: Maths, cfg: Config, t: Turn, bar: BarInput): Option<PairFill>
    requires cfg.IndicatorsValid()
  {
    var (signals, output) := PipelineStep(m, cfg, t.engine.signals, TickOf(t.engine, bar));
    if output.None? then None
    else CloseReply(cfg, t.(engine := t.engine.(signals := signals)), bar, output.value)
  }

  /** The bar sends nothing to the exchange unless it closes a held position or starts flat. */
  lemma TradeAgrees(m: Maths, cfg: Config, t: Turn, bar: BarInput)
    requires cfg.IndicatorsValid() && Fits(cfg, t.venue)
    requires TurnSound(cfg, t) && BookMatches(t.engine.machine, t.venue.book)
    ensures var p := TradeSignals(m, cfg, t, bar);
            var reply := TradeCloseReply(m, cfg, t, bar);
            && (p.Continue? || p.error.None? ==>
                  (BookMatches(p.turn.engine.machine, p.turn.venue.book) <==>
                     (reply.Some? ==> ClosedInFull(t.engine.machine.position.value, reply.value))))
            && (p.turn.venue != t.venue && t.engine.machine.status != InPosition ==>
                  t.venue.book.eth == 0.0 && t.venue.book.btc == 0.0)
  {
    var (signals, output) := PipelineStep(m, cfg, t.engine.signals, TickOf(t.engine, bar));
    StepKeepsSound(m, cfg, t.engine.signals, TickOf(t.engine, bar));
    OutputExclusive(m, cfg, t.engine.signals, TickOf(t.engine, bar));
    var t' := t.(engine := t.engine.(signals := signals));
    if output.Some? {
      EntryAgrees(cfg, t', bar, output.value);
      if output.value.entry.None? {
        ExitAgrees(cfg, t', bar, output.value);
      } else {
        EnterKeeps(cfg, t', bar, output.value);
      }
    }
  }

  lemma BarAgrees(m: Maths, cfg: Config, e: EngineState, v: Venue, bar: BarInput)
    requires cfg.IndicatorsValid() && Fits(cfg, v)
    requires EngineSound(cfg, e) && BookMatches(e.machine, v.book)
    ensures var start := Prepare(cfg, e, v, bar);
            var (e', v', result) := ProcessBar(m, cfg, e, v, bar);
            && BookMatches(start.turn.engine.machine, start.turn.venue.book)
            && (start.Stop? ==> result.Failed? && v'.book.eth == v.book.eth && v'.book.btc == v.book.btc)
            && (start.Continue? && result.Processed? ==>
                  var reply := TradeCloseReply(m, cfg, start.turn, bar);
                  BookMatches(e'.machine, v'.book) <==>
                    (reply.Some? ==> ClosedInFull(start.turn.engine.machine.position.value, reply.value)))
            && (start.Continue? && v' != start.turn.venue && start.turn.engine.machine.status != InPosition ==>
                  v.book.eth == 0.0 && v.book.btc == 0.0)
  {
    PrepareKeeps(cfg, e, v, bar);
    var start := Prepare(cfg, e, v, bar);
    if start.Continue? {
      TradeAgrees(m, cfg, start.turn, bar);
    } else {
      PrepareStopsWithError(cfg, e, v, bar);
    }
  }

  lemma PrepareStopsWithError(cfg: Config, e: EngineState, v: Venue, bar: BarInput)
    requires Prepare(cfg, e, v, bar).Stop?
    ensures Prepare(cfg, e, v, bar).error.Some?
  {
  }

  /** A single leg, if any, is repaired in full unless the reconciliation fails. */
  predicate RepairsInFull(cfg: Config, e: EngineState, v: Venue, x: Report) {
    x.exposure.HasResidual() && Reconcile(cfg, e, v, x).error.None? ==> RepairedInFull(x.exposure, RepairReply(cfg, e, v, x))
  }

  /** The cycle starts its bar in agreement with the exchange, sends an entry only from a flat book,
      and ends in agreement exactly when its closing fills (if any) were complete.  When its
      reconciliation fails, the engine and the exposures are left as they were. */
  ghost predicate SafeCycle(m: Maths, cfg: Config, e: EngineState, v: Venue, x: Report, bar: BarInput)
    requires cfg.IndicatorsValid()
  {
    var r := Reconcile(cfg, e, v, x);
    var c := RunCycle(m, cfg, e, v, Some(x), bar);
    && (r.error.Some? ==>
          c == CycleResult(e, r.venue, Failed(r.error.value))
          && r.venue.book.eth == v.book.eth && r.venue.book.btc == v.book.btc)
    && (r.error.None? ==>
          var start := Prepare(cfg, r.engine, r.venue, bar);
          && BookMatches(r.engine.machine, r.venue.book)
          && BookMatches(start.turn.engine.machine, start.turn.venue.book)
          && (start.Continue? && c.venue != start.turn.venue && start.turn.engine.machine.status != InPosition ==>
                r.venue.book.eth == 0.0 && r.venue.book.btc == 0.0)
          && (start.Continue? && c.result.Processed? ==>
                var reply := TradeCloseReply(m, cfg, start.turn, bar);
                BookMatches(c.engine.machine, c.venue.book) <==>
                  (reply.Some? && start.turn.engine.machine.position.Some? ==>
                     ClosedInFull(start.turn.engine.machine.position.value, reply.value))))
  }

  /** Every cycle from a sound engine that reconciles a faithful exposure of a live exchange, and
      whose repair (if any) fills in full, is safe. */
  lemma CycleNeverActsOnWrongBook(m: Maths, cfg: Config, e: EngineState, v: Venue, x: Report, bar: BarInput)
    requires cfg.IndicatorsValid() && EngineSound(cfg, e) && v.Sound() && !v.paper
    requires Faithful(x.exposure, v.book) && RepairsInFull(cfg, e, v, x)
    ensures SafeCycle(m, cfg, e, v, x, bar)
  {
    ReconcileAgrees(cfg, e, v, x);
    ReconciliationKeeps(cfg, e, v, x);
    var r := Reconcile(cfg, e, v, x);
    if r.error.None? {
      BarAgrees(m, cfg, r.engine, r.venue, bar);
    }
  }

  /** What an unsuccessful open leaves behind, the next reconciliation whose repair fills in full
      removes: the engine is flat and so is the book. */
  lemma LeftoverIsFlattened(cfg: Config, e: EngineState, v: Venue, eth: OrderRequest, btc: OrderRequest, x: Report)
    requires EngineSound(cfg, e) && e.machine.status == Flat && v.Sound() && !v.paper && IsPair(eth, btc)
    requires v.book.eth == 0.0 && v.book.btc == 0.0
    requires OpenPair(v, eth, btc, cfg.execution.maxAttempts).1.Err?
    requires var v' := OpenPair(v, eth, btc, cfg.execution.maxAttempts).0;
             Faithful(x.exposure, v'.book)
             && (x.exposure.HasResidual() ==> RepairedInFull(x.exposure, RepairReply(cfg, e, v', x)))
    ensures var v' := OpenPair(v, eth, btc, cfg.execution.maxAttempts).0;
            var r := Reconcile(cfg, e, v', x);
            r.error.None? && r.engine.machine.status == Flat && r.venue.book.eth == 0.0 && r.venue.book.btc == 0.0
  {
    OpenPairOutcome(v, eth, btc, cfg.execution.maxAttempts);
    OpenErrorLeavesOneLeg(v, eth, btc, cfg.execution.maxAttempts);
    var v' := OpenPair(v, eth, btc, cfg.execution.maxAttempts).0;
    ReconcileAgrees(cfg, e, v', x);
    if x.exposure.HasResidual() {
      ResidualBook(cfg, e, v', x);
    }
  }
}
