/** The trading state machine, its persistence and its crash recovery. */
module State {
  import opened Trading

  datatype PositionLeg = PositionLeg(qty: real, avgPrice: real, notional: real)

  datatype PositionSnapshot = PositionSnapshot(
    direction: TradeDirection, entryTime: int, eth: PositionLeg, btc: PositionLeg)
  {
    predicate HasResidual() {
      (eth.qty == 0.0) != (btc.qty == 0.0)
    }

    /** Whole hours held; a negative span truncates toward zero. */
    function HoldingHours(now: int): int {
      var span := now - entryTime;
      if span >= 0 then span / 3600 else -((-span) / 3600)
    }
  }

  datatype PendingEntrySnapshot = PendingEntrySnapshot(
    direction: TradeDirection, ethQty: real, btcQty: real, ethOid: nat, btcOid: nat,
    submittedAt: int, expiresAt: int)

  datatype StrategyState = StrategyState(
    status: StrategyStatus, position: Option<PositionSnapshot>, pending: Option<PendingEntrySnapshot>,
    cooldownUntil: Option<int>, cumulative: real)

  const FRESH_STATE := StrategyState(Flat, None, None, None, 0.0)

  /** Each status carries exactly its payload, and only a cooldown has a release time. */
  predicate WellFormed(s: StrategyState) {
    && (s.position.Some? <==> s.status == InPosition)
    && (s.pending.Some? <==> s.status == PendingEntry)
    && (s.cooldownUntil.Some? <==> s.status == Cooldown)
  }

  datatype Transition = Done(state: StrategyState) | InvalidTransition

  function ForcedFlat(s: StrategyState): StrategyState {
    s.(status := Flat, position := None, pending := None, cooldownUntil := None)
  }

  /** What `hydrate` accepts: weaker than `WellFormed`, since a stray release time passes. */
  predicate Hydratable(s: StrategyState) {
    match s.status
    case Flat => s.position.None? && s.pending.None?
    case PendingEntry => s.pending.Some? && s.position.None?
    case InPosition => s.position.Some? && s.pending.None?
    case Cooldown => s.cooldownUntil.Some? && s.position.None? && s.pending.None?
  }

  predicate BeforeRelease(s: StrategyState, now: int) {
    s.cooldownUntil.Some? && now < s.cooldownUntil.value
  }

  function Entered(s: StrategyState, position: PositionSnapshot, now: int): Transition {
    if s.status != Flat || BeforeRelease(s, now) then InvalidTransition
    else Done(s.(status := InPosition, position := Some(position), pending := None, cooldownUntil := None))
  }

  function EnteredPending(s: StrategyState, pending: PendingEntrySnapshot): Transition {
    if s.status != Flat || BeforeRelease(s, pending.submittedAt) then InvalidTransition
    else Done(s.(status := PendingEntry, position := None, pending := Some(pending), cooldownUntil := None))
  }

  function Confirmed(s: StrategyState, position: PositionSnapshot): Transition {
    if s.status != PendingEntry then InvalidTransition
    else Done(s.(status := InPosition, position := Some(position), pending := None, cooldownUntil := None))
  }

  function Exited(s: StrategyState, cooldownHours: nat, reason: ExitReason, now: int): Transition {
    if s.status != InPosition then InvalidTransition
    else
      var closed := s.(position := None, pending := None);
      match reason
      case StopLoss => Done(closed.(status := Cooldown, cooldownUntil := Some(now + cooldownHours * 3600)))
      case _ => Done(closed.(status := Flat, cooldownUntil := None))
  }

  function Updated(s: StrategyState, now: int): StrategyState {
    if s.status == Cooldown && s.cooldownUntil.Some? && now >= s.cooldownUntil.value
    then s.(status := Flat, cooldownUntil := None)
    else s
  }

  datatype RecoveryReport = RecoveryReport(state: StrategyState, repairResidual: bool, missingPosition: bool)

  function Recovered(s: StrategyState, now: int): RecoveryReport {
    var released :=
      if s.status == Cooldown && s.cooldownUntil.Some? && now >= s.cooldownUntil.value
      then s.(status := Flat, pending := None, cooldownUntil := None)
      else s;
    if released.status == InPosition then
      match released.position
      case None => RecoveryReport(released.(status := Flat, position := None, pending := None), false, true)
      case Some(p) => RecoveryReport(released, p.HasResidual(), false)
    else RecoveryReport(released, false, false)
  }

  class StateMachine {
    const cooldownHours: nat
    var state: StrategyState

    constructor (cooldownHours: nat)
      ensures this.cooldownHours == cooldownHours && state == FRESH_STATE
    {
      this.cooldownHours := cooldownHours;
      state := FRESH_STATE;
    }

    method ForceFlat()
      modifies this
      ensures state == ForcedFlat(old(state))
    {
      state := state.(status := Flat);
      state := state.(position := None);
      state := state.(pending := None);
      state := state.(cooldownUntil := None);
    }

    method SetCumulativeRealizedPnl(value: real)
      modifies this
      ensures state == old(state).(cumulative := value)
    {
      state := state.(cumulative := value);
    }

    method Hydrate(saved: StrategyState) returns (ok: bool)
      modifies this
      ensures ok == Hydratable(saved)
      ensures state == if ok then saved else old(state)
    {
      match saved.status {
        case Flat =>
          if saved.position.Some? || saved.pending.Some? {
            return false;
          }
        case PendingEntry =>
          if saved.pending.None? || saved.position.Some? {
            return false;
          }
        case InPosition =>
          if saved.position.None? || saved.pending.Some? {
            return false;
          }
        case Cooldown =>
          if saved.cooldownUntil.None? || saved.position.Some? || saved.pending.Some? {
            return false;
          }
      }
      state := saved;
      return true;
    }

    method Enter(position: PositionSnapshot, now: int) returns (ok: bool)
      modifies this
      ensures var t := Entered(old(state), position, now);
              ok == t.Done? && state == if t.Done? then t.state else old(state)
    {
      if state.status != Flat {
        return false;
      }
      if state.cooldownUntil.Some? && now < state.cooldownUntil.value {
        return false;
      }
      state := state.(status := InPosition);
      state := state.(position := Some(position));
      state := state.(pending := None);
      state := state.(cooldownUntil := None);
      return true;
    }

    method EnterPending(pending: PendingEntrySnapshot) returns (ok: bool)
      modifies this
      ensures var t := EnteredPending(old(state), pending);
              ok == t.Done? && state == if t.Done? then t.state else old(state)
    {
      if state.status != Flat {
        return false;
      }
      if state.cooldownUntil.Some? && pending.submittedAt < state.cooldownUntil.value {
        return false;
      }
      state := state.(status := PendingEntry);
      state := state.(position := None);
      state := state.(pending := Some(pending));
      state := state.(cooldownUntil := None);
      return true;
    }

    method ConfirmPendingEntry(position: PositionSnapshot) returns (ok: bool)
      modifies this
      ensures var t := Confirmed(old(state), position);
              ok == t.Done? && state == if t.Done? then t.state else old(state)
    {
      if state.status != PendingEntry {
        return false;
      }
      state := state.(status := InPosition);
      state := state.(position := Some(position));
      state := state.(pending := None);
      state := state.(cooldownUntil := None);
      return true;
    }

    method Exit(reason: ExitReason, now: int) returns (ok: bool)
      modifies this
      ensures var t := Exited(old(state), cooldownHours, reason, now);
              ok == t.Done? && state == if t.Done? then t.state else old(state)
    {
      if state.status != InPosition {
        return false;
      }
      if reason == StopLoss {
        state := state.(status := Cooldown);
        state := state.(cooldownUntil := Some(now + cooldownHours * 3600));
      } else {
        state := state.(status := Flat);
        state := state.(cooldownUntil := None);
      }
      state := state.(position := None);
      state := state.(pending := None);
      return true;
    }

    method Update(now: int)
      modifies this
      ensures state == Updated(old(state), now)
    {
      if state.status == Cooldown && state.cooldownUntil.Some? && now >= state.cooldownUntil.value {
        state := state.(status := Flat);
        state := state.(cooldownUntil := None);
      }
    }
  }

  method RecoverState(saved: StrategyState, now: int) returns (report: RecoveryReport)
    ensures report == Recovered(saved, now)
  {
    var state := saved;
    var repair, missing := false, false;
    if state.status == Cooldown && state.cooldownUntil.Some? && now >= state.cooldownUntil.value {
      state := state.(status := Flat);
      state := state.(pending := None);
      state := state.(cooldownUntil := None);
    }
    if state.status == InPosition {
      match state.position
      case None =>
        missing := true;
        state := state.(status := Flat);
        state := state.(position := None);
        state := state.(pending := None);
      case Some(position) =>
        if position.HasResidual() {
          repair := true;
        }
    }
    return RecoveryReport(state, repair, missing);
  }

  // ---- properties -----------------------------------------------------------------

  /** Recovery followed by the update of a bar equals the update alone, exactly for the states
      with no lost position and no stray pending order in an expired cooldown. */
  lemma RecoverThenUpdate(s: StrategyState, now: int, barTime: int)
    requires now <= barTime
    ensures Updated(Recovered(s, now).state, barTime) == Updated(s, barTime) <==>
            !(s.status == InPosition && s.position.None?)
            && !(s.status == Cooldown && s.cooldownUntil.Some? && now >= s.cooldownUntil.value && s.pending.Some?)
  {
    // The recovered status alone tells the two lost-payload cases apart.
    assert s.status == InPosition && s.position.None? ==> Recovered(s, now).state.status == Flat;
  }

  /** A well-formed state survives every transition, recovers to a well-formed state, and is
      accepted when hydrated. */
  lemma WellFormedIsClosed(s: StrategyState, cooldownHours: nat, now: int, reason: ExitReason,
                           position: PositionSnapshot, pending: PendingEntrySnapshot)
    requires WellFormed(s)
    ensures WellFormed(ForcedFlat(s)) && WellFormed(Updated(s, now))
    ensures WellFormed(Recovered(s, now).state) && Hydratable(Recovered(s, now).state)
    ensures !Recovered(s, now).missingPosition
    ensures Entered(s, position, now).Done? ==> WellFormed(Entered(s, position, now).state)
    ensures EnteredPending(s, pending).Done? ==> WellFormed(EnteredPending(s, pending).state)
    ensures Confirmed(s, position).Done? ==> WellFormed(Confirmed(s, position).state)
    ensures Exited(s, cooldownHours, reason, now).Done? ==> WellFormed(Exited(s, cooldownHours, reason, now).state)
    ensures s.status == Flat <==> Entered(s, position, now).Done?
    ensures s.status == Flat <==> EnteredPending(s, pending).Done?
    ensures s.status == PendingEntry <==> Confirmed(s, position).Done?
    ensures s.status == InPosition <==> Exited(s, cooldownHours, reason, now).Done?
  {
  }
}
