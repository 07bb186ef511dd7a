/** Entry and exit detectors: small machines fed one z-score a bar. */
module Signals {
  import opened Numbers
  import opened Trading
  import opened State

  const U32_MAX: nat := 0xFFFF_FFFF

  function SaturatingSucc(age: nat): nat {
    if age >= U32_MAX then U32_MAX else age + 1
  }

  // ---- entry ------------------------------------------------------------------------

  datatype EntryConfig = EntryConfig(
    entryZ: real, slZ: real, stale: StaleCrossConfig, extreme: PersistentExtremeConfig)
  {
    predicate InZone(z: real) {
      entryZ <= Abs(z) < slZ
    }

    predicate Allows(direction: TradeDirection) {
      match direction
      case LongEthShortBtc => extreme.allowLongEthShortBtc
      case ShortEthLongBtc => extreme.allowShortEthLongBtc
    }
  }

  function EntryConfigOf(cfg: Config): EntryConfig {
    EntryConfig(cfg.strategy.entryZ, cfg.strategy.slZ, cfg.staleCross, cfg.extreme)
  }

  datatype EntryState = EntryState(
    prevZ: Option<real>, lastStatus: Option<StrategyStatus>, recoveryAge: Option<nat>)

  const FRESH_ENTRY := EntryState(None, None, None)

  function NextAge(cfg: EntryConfig, s: EntryState, z: real, status: StrategyStatus): Option<nat> {
    if status == Flat && cfg.InZone(z) then
      if s.lastStatus == Some(Cooldown) then Some(1)
      else match s.recoveryAge case None => None case Some(age) => Some(SaturatingSucc(age))
    else None
  }

  /** The signal decision from the previous score and the recovery age. */
  function EntryDecision(cfg: EntryConfig, prevZ: Option<real>, age: Option<nat>, z: real,
                         status: StrategyStatus): Option<EntrySignal>
  {
    var crossed := prevZ.Some? && Abs(prevZ.value) < cfg.entryZ && cfg.InZone(z);
    var stale := cfg.stale.enabled && !crossed && cfg.InZone(z) && status == Flat && prevZ.Some?
                 && age.Some? && age.value <= cfg.stale.maxAgeBars
                 && (!cfg.stale.requireReverting || Abs(z) <= Abs(prevZ.value));
    var extreme := cfg.extreme.enabled && !crossed && !stale && status == Flat
                   && cfg.extreme.minAbsZ <= Abs(z) < cfg.slZ;
    if status != Flat || !(crossed || stale || extreme) then None
    else if extreme && !cfg.Allows(DirectionOf(z)) then None
    else Some(EntrySignal(DirectionOf(z), z))
  }

  function EntryStep(cfg: EntryConfig, s: EntryState, zscore: Option<real>, status: StrategyStatus)
    : (EntryState, Option<EntrySignal>)
  {
    match zscore
    case None => (EntryState(None, Some(status), None), None)
    case Some(z) =>
      var age := NextAge(cfg, s, z, status);
      (EntryState(zscore, Some(status), age), EntryDecision(cfg, s.prevZ, age, z, status))
  }

  class EntrySignalDetector {
    const cfg: EntryConfig
    var prevZ: Option<real>
    var lastStatus: Option<StrategyStatus>
    var cooldownRecoveryAge: Option<nat>

    ghost function View(): EntryState
      reads this
    {
      EntryState(prevZ, lastStatus, cooldownRecoveryAge)
    }

    constructor (cfg: EntryConfig)
      ensures this.cfg == cfg && View() == FRESH_ENTRY
    {
      this.cfg := cfg;
      prevZ := None;
      lastStatus := None;
      cooldownRecoveryAge := None;
    }

    method Update(zscore: Option<real>, status: StrategyStatus) returns (r: Option<EntrySignal>)
      modifies this
      ensures (View(), r) == EntryStep(cfg, old(View()), zscore, status)
    {
      if zscore.None? {
        prevZ := None;
        lastStatus := Some(status);
        cooldownRecoveryAge := None;
        return None;
      }
      var z := zscore.value;
      var absZ := Abs(z);
      var before := prevZ;
      var cooldownReleased := lastStatus == Some(Cooldown) && status == Flat;
      var crossedIntoZone := before.Some? && Abs(before.value) < cfg.entryZ
                             && absZ >= cfg.entryZ && absZ < cfg.slZ;
      var inEntryZone := absZ >= cfg.entryZ && absZ < cfg.slZ;
      var nextAge: Option<nat> := None;
      if status == Flat && inEntryZone {
        if cooldownReleased {
          nextAge := Some(1);
        } else if cooldownRecoveryAge.Some? {
          nextAge := Some(SaturatingSucc(cooldownRecoveryAge.value));
        }
      }
      var staleRecovery :=
        cfg.stale.enabled && !crossedIntoZone && inEntryZone && status == Flat && before.Some?
        && nextAge.Some? && nextAge.value <= cfg.stale.maxAgeBars
        && (!cfg.stale.requireReverting || absZ <= Abs(before.value));
      var extreme :=
        cfg.extreme.enabled && !crossedIntoZone && !staleRecovery && status == Flat
        && absZ >= cfg.extreme.minAbsZ && absZ < cfg.slZ;
      prevZ := Some(z);
      lastStatus := Some(status);
      cooldownRecoveryAge := nextAge;
      if status != Flat || (!crossedIntoZone && !staleRecovery && !extreme) {
        return None;
      }
      var direction := if z >= 0.0 then ShortEthLongBtc else LongEthShortBtc;
      if extreme && !cfg.Allows(direction) {
        return None;
      }
      return Some(EntrySignal(direction, z));
    }
  }

  // ---- exit -------------------------------------------------------------------------

  datatype ExitConfig = ExitConfig(tpZ: real, slZ: real, maxHoldHours: nat, confirmBarsTp: nat)

  function ExitConfigOf(cfg: Config): ExitConfig {
    ExitConfig(cfg.strategy.tpZ, cfg.strategy.slZ, cfg.risk.maxHoldHours, cfg.risk.confirmBarsTp)
  }

  /** Counter and signal of one evaluation. */
  function ExitStep(cfg: ExitConfig, tpCount: nat, zscore: Option<real>, status: StrategyStatus,
                    position: Option<PositionSnapshot>, now: int): (nat, Option<ExitSignal>)
  {
    if status != InPosition then (0, None)
    else if position.None? then (tpCount, None)
    else if zscore.None? then (0, None)
    else
      var z := zscore.value;
      if Abs(z) >= cfg.slZ then (0, Some(ExitSignal(StopLoss, z)))
      else
        var count := if Abs(z) <= cfg.tpZ then tpCount + 1 else 0;
        if Abs(z) <= cfg.tpZ && count >= cfg.confirmBarsTp then (0, Some(ExitSignal(TakeProfit, z)))
        else if position.value.HoldingHours(now) >= cfg.maxHoldHours then (count, Some(ExitSignal(TimeStop, z)))
        else (count, None)
  }

  class ExitSignalDetector {
    const cfg: ExitConfig
    var tpCount: nat

    constructor (cfg: ExitConfig)
      ensures this.cfg == cfg && tpCount == 0
    {
      this.cfg := cfg;
      tpCount := 0;
    }

    method Evaluate(zscore: Option<real>, status: StrategyStatus, position: Option<PositionSnapshot>, now: int)
      returns (r: Option<ExitSignal>)
      modifies this
      ensures (tpCount, r) == ExitStep(cfg, old(tpCount), zscore, status, position, now)
    {
      if status != InPosition {
        tpCount := 0;
        return None;
      }
      if position.None? {
        return None;
      }
      if zscore.None? {
        tpCount := 0;
        return None;
      }
      var z := zscore.value;
      var absZ := Abs(z);
      if absZ >= cfg.slZ {
        tpCount := 0;
        return Some(ExitSignal(StopLoss, z));
      }
      if absZ <= cfg.tpZ {
        if cfg.confirmBarsTp == 0 {
          tpCount := 0;
          return Some(ExitSignal(TakeProfit, z));
        }
        tpCount := tpCount + 1;
        if tpCount >= cfg.confirmBarsTp {
          tpCount := 0;
          return Some(ExitSignal(TakeProfit, z));
        }
      } else {
        tpCount := 0;
      }
      if position.value.HoldingHours(now) >= cfg.maxHoldHours {
        return Some(ExitSignal(TimeStop, z));
      }
      return None;
    }
  }

  // ---- traces -----------------------------------------------------------------------

  /** One bar as both detectors see it. */
  datatype Tick = Tick(zscore: Option<real>, status: StrategyStatus, position: Option<PositionSnapshot>, time: int)

  function EntryAfter(cfg: EntryConfig, trace: seq<Tick>): EntryState {
    if |trace| == 0 then FRESH_ENTRY
    else
      var last := trace[|trace| - 1];
      EntryStep(cfg, EntryAfter(cfg, trace[..|trace| - 1]), last.zscore, last.status).0
  }

  /** The signal given on the last bar of the trace. */
  function EntrySignalAt(cfg: EntryConfig, trace: seq<Tick>): Option<EntrySignal>
    requires |trace| > 0
  {
    var last := trace[|trace| - 1];
    EntryStep(cfg, EntryAfter(cfg, trace[..|trace| - 1]), last.zscore, last.status).1
  }

  predicate FlatInZone(cfg: EntryConfig, tick: Tick) {
    tick.status == Flat && tick.zscore.Some? && cfg.InZone(tick.zscore.value)
  }

  /** The last `k` bars were flat and in the zone and the bar before them was in cooldown. */
  ghost predicate RecoveredFor(cfg: EntryConfig, trace: seq<Tick>, k: nat) {
    && 1 <= k < |trace|
    && (forall i :: |trace| - k <= i < |trace| ==> FlatInZone(cfg, trace[i]))
    && trace[|trace| - k - 1].status == Cooldown
  }

  function Saturated(k: nat): nat {
    if k <= U32_MAX then k else U32_MAX
  }

  /** The recovery age counts the flat in-zone bars since the cooldown ended, and is absent
      otherwise. */
  lemma {:induction false} RecoveryAgeIsTracePredicate(cfg: EntryConfig, trace: seq<Tick>)
    ensures EntryAfter(cfg, trace).recoveryAge.Some? <==> exists k: nat :: RecoveredFor(cfg, trace, k)
    ensures forall k: nat :: RecoveredFor(cfg, trace, k) ==>
              EntryAfter(cfg, trace).recoveryAge == Some(Saturated(k))
  {
    if |trace| == 0 {
      return;
    }
    var init, last := trace[..|trace| - 1], trace[|trace| - 1];
    RecoveryAgeIsTracePredicate(cfg, init);
    LastTick(cfg, trace);
    forall k: nat | RecoveredFor(cfg, trace, k)
      ensures EntryAfter(cfg, trace).recoveryAge == Some(Saturated(k))
    {
      assert FlatInZone(cfg, trace[|trace| - 1]);
      if k > 1 {
        assert trace[|trace| - 2] == init[|init| - 1] && FlatInZone(cfg, trace[|trace| - 2]);
        assert RecoveredFor(cfg, init, k - 1);
      }
    }
    if EntryAfter(cfg, trace).recoveryAge.Some? {
      if EntryAfter(cfg, init).lastStatus == Some(Cooldown) {
        assert RecoveredFor(cfg, trace, 1);
      } else {
        var k: nat :| RecoveredFor(cfg, init, k);
        assert RecoveredFor(cfg, trace, k + 1);
      }
    }
  }

  /** The remembered score and status are those of the last bar. */
  lemma LastTick(cfg: EntryConfig, trace: seq<Tick>)
    requires |trace| > 0
    ensures EntryAfter(cfg, trace).lastStatus == Some(trace[|trace| - 1].status)
    ensures EntryAfter(cfg, trace).prevZ == trace[|trace| - 1].zscore
    ensures |trace| > 1 ==>
              EntryAfter(cfg, trace[..|trace| - 1]).lastStatus == Some(trace[|trace| - 2].status)
    ensures |trace| > 1 ==> EntryAfter(cfg, trace[..|trace| - 1]).prevZ == trace[|trace| - 2].zscore
  {
  }

  /** The bar crosses into the entry zone from below. */
  ghost predicate CrossesIn(cfg: EntryConfig, trace: seq<Tick>) {
    && |trace| >= 2
    && trace[|trace| - 2].zscore.Some? && trace[|trace| - 1].zscore.Some?
    && Abs(trace[|trace| - 2].zscore.value) < cfg.entryZ
    && cfg.InZone(trace[|trace| - 1].zscore.value)
  }

  /** A recent cooldown ended, the score is still in the zone and (if so configured) reverting. */
  ghost predicate RecoversStaleCross(cfg: EntryConfig, trace: seq<Tick>) {
    && cfg.stale.enabled && |trace| >= 2
    && trace[|trace| - 2].zscore.Some? && trace[|trace| - 1].zscore.Some?
    && (exists k: nat :: RecoveredFor(cfg, trace, k) && Saturated(k) <= cfg.stale.maxAgeBars)
    && (cfg.stale.requireReverting ==>
          Abs(trace[|trace| - 1].zscore.value) <= Abs(trace[|trace| - 2].zscore.value))
  }

  ghost predicate IsPersistentExtreme(cfg: EntryConfig, trace: seq<Tick>) {
    && cfg.extreme.enabled && |trace| >= 1
    && trace[|trace| - 1].zscore.Some?
    && cfg.extreme.minAbsZ <= Abs(trace[|trace| - 1].zscore.value) < cfg.slZ
    && (if trace[|trace| - 1].zscore.value >= 0.0 then cfg.extreme.allowShortEthLongBtc else cfg.extreme.allowLongEthShortBtc)
  }

  /** An entry signal is given exactly on flat bars that cross, recover or are extreme; it bets against
      the score: on ETH falling when it is dear, on ETH rising when it is cheap. */
  lemma EntrySignalIsTracePredicate(cfg: EntryConfig, trace: seq<Tick>)
    requires |trace| > 0
    ensures var last := trace[|trace| - 1];
            EntrySignalAt(cfg, trace).Some? <==>
              last.status == Flat
              && (CrossesIn(cfg, trace) || RecoversStaleCross(cfg, trace) || IsPersistentExtreme(cfg, trace))
    ensures var last := trace[|trace| - 1];
            EntrySignalAt(cfg, trace).Some? ==>
              last.zscore == Some(EntrySignalAt(cfg, trace).value.zscore)
              && (last.zscore.value >= 0.0 <==> EntrySignalAt(cfg, trace).value.direction == ShortEthLongBtc)
  {
    var last := trace[|trace| - 1];
    LastTick(cfg, trace);
    RecoveryAgeIsTracePredicate(cfg, trace);
    if last.zscore.Some? && EntryAfter(cfg, trace).recoveryAge.Some? {
      var k: nat :| RecoveredFor(cfg, trace, k);
      assert FlatInZone(cfg, trace[|trace| - 1]);
    }
  }

  // ---- exit traces --------------------------------------------------------------------

  function ExitAfter(cfg: ExitConfig, trace: seq<Tick>): nat {
    if |trace| == 0 then 0
    else
      var last := trace[|trace| - 1];
      ExitStep(cfg, ExitAfter(cfg, trace[..|trace| - 1]), last.zscore, last.status, last.position, last.time).0
  }

  function ExitSignalAt(cfg: ExitConfig, trace: seq<Tick>): Option<ExitSignal>
    requires |trace| > 0
  {
    var last := trace[|trace| - 1];
    ExitStep(cfg, ExitAfter(cfg, trace[..|trace| - 1]), last.zscore, last.status, last.position, last.time).1
  }

  predicate InTakeProfitZone(cfg: ExitConfig, tick: Tick) {
    tick.status == InPosition && tick.zscore.Some?
    && Abs(tick.zscore.value) <= cfg.tpZ && Abs(tick.zscore.value) < cfg.slZ
  }

  /** Length of the longest suffix of bars in position and in the take-profit zone. */
  function Streak(cfg: ExitConfig, trace: seq<Tick>): (n: nat)
    ensures n <= |trace|
    ensures forall i :: |trace| - n <= i < |trace| ==> InTakeProfitZone(cfg, trace[i])
    ensures n < |trace| ==> !InTakeProfitZone(cfg, trace[|trace| - n - 1])
  {
    if |trace| == 0 || !InTakeProfitZone(cfg, trace[|trace| - 1]) then 0
    else Streak(cfg, trace[..|trace| - 1]) + 1
  }

  ghost predicate PositionsCarried(trace: seq<Tick>) {
    forall i :: 0 <= i < |trace| ==> (trace[i].status == InPosition ==> trace[i].position.Some?)
  }

  lemma ScaledAway(d: int, c: nat)
    requires c >= 1
    ensures d >= 1 ==> d * c >= c
    ensures d <= -1 ==> d * c + c <= 0
  {
  }

  lemma ModUnique(n: int, c: nat, q: int, r: nat)
    requires c >= 1 && r < c && n == q * c + r
    ensures n % c == r
  {
    ScaledAway(n / c - q, c);
    assert (n / c - q) * c == r - n % c;
  }

  /** The counter after one more bar of a streak. */
  function Wrapped(count: nat, c: nat): nat {
    if count + 1 == c then 0 else count + 1
  }

  lemma ModSucc(n: nat, c: nat)
    requires c >= 1
    ensures (n + 1) % c == Wrapped(n % c, c)
  {
    var q, r := n / c, n % c;
    if r + 1 == c {
      ModUnique(n + 1, c, q + 1, 0);
    } else {
      ModUnique(n + 1, c, q, r + 1);
    }
  }

  lemma CounterStep(cfg: ExitConfig, count: nat, tick: Tick)
    requires count < cfg.confirmBarsTp && (tick.status == InPosition ==> tick.position.Some?)
    ensures var step := ExitStep(cfg, count, tick.zscore, tick.status, tick.position, tick.time);
            && step.0 == (if InTakeProfitZone(cfg, tick) then Wrapped(count, cfg.confirmBarsTp) else 0)
            && (step.1.Some? && step.1.value.reason == TakeProfit <==>
                  InTakeProfitZone(cfg, tick) && step.0 == 0)
  {
  }

  /** With confirmation over c bars, the counter is the streak length modulo c. */
  lemma {:induction false} TakeProfitCounter(cfg: ExitConfig, trace: seq<Tick>)
    requires cfg.confirmBarsTp >= 1 && PositionsCarried(trace)
    ensures ExitAfter(cfg, trace) == Streak(cfg, trace) % cfg.confirmBarsTp
  {
    if |trace| == 0 {
      ModUnique(0, cfg.confirmBarsTp, 0, 0);
    } else {
      var init, last := trace[..|trace| - 1], trace[|trace| - 1];
      TakeProfitCounter(cfg, init);
      CounterStep(cfg, ExitAfter(cfg, init), last);
      ModSucc(Streak(cfg, init), cfg.confirmBarsTp);
      ModUnique(0, cfg.confirmBarsTp, 0, 0);
    }
  }

  /** Take-profit after c bars of a streak, again after every c more; at once for c = 0. */
  predicate Fires(cfg: ExitConfig, trace: seq<Tick>) {
    Streak(cfg, trace) > 0 && (cfg.confirmBarsTp == 0 || Streak(cfg, trace) % cfg.confirmBarsTp == 0)
  }

  lemma FiresOnCount(cfg: ExitConfig, trace: seq<Tick>)
    requires PositionsCarried(trace) && |trace| > 0
    ensures ExitSignalAt(cfg, trace).Some? && ExitSignalAt(cfg, trace).value.reason == TakeProfit <==> Fires(cfg, trace)
  {
    if cfg.confirmBarsTp > 0 {
      var init, last := trace[..|trace| - 1], trace[|trace| - 1];
      TakeProfitCounter(cfg, init);
      TakeProfitCounter(cfg, trace);
      CounterStep(cfg, ExitAfter(cfg, init), last);
    }
  }

  /** Take-profit fires exactly when the streak length is a positive multiple of c, or on every bar
      of a streak without confirmation; stop-loss exactly beyond its threshold; the time stop exactly
      on what is left. */
  lemma ExitSignalIsTracePredicate(cfg: ExitConfig, trace: seq<Tick>)
    requires PositionsCarried(trace) && |trace| > 0
    ensures var last := trace[|trace| - 1];
            var signal := ExitSignalAt(cfg, trace);
            var active := last.status == InPosition && last.zscore.Some?;
            && (signal.Some? && signal.value.reason == TakeProfit <==> Fires(cfg, trace))
            && (signal.Some? && signal.value.reason == StopLoss <==> active && Abs(last.zscore.value) >= cfg.slZ)
            && (signal.Some? && signal.value.reason == TimeStop <==>
                  active && Abs(last.zscore.value) < cfg.slZ && !Fires(cfg, trace)
                  && last.position.value.HoldingHours(last.time) >= cfg.maxHoldHours)
  {
    FiresOnCount(cfg, trace);
  }

  /** No bar gives both an entry and an exit signal. */
  lemma SignalsExclusive(entryCfg: EntryConfig, exitCfg: ExitConfig, entry: EntryState, tpCount: nat,
                         zscore: Option<real>, status: StrategyStatus, position: Option<PositionSnapshot>, now: int)
    ensures EntryStep(entryCfg, entry, zscore, status).1.None?
            || ExitStep(exitCfg, tpCount, zscore, status, position, now).1.None?
  {
  }
}
