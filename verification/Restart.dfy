/** A warmed-up pipeline forgets its past: what restarts and warm-up replays rely on. */
module Restart {
  import opened Numbers
  import opened Trading
  import opened State
  import opened Indicators
  import opened Signals
  import opened Pipeline

  /** Number of sigma values the floor looks at. */
  function FloorMemory(cfg: SigmaFloorConfig): (r: nat)
    ensures r > 0
  {
    if cfg.mode == Const then 1 else SigmaCapacity(cfg)
  }

  /** Bars after which nothing older can influence an output. */
  function Memory(cfg: Config): nat
    requires cfg.strategy.nZ > 0
  {
    MaxNat(cfg.strategy.nZ + FloorMemory(cfg.sigmaFloor) - 1, cfg.position.nVol)
  }

  function MinNat(x: nat, y: nat): nat {
    if x < y then x else y
  }

  /** The last `k` elements. */
  function Tail<T>(a: seq<T>, k: nat): seq<T>
    requires k <= |a|
  {
    a[|a| - k..]
  }

  ghost predicate TailAgree<T>(a: seq<T>, b: seq<T>, k: nat) {
    k <= |a| && k <= |b| && Tail(a, k) == Tail(b, k)
  }

  lemma TailOfPush<T>(a: seq<T>, capacity: nat, v: T, k: nat)
    requires 0 < capacity && |a| <= capacity && k < capacity && k <= |a|
    ensures k + 1 <= |Push(a, capacity, v)| && Tail(Push(a, capacity, v), k + 1) == Tail(a, k) + [v]
  {
    if |a| == capacity {
      assert Tail(a[1..] + [v], k + 1) == Tail(a[1..], k) + [v];
    } else {
      assert Tail(a + [v], k + 1) == Tail(a, k) + [v];
    }
  }

  lemma ShorterTail<T>(a: seq<T>, b: seq<T>, k: nat, i: nat)
    requires TailAgree(a, b, k) && i <= k
    ensures TailAgree(a, b, i)
  {
    assert Tail(a, i) == Tail(Tail(a, k), i);
    assert Tail(b, i) == Tail(Tail(b, k), i);
  }

  lemma WholeTail<T>(a: seq<T>, b: seq<T>, capacity: nat)
    requires |a| <= capacity && |b| <= capacity && TailAgree(a, b, capacity)
    ensures a == b
  {
  }

  /** One shared value more; once a whole window is shared the windows are equal. */
  lemma PushAgree<T>(a: seq<T>, b: seq<T>, capacity: nat, v: T, k: nat)
    requires 0 < capacity && |a| <= capacity && |b| <= capacity && TailAgree(a, b, k)
    ensures TailAgree(Push(a, capacity, v), Push(b, capacity, v), MinNat(k + 1, capacity))
    ensures k + 1 >= capacity ==> Push(a, capacity, v) == Push(b, capacity, v)
  {
    var i := MinNat(k + 1, capacity) - 1;
    ShorterTail(a, b, k, i);
    TailOfPush(a, capacity, v, i);
    TailOfPush(b, capacity, v, i);
    if k + 1 >= capacity {
      WholeTail(Push(a, capacity, v), Push(b, capacity, v), capacity);
    }
  }

  lemma PushAgreeAt<T>(a: seq<T>, b: seq<T>, capacity: nat, v: T, k: nat, k': nat)
    requires 0 < capacity && |a| <= capacity && |b| <= capacity && TailAgree(a, b, k) && k' == MinNat(k + 1, capacity)
    ensures TailAgree(Push(a, capacity, v), Push(b, capacity, v), k')
    ensures k' == capacity ==> Push(a, capacity, v) == Push(b, capacity, v)
  {
    PushAgree(a, b, capacity, v, k);
  }

  lemma NothingAgrees<T>(a: seq<T>, b: seq<T>)
    ensures TailAgree(a, b, 0)
  {
  }

  function SharedSigmas(cfg: Config, j: nat): nat
    requires cfg.strategy.nZ > 0
  {
    if j < cfg.strategy.nZ then 0 else MinNat(j - cfg.strategy.nZ + 1, SigmaCapacity(cfg.sigmaFloor))
  }

  ghost predicate SharedZ(cfg: Config, j: nat, p: ZState, q: ZState)
    requires cfg.strategy.nZ > 0
  {
    && TailAgree(p.window, q.window, MinNat(j, cfg.strategy.nZ))
    && TailAgree(p.sigmas, q.sigmas, SharedSigmas(cfg, j))
  }

  ghost predicate SharedVol(cfg: Config, j: nat, p: VolState, q: VolState) {
    j >= 1 ==>
      && p.lastEth == q.lastEth && p.lastBtc == q.lastBtc && p.lastEth.Some? && p.lastBtc.Some?
      && TailAgree(p.eth, q.eth, MinNat(j - 1, cfg.position.nVol))
      && TailAgree(p.btc, q.btc, MinNat(j - 1, cfg.position.nVol))
  }

  /** What two pipelines have in common after `j` bars of the same prices. */
  ghost predicate Shared(cfg: Config, j: nat, p: PipelineState, q: PipelineState)
    requires cfg.strategy.nZ > 0
  {
    && SharedZ(cfg, j, p.z, q.z) && SharedVol(cfg, j, p.vol, q.vol)
    && (j >= cfg.strategy.nZ + FloorMemory(cfg.sigmaFloor) - 1 ==> p.entry.prevZ == q.entry.prevZ)
  }

  /** A constant floor does not look at the sigma history. */
  lemma ConstIgnoresHistory(m: Maths, cfg: SigmaFloorConfig, window: seq<real>, s1: seq<real>, s2: seq<real>, r: real)
    requires |window| > 0 && 0.0 < cfg.quantileP <= 1.0 && cfg.mode == Const
    ensures ZFull(m, cfg, window, s1, r) == ZFull(m, cfg, window, s2, r)
  {
  }

  lemma ZStepPartial(m: Maths, cfg: Config, j: nat, p: ZState, q: ZState, r: real)
    requires cfg.IndicatorsValid() && SharedZ(cfg, j, p, q) && j + 1 < cfg.strategy.nZ
    requires |p.window| <= cfg.strategy.nZ && |q.window| <= cfg.strategy.nZ
    ensures SharedZ(cfg, j + 1, ZStep(m, cfg.strategy.nZ, cfg.sigmaFloor, p, r).0,
                    ZStep(m, cfg.strategy.nZ, cfg.sigmaFloor, q, r).0)
  {
    PushAgree(p.window, q.window, cfg.strategy.nZ, r, j);
  }

  lemma WindowShared(nZ: nat, j: nat, a: seq<real>, b: seq<real>, r: real)
    requires 0 < nZ <= j + 1 && |a| <= nZ && |b| <= nZ && TailAgree(a, b, MinNat(j, nZ))
    ensures |Push(a, nZ, r)| == nZ && Push(b, nZ, r) == Push(a, nZ, r)
  {
    PushAgree(a, b, nZ, r, MinNat(j, nZ));
  }

  lemma SigmasShared(cfg: Config, j: nat, a: seq<real>, b: seq<real>, sigma: real)
    requires cfg.strategy.nZ > 0 && j + 1 >= cfg.strategy.nZ && TailAgree(a, b, SharedSigmas(cfg, j))
    requires |a| <= SigmaCapacity(cfg.sigmaFloor) && |b| <= SigmaCapacity(cfg.sigmaFloor)
    ensures TailAgree(Push(a, SigmaCapacity(cfg.sigmaFloor), sigma), Push(b, SigmaCapacity(cfg.sigmaFloor), sigma),
                      SharedSigmas(cfg, j + 1))
    ensures SharedSigmas(cfg, j + 1) == SigmaCapacity(cfg.sigmaFloor) ==>
              Push(a, SigmaCapacity(cfg.sigmaFloor), sigma) == Push(b, SigmaCapacity(cfg.sigmaFloor), sigma)
  {
    PushAgreeAt(a, b, SigmaCapacity(cfg.sigmaFloor), sigma, SharedSigmas(cfg, j), SharedSigmas(cfg, j + 1));
  }

  lemma ZStepShared(m: Maths, cfg: Config, j: nat, p: ZState, q: ZState, r: real)
    requires cfg.IndicatorsValid() && SharedZ(cfg, j, p, q)
    requires |p.window| <= cfg.strategy.nZ && |q.window| <= cfg.strategy.nZ
    requires |p.sigmas| <= SigmaCapacity(cfg.sigmaFloor) && |q.sigmas| <= SigmaCapacity(cfg.sigmaFloor)
    ensures SharedZ(cfg, j + 1, ZStep(m, cfg.strategy.nZ, cfg.sigmaFloor, p, r).0,
                    ZStep(m, cfg.strategy.nZ, cfg.sigmaFloor, q, r).0)
    ensures j + 1 >= cfg.strategy.nZ + FloorMemory(cfg.sigmaFloor) - 1 ==>
              ZStep(m, cfg.strategy.nZ, cfg.sigmaFloor, p, r).1
              == ZStep(m, cfg.strategy.nZ, cfg.sigmaFloor, q, r).1
  {
    if j + 1 < cfg.strategy.nZ {
      ZStepPartial(m, cfg, j, p, q, r);
    } else {
      WindowShared(cfg.strategy.nZ, j, p.window, q.window, r);
      var window, capacity := Push(p.window, cfg.strategy.nZ, r), SigmaCapacity(cfg.sigmaFloor);
      SigmasShared(cfg, j, p.sigmas, q.sigmas, Std(m, window));
      if cfg.sigmaFloor.mode == Const {
        ConstIgnoresHistory(m, cfg.sigmaFloor, window, Push(p.sigmas, capacity, Std(m, window)),
                            Push(q.sigmas, capacity, Std(m, window)), r);
      }
    }
  }

  lemma VolStepShared(m: Maths, cfg: Config, j: nat, p: VolState, q: VolState, eth: real, btc: real)
    requires cfg.IndicatorsValid() && SharedVol(cfg, j, p, q)
    requires VolSound(p) && VolSound(q) && eth > 0.0 && btc > 0.0
    requires |p.eth| <= cfg.position.nVol && |p.btc| <= cfg.position.nVol
    requires |q.eth| <= cfg.position.nVol && |q.btc| <= cfg.position.nVol
    ensures VolStep(m, cfg.position.nVol, p, eth, btc).Some? && VolStep(m, cfg.position.nVol, q, eth, btc).Some?
    ensures SharedVol(cfg, j + 1, VolStep(m, cfg.position.nVol, p, eth, btc).value.0,
                      VolStep(m, cfg.position.nVol, q, eth, btc).value.0)
    ensures j >= cfg.position.nVol ==>
              VolStep(m, cfg.position.nVol, p, eth, btc).value.1
              == VolStep(m, cfg.position.nVol, q, eth, btc).value.1
  {
    var n := cfg.position.nVol;
    ReturnsShared(m, n, j, p.eth, q.eth, p.lastEth, q.lastEth, eth);
    ReturnsShared(m, n, j, p.btc, q.btc, p.lastBtc, q.lastBtc, btc);
  }

  lemma ReturnsShared(m: Maths, n: nat, j: nat, a: seq<real>, b: seq<real>,
                      lastA: Option<real>, lastB: Option<real>, price: real)
    requires n > 0 && |a| <= n && |b| <= n && price > 0.0
    requires lastA.Some? ==> lastA.value > 0.0
    requires lastB.Some? ==> lastB.value > 0.0
    requires j >= 1 ==> lastA == lastB && lastA.Some? && TailAgree(a, b, MinNat(j - 1, n))
    ensures PushReturn(m, n, a, lastA, price).Some? && PushReturn(m, n, b, lastB, price).Some?
    ensures var a', b' := PushReturn(m, n, a, lastA, price).value, PushReturn(m, n, b, lastB, price).value;
            TailAgree(a', b', MinNat(j, n)) && (j >= n ==> a' == b')
  {
    if j >= 1 {
      ReturnPushed(m, n, a, lastA.value, price);
      ReturnPushed(m, n, b, lastA.value, price);
      PushAgreeAt(a, b, n, LogReturn(m, price, lastA.value).value, MinNat(j - 1, n), MinNat(j, n));
    } else {
      NothingAgrees(PushReturn(m, n, a, lastA, price).value, PushReturn(m, n, b, lastB, price).value);
    }
  }

  lemma ReturnPushed(m: Maths, n: nat, w: seq<real>, last: real, price: real)
    requires n > 0 && price > 0.0 && last > 0.0
    ensures LogReturn(m, price, last).Some?
    ensures PushReturn(m, n, w, Some(last), price) == Some(Push(w, n, LogReturn(m, price, last).value))
  {
  }

  ghost predicate SamePrices(a: PriceTick, b: PriceTick) {
    a.eth == b.eth && a.btc == b.btc && a.eth > 0.0 && a.btc > 0.0
  }

  /** The parts of an update at positive prices. */
  lemma StepParts(m: Maths, cfg: Config, s: PipelineState, tick: PriceTick)
    requires cfg.IndicatorsValid() && VolSound(s.vol) && tick.eth > 0.0 && tick.btc > 0.0
    ensures RelativePrice(m, tick.eth, tick.btc).Some? && VolStep(m, cfg.position.nVol, s.vol, tick.eth, tick.btc).Some?
    ensures var r := RelativePrice(m, tick.eth, tick.btc).value;
            var z := ZStep(m, cfg.strategy.nZ, cfg.sigmaFloor, s.z, r);
            var vol := VolStep(m, cfg.position.nVol, s.vol, tick.eth, tick.btc).value;
            var step := PipelineStep(m, cfg, s, tick);
            && step.0.z == z.0 && step.0.vol == vol.0 && step.0.entry.prevZ == z.1.zscore
            && step.1 == Some(SignalOutput(r, z.1, vol.1,
                 EntryStep(EntryConfigOf(cfg), s.entry, z.1.zscore, tick.status).1,
                 ExitStep(ExitConfigOf(cfg), s.tpCount, z.1.zscore, tick.status, tick.position, tick.time).1))
  {
  }

  lemma StepShared(m: Maths, cfg: Config, j: nat, p: PipelineState, q: PipelineState, a: PriceTick, b: PriceTick)
    requires cfg.IndicatorsValid() && Sound(cfg, p) && Sound(cfg, q) && Shared(cfg, j, p, q)
    requires SamePrices(a, b)
    ensures Shared(cfg, j + 1, PipelineStep(m, cfg, p, a).0, PipelineStep(m, cfg, q, b).0)
  {
    StepParts(m, cfg, p, a);
    StepParts(m, cfg, q, b);
    ZStepShared(m, cfg, j, p.z, q.z, RelativePrice(m, a.eth, a.btc).value);
    VolStepShared(m, cfg, j, p.vol, q.vol, a.eth, a.btc);
  }

  lemma {:induction false} RunShared(m: Maths, cfg: Config, p: PipelineState, q: PipelineState,
                                     a: seq<PriceTick>, b: seq<PriceTick>)
    requires cfg.IndicatorsValid() && Sound(cfg, p) && Sound(cfg, q)
    requires |a| == |b| && forall i :: 0 <= i < |a| ==> SamePrices(a[i], b[i])
    ensures Shared(cfg, |a|, PipelineAfter(m, cfg, p, a), PipelineAfter(m, cfg, q, b))
  {
    if |a| > 0 {
      var a', b' := a[..|a| - 1], b[..|b| - 1];
      RunShared(m, cfg, p, q, a', b');
      RunKeepsSound(m, cfg, p, a');
      RunKeepsSound(m, cfg, q, b');
      StepShared(m, cfg, |a'|, PipelineAfter(m, cfg, p, a'), PipelineAfter(m, cfg, q, b'), a[|a| - 1], b[|b| - 1]);
    }
  }

  /** The recovery ages agree, as far as the settings use them. */
  predicate AgesAgree(cfg: Config, a: EntryState, b: EntryState) {
    cfg.staleCross.enabled ==> a.lastStatus == b.lastStatus && a.recoveryAge == b.recoveryAge
  }

  /** The confirmation counts agree, as far as the settings use them. */
  predicate CountsAgree(cfg: Config, a: nat, b: nat) {
    cfg.risk.confirmBarsTp > 1 ==> a == b
  }

  /** With the same previous score the detectors decide alike, each as long as its counter agrees. */
  lemma DetectorsForget(cfg: Config, e1: EntryState, e2: EntryState, c1: nat, c2: nat, zscore: Option<real>, tick: PriceTick)
    requires e1.prevZ == e2.prevZ
    ensures AgesAgree(cfg, e1, e2) ==>
              EntryStep(EntryConfigOf(cfg), e1, zscore, tick.status).1 == EntryStep(EntryConfigOf(cfg), e2, zscore, tick.status).1
    ensures CountsAgree(cfg, c1, c2) ==>
              ExitStep(ExitConfigOf(cfg), c1, zscore, tick.status, tick.position, tick.time).1
              == ExitStep(ExitConfigOf(cfg), c2, zscore, tick.status, tick.position, tick.time).1
  {
  }

  /** The counters start again at any bar that is not flat, or not in position: from there they agree
      in any two pipelines that were shown the same status. */
  lemma StatusResets(m: Maths, cfg: Config, p: PipelineState, q: PipelineState, a: PriceTick, b: PriceTick)
    requires cfg.IndicatorsValid() && Sound(cfg, p) && Sound(cfg, q) && SamePrices(a, b) && a.status == b.status
    ensures var p', q' := PipelineStep(m, cfg, p, a).0, PipelineStep(m, cfg, q, b).0;
            && (a.status != Flat ==> AgesAgree(cfg, p'.entry, q'.entry))
            && (a.status != InPosition ==> CountsAgree(cfg, p'.tpCount, q'.tpCount))
  {
    StepKeepsSound(m, cfg, p, a);
    StepKeepsSound(m, cfg, q, b);
  }

  /** Otherwise they matter: with two confirmation bars one counted bar decides the next. */
  lemma CountMatters(cfg: Config, z: real, position: PositionSnapshot, now: int)
    requires cfg.risk.confirmBarsTp == 2 && Abs(z) <= cfg.strategy.tpZ && Abs(z) < cfg.strategy.slZ
    requires position.HoldingHours(now) < cfg.risk.maxHoldHours
    ensures ExitStep(ExitConfigOf(cfg), 0, Some(z), InPosition, Some(position), now).1 == None
    ensures ExitStep(ExitConfigOf(cfg), 1, Some(z), InPosition, Some(position), now).1 == Some(ExitSignal(TakeProfit, z))
  {
  }

  /** The same score and volatilities, and the same signals as far as the counters agree. */
  ghost predicate DecideAlike(m: Maths, cfg: Config, p: PipelineState, q: PipelineState, next: PriceTick)
    requires cfg.IndicatorsValid()
  {
    match (PipelineStep(m, cfg, p, next).1, PipelineStep(m, cfg, q, next).1)
    case (None, None) => true
    case (Some(x), Some(y)) =>
      && x.r == y.r && x.z == y.z && x.vol == y.vol
      && (AgesAgree(cfg, p.entry, q.entry) ==> x.entry == y.entry)
      && (CountsAgree(cfg, p.tpCount, q.tpCount) ==> x.exit == y.exit)
    case _ => false
  }

  /** Two pipelines with arbitrary different pasts that saw the same last `Memory` prices, under
      whatever statuses, decide alike on the next bar. */
  lemma RestartTransparent(m: Maths, cfg: Config, p: PipelineState, q: PipelineState,
                           a: seq<PriceTick>, b: seq<PriceTick>, next: PriceTick)
    requires cfg.IndicatorsValid() && Sound(cfg, p) && Sound(cfg, q)
    requires |a| == |b| >= Memory(cfg) && forall i :: 0 <= i < |a| ==> SamePrices(a[i], b[i])
    ensures DecideAlike(m, cfg, PipelineAfter(m, cfg, p, a), PipelineAfter(m, cfg, q, b), next)
  {
    RunShared(m, cfg, p, q, a, b);
    RunKeepsSound(m, cfg, p, a);
    RunKeepsSound(m, cfg, q, b);
    NextOutputShared(m, cfg, |a|, PipelineAfter(m, cfg, p, a), PipelineAfter(m, cfg, q, b), next);
  }

  /** With a constant floor the longer of the two windows is enough. */
  lemma ConstFloorTransparent(m: Maths, cfg: Config, p: PipelineState, q: PipelineState,
                              a: seq<PriceTick>, b: seq<PriceTick>, next: PriceTick)
    requires cfg.IndicatorsValid() && Sound(cfg, p) && Sound(cfg, q) && cfg.sigmaFloor.mode == Const
    requires |a| == |b| >= MaxNat(cfg.strategy.nZ, cfg.position.nVol)
    requires forall i :: 0 <= i < |a| ==> SamePrices(a[i], b[i])
    ensures DecideAlike(m, cfg, PipelineAfter(m, cfg, p, a), PipelineAfter(m, cfg, q, b), next)
  {
    RestartTransparent(m, cfg, p, q, a, b, next);
  }

  /** Equal scores, volatilities and previous scores decide alike. */
  lemma EqualParts(m: Maths, cfg: Config, p: PipelineState, q: PipelineState, next: PriceTick, r: real)
    requires cfg.IndicatorsValid() && VolSound(p.vol) && VolSound(q.vol) && next.eth > 0.0 && next.btc > 0.0
    requires p.entry.prevZ == q.entry.prevZ
    requires r == RelativePrice(m, next.eth, next.btc).value
    requires ZStep(m, cfg.strategy.nZ, cfg.sigmaFloor, p.z, r).1 == ZStep(m, cfg.strategy.nZ, cfg.sigmaFloor, q.z, r).1
    requires VolStep(m, cfg.position.nVol, p.vol, next.eth, next.btc).Some?
    requires VolStep(m, cfg.position.nVol, q.vol, next.eth, next.btc).Some?
    requires VolStep(m, cfg.position.nVol, p.vol, next.eth, next.btc).value.1
          == VolStep(m, cfg.position.nVol, q.vol, next.eth, next.btc).value.1
    ensures DecideAlike(m, cfg, p, q, next)
  {
    DetectorsForget(cfg, p.entry, q.entry, p.tpCount, q.tpCount,
                    ZStep(m, cfg.strategy.nZ, cfg.sigmaFloor, p.z, r).1.zscore, next);
    StepParts(m, cfg, p, next);
    StepParts(m, cfg, q, next);
  }

  lemma NextOutputShared(m: Maths, cfg: Config, j: nat, p: PipelineState, q: PipelineState, next: PriceTick)
    requires cfg.IndicatorsValid() && Sound(cfg, p) && Sound(cfg, q) && Shared(cfg, j, p, q) && j >= Memory(cfg)
    ensures DecideAlike(m, cfg, p, q, next)
  {
    if next.eth > 0.0 && next.btc > 0.0 {
      var r := RelativePrice(m, next.eth, next.btc).value;
      ZStepShared(m, cfg, j, p.z, q.z, r);
      VolStepShared(m, cfg, j, p.vol, q.vol, next.eth, next.btc);
      EqualParts(m, cfg, p, q, next, r);
    } else {
      StepKeepsSound(m, cfg, p, next);
      StepKeepsSound(m, cfg, q, next);
    }
  }

  lemma {:induction false} AfterConcat(m: Maths, cfg: Config, s: PipelineState, past: seq<PriceTick>, recent: seq<PriceTick>)
    requires cfg.IndicatorsValid()
    ensures PipelineAfter(m, cfg, s, past + recent)
            == PipelineAfter(m, cfg, PipelineAfter(m, cfg, s, past), recent)
  {
    if |recent| == 0 {
      assert past + recent == past;
    } else {
      AfterConcat(m, cfg, s, past, recent[..|recent| - 1]);
      assert (past + recent)[..|past + recent| - 1] == past + recent[..|recent| - 1];
    }
  }

  /** The last `j` prices are the same. */
  ghost predicate SameRecent(a: seq<PriceTick>, b: seq<PriceTick>, j: nat) {
    && j <= |a| && j <= |b|
    && forall i :: 0 <= i < j ==> SamePrices(Tail(a, j)[i], Tail(b, j)[i])
  }

  /** Two pipelines fed from scratch, one perhaps much longer than the other, decide alike on the next bar
      once their last `Memory` prices are the same: a replay equals never having stopped. */
  lemma TailsDecide(m: Maths, cfg: Config, a: seq<PriceTick>, b: seq<PriceTick>, j: nat, next: PriceTick)
    requires cfg.IndicatorsValid() && j >= Memory(cfg) && SameRecent(a, b, j)
    ensures DecideAlike(m, cfg, PipelineAfter(m, cfg, FRESH_PIPELINE, a), PipelineAfter(m, cfg, FRESH_PIPELINE, b), next)
  {
    var p := BeforeTail(m, cfg, a, j);
    var q := BeforeTail(m, cfg, b, j);
    RestartTransparent(m, cfg, p, q, Tail(a, j), Tail(b, j), next);
  }

  /** The state in which the last `j` prices found a pipeline. */
  lemma BeforeTail(m: Maths, cfg: Config, a: seq<PriceTick>, j: nat) returns (s: PipelineState)
    requires cfg.IndicatorsValid() && j <= |a|
    ensures Sound(cfg, s) && PipelineAfter(m, cfg, FRESH_PIPELINE, a) == PipelineAfter(m, cfg, s, Tail(a, j))
  {
    var past := a[..|a| - j];
    s := PipelineAfter(m, cfg, FRESH_PIPELINE, past);
    assert a == past + Tail(a, j);
    AfterConcat(m, cfg, FRESH_PIPELINE, past, Tail(a, j));
    RunKeepsSound(m, cfg, FRESH_PIPELINE, past);
  }
}
