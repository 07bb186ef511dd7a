/** Rolling windows and the statistics computed from them. */
module Indicators {
  import opened Numbers
  import opened Trading

  /** The transcendental functions the program calls.  They are unknown to the model, except
      for what `Sound` says of them. */
  datatype Maths = Maths(ln: real -> real, sqrt: real -> real, halfPow: nat -> real)
  {
    ghost predicate Sound() {
      && (forall v :: v >= 0.0 ==> sqrt(v) >= 0.0 && sqrt(v) * sqrt(v) == v)
      && (forall h: nat :: h > 0 ==> 0.0 < halfPow(h) < 1.0)
    }
  }

  // ---- rolling window --------------------------------------------------------

  /** The last `n` elements of `s`, or all of them when there are fewer. */
  function LastN<T>(s: seq<T>, n: nat): (r: seq<T>)
    ensures |r| <= n && |r| <= |s|
  {
    if |s| <= n then s else s[|s| - n..]
  }

  function Push<T>(w: seq<T>, capacity: nat, value: T): (r: seq<T>)
    requires 0 < capacity
    ensures |r| == if |w| == capacity then capacity else |w| + 1
  {
    (if |w| == capacity then w[1..] else w) + [value]
  }

  /** A window fed one value at a time always holds exactly the last `capacity` inputs. */
  lemma PushIsLastN<T>(history: seq<T>, capacity: nat, value: T)
    requires 0 < capacity
    ensures Push(LastN(history, capacity), capacity, value) == LastN(history + [value], capacity)
  {
    var w := LastN(history, capacity);
    if |history| >= capacity {
      assert history + [value] == history[..|history| - capacity + 1] + (w[1..] + [value]);
    }
  }

  function Mean(w: seq<real>): real
    requires |w| > 0
  {
    Sum(w) / |w| as real
  }

  /** Sum of squared distances from `mean`. */
  function SumSq(w: seq<real>, mean: real): (r: real)
    ensures r >= 0.0
  {
    if |w| == 0 then 0.0
    else
      var d := w[|w| - 1] - mean;
      SumSq(w[..|w| - 1], mean) + Sq(d)
  }

  /** Population variance. */
  function Variance(w: seq<real>): (r: real)
    requires |w| > 0
    ensures r >= 0.0
  {
    SumSq(w, Mean(w)) / |w| as real
  }

  function Std(m: Maths, w: seq<real>): real
    requires |w| > 0
  {
    m.sqrt(Variance(w))
  }

  predicate Sorted(s: seq<real>) {
    forall i, j :: 0 <= i < j < |s| ==> s[i] <= s[j]
  }

  /** `s` with `x` inserted before the first larger element. */
  function Insert(s: seq<real>, x: real): seq<real> {
    if |s| == 0 || x < s[0] then [x] + s else [s[0]] + Insert(s[1..], x)
  }

  function Sort(s: seq<real>): seq<real> {
    if |s| == 0 then [] else Insert(Sort(s[..|s| - 1]), s[|s| - 1])
  }

  lemma {:induction false} InsertContents(s: seq<real>, x: real)
    ensures multiset(Insert(s, x)) == multiset(s) + multiset{x}
  {
    if |s| != 0 && x >= s[0] {
      InsertContents(s[1..], x);
      assert s == [s[0]] + s[1..];
    }
  }

  lemma {:induction false} InsertSorted(s: seq<real>, x: real)
    requires Sorted(s)
    ensures Sorted(Insert(s, x))
  {
    if |s| != 0 && x >= s[0] {
      var rest := Insert(s[1..], x);
      InsertSorted(s[1..], x);
      InsertContents(s[1..], x);
      forall j | 0 <= j < |rest|
        ensures s[0] <= rest[j]
      {
        assert rest[j] in multiset(rest);
        assert rest[j] == x || rest[j] in s[1..];
      }
    }
  }

  /** Sorting orders the values and keeps each as often as it occurred. */
  lemma {:induction false} SortSorts(s: seq<real>)
    ensures Sorted(Sort(s)) && multiset(Sort(s)) == multiset(s) && |Sort(s)| == |s|
  {
    if |s| != 0 {
      var init, last := s[..|s| - 1], s[|s| - 1];
      SortSorts(init);
      InsertSorted(Sort(init), last);
      InsertContents(Sort(init), last);
      assert s == init + [last];
      assert |multiset(Sort(s))| == |multiset(s)|;
    }
  }

  function QuantileIndex(n: nat, p: real): (i: nat)
    requires n > 0 && 0.0 < p <= 1.0
    ensures i < n
  {
    var x := (n - 1) as real;
    MulMono(p, 1.0, x);
    MulMono(0.0, p, x);
    FloorBetween(p * x, 0, n - 1);
    (p * x).Floor
  }

  /** The empirical quantile: the sorted value at index floor((n - 1) * p). */
  function QuantileOf(w: seq<real>, p: real): real
    requires |w| > 0 && 0.0 < p <= 1.0
  {
    SortSorts(w);
    Sort(w)[QuantileIndex(|w|, p)]
  }

  /** How many values satisfy `f`. */
  function Count(s: seq<real>, f: real -> bool): nat {
    if |s| == 0 then 0 else (if f(s[0]) then 1 else 0) + Count(s[1..], f)
  }

  lemma {:induction false} CountConcat(a: seq<real>, b: seq<real>, f: real -> bool)
    ensures Count(a + b, f) == Count(a, f) + Count(b, f)
  {
    if |a| == 0 {
      assert a + b == b;
    } else {
      CountConcat(a[1..], b, f);
      assert (a + b)[1..] == a[1..] + b;
    }
  }

  lemma {:induction false} CountInsert(s: seq<real>, x: real, f: real -> bool)
    ensures Count(Insert(s, x), f) == Count(s, f) + (if f(x) then 1 else 0)
  {
    if |s| == 0 || x < s[0] {
      assert ([x] + s)[1..] == s;
    } else {
      CountInsert(s[1..], x, f);
      assert Insert(s, x)[1..] == Insert(s[1..], x);
    }
  }

  lemma {:induction false} CountSort(s: seq<real>, f: real -> bool)
    ensures Count(Sort(s), f) == Count(s, f)
  {
    if |s| > 0 {
      var init, last := s[..|s| - 1], s[|s| - 1];
      CountSort(init, f);
      CountInsert(Sort(init), last, f);
      CountConcat(init, [last], f);
      assert s == init + [last];
    }
  }

  lemma {:induction false} CountAll(s: seq<real>, f: real -> bool)
    requires forall k :: 0 <= k < |s| ==> f(s[k])
    ensures Count(s, f) == |s|
  {
    if |s| > 0 {
      CountAll(s[1..], f);
    }
  }

  function AtMost(x: real): real -> bool {
    y => y <= x
  }

  function AtLeast(x: real): real -> bool {
    y => y >= x
  }

  /** The first values that satisfy `f`, and the last ones. */
  lemma CountEnds(t: seq<real>, f: real -> bool, i: nat)
    requires i <= |t|
    ensures (forall k :: 0 <= k < i ==> f(t[k])) ==> Count(t, f) >= i
    ensures (forall k :: i <= k < |t| ==> f(t[k])) ==> Count(t, f) >= |t| - i
  {
    assert t == t[..i] + t[i..];
    CountConcat(t[..i], t[i..], f);
    if forall k :: 0 <= k < i ==> f(t[k]) {
      CountAll(t[..i], f);
    }
    if forall k :: i <= k < |t| ==> f(t[k]) {
      CountAll(t[i..], f);
    }
  }

  lemma SortedRank(t: seq<real>, i: nat)
    requires Sorted(t) && i < |t|
    ensures Count(t, AtMost(t[i])) >= i + 1 && Count(t, AtLeast(t[i])) >= |t| - i
  {
    CountEnds(t, AtMost(t[i]), i + 1);
    CountEnds(t, AtLeast(t[i]), i);
  }

  lemma IndexOfRank(n: nat, p: real)
    requires n > 0 && 0.0 < p <= 1.0
    ensures QuantileIndex(n, p) as real <= p * (n - 1) as real < (QuantileIndex(n, p) + 1) as real
  {
  }

  /** The quantile is the value of rank floor((n - 1) * p): a window value with that many others at or
      below it, and the remaining ones at or above it. */
  lemma QuantileIsRank(w: seq<real>, p: real)
    requires |w| > 0 && 0.0 < p <= 1.0
    ensures var x, i := QuantileOf(w, p), QuantileIndex(|w|, p);
            && i as real <= p * (|w| - 1) as real < (i + 1) as real
            && x in w && Count(w, AtMost(x)) >= i + 1 && Count(w, AtLeast(x)) >= |w| - i
  {
    var x, i := QuantileOf(w, p), QuantileIndex(|w|, p);
    IndexOfRank(|w|, p);
    SortSorts(w);
    assert x in multiset(Sort(w));
    CountSort(w, AtMost(x));
    CountSort(w, AtLeast(x));
    SortedRank(Sort(w), i);
  }

  function EwmaMean(alpha: real, mean: real, value: real): real {
    mean + alpha * (value - mean)
  }

  function EwmaVariance(alpha: real, variance: real, diff: real): real {
    alpha * Sq(diff) + (1.0 - alpha) * variance
  }

  /** Mean and variance of the exponentially weighted recurrence. */
  function EwmaFold(alpha: real, values: seq<real>): (real, real)
    requires |values| > 0
  {
    if |values| == 1 then (values[0], 0.0)
    else
      var acc := EwmaFold(alpha, values[..|values| - 1]);
      var value := values[|values| - 1];
      var mean := EwmaMean(alpha, acc.0, value);
      (mean, EwmaVariance(alpha, acc.1, value - mean))
  }

  function EwmaStd(m: Maths, values: seq<real>, halfLife: nat): Option<real> {
    if |values| < 2 || halfLife == 0 then None
    else
      var variance := EwmaFold(1.0 - m.halfPow(halfLife), values).1;
      if variance < 0.0 then None else Some(m.sqrt(variance))
  }

  lemma EwmaVarianceStep(alpha: real, variance: real, diff: real)
    requires 0.0 <= alpha <= 1.0 && variance >= 0.0
    ensures EwmaVariance(alpha, variance, diff) >= 0.0
  {
    ProductOrder(0.0, alpha, Sq(diff), 0.0, alpha * Sq(diff));
    ProductOrder(0.0, 1.0 - alpha, variance, 0.0, (1.0 - alpha) * variance);
  }

  /** The recurrence never produces a negative variance, so the square root always exists. */
  lemma {:induction false} EwmaVarianceNonNegative(alpha: real, values: seq<real>)
    requires |values| > 0 && 0.0 <= alpha <= 1.0
    ensures EwmaFold(alpha, values).1 >= 0.0
  {
    if |values| > 1 {
      var init, value := values[..|values| - 1], values[|values| - 1];
      EwmaVarianceNonNegative(alpha, init);
      var acc := EwmaFold(alpha, init);
      EwmaVarianceStep(alpha, acc.1, value - EwmaMean(alpha, acc.0, value));
    }
  }

  function Pow(base: real, n: nat): real {
    if n == 0 then 1.0 else base * Pow(base, n - 1)
  }

  function Product(a: real, b: real): real {
    a * b
  }

  /** The sum of the values, each discounted once for every value after it. */
  function Discounted(rate: real, values: seq<real>): real {
    if |values| == 0 then 0.0
    else Product(Pow(rate, |values| - 1), values[0]) + Discounted(rate, values[1..])
  }

  lemma ProductLaws(a: real, b: real, c: real)
    ensures Product(a, Product(b, c)) == Product(Product(a, b), c) == Product(b, Product(a, c))
    ensures Product(a, b + c) == Product(a, b) + Product(a, c) && Product(1.0, a) == a
  {
  }

  /** One more value discounts all before it once more. */
  lemma {:induction false} DiscountedSnoc(rate: real, values: seq<real>, last: real)
    ensures Discounted(rate, values + [last]) == Product(rate, Discounted(rate, values)) + last
  {
    var all := values + [last];
    if |values| == 0 {
      assert all == [last] && [last][1..] == [];
      assert Pow(rate, 0) == 1.0;
      ProductLaws(last, 0.0, 0.0);
    } else {
      assert all[1..] == values[1..] + [last];
      DiscountedSnoc(rate, values[1..], last);
      var power := Pow(rate, |values| - 1);
      assert Pow(rate, |values|) == Product(rate, power);
      ProductLaws(rate, power, values[0]);
      ProductLaws(rate, Product(power, values[0]), Discounted(rate, values[1..]));
    }
  }

  /** How far each value but the first lies from the mean that includes it, squared. */
  function Surprises(alpha: real, values: seq<real>): seq<real>
    requires |values| > 0
  {
    seq(|values| - 1, k requires 0 <= k < |values| - 1 => Sq(values[k + 1] - EwmaFold(alpha, values[..k + 2]).0))
  }

  lemma SurprisesSnoc(alpha: real, values: seq<real>)
    requires |values| > 1
    ensures var init, last := values[..|values| - 1], values[|values| - 1];
            Surprises(alpha, values) == Surprises(alpha, init) + [Sq(last - EwmaFold(alpha, values).0)]
  {
    var init := values[..|values| - 1];
    assert values[..|values|] == values;
    forall k | 0 <= k < |values| - 2
      ensures Surprises(alpha, values)[k] == Surprises(alpha, init)[k]
    {
      assert values[..k + 2] == init[..k + 2];
    }
  }

  lemma EwmaStep(alpha: real, mean: real, value: real, variance: real, diff: real)
    ensures EwmaMean(alpha, mean, value) == Product(1.0 - alpha, mean) + Product(alpha, value)
    ensures EwmaVariance(alpha, variance, diff) == Product(1.0 - alpha, variance) + Product(alpha, Sq(diff))
  {
  }

  /** The recurrence is the exponentially weighted average: each value counts `1 - alpha` times as much as
      the next, and so does each squared distance from the mean. */
  lemma {:induction false} EwmaIsWeighted(alpha: real, values: seq<real>)
    requires |values| > 0
    ensures var rate := 1.0 - alpha;
            && EwmaFold(alpha, values).0
               == Product(Pow(rate, |values| - 1), values[0]) + Product(alpha, Discounted(rate, values[1..]))
            && EwmaFold(alpha, values).1 == Product(alpha, Discounted(rate, Surprises(alpha, values)))
  {
    var rate := 1.0 - alpha;
    if |values| == 1 {
      assert values[1..] == [] && Surprises(alpha, values) == [];
      ProductLaws(values[0], 0.0, 0.0);
      ProductLaws(alpha, 0.0, 0.0);
    } else {
      var init, last := values[..|values| - 1], values[|values| - 1];
      var (mean, variance) := EwmaFold(alpha, init);
      var diff := last - EwmaMean(alpha, mean, last);
      EwmaIsWeighted(alpha, init);
      EwmaStep(alpha, mean, last, variance, diff);
      assert values[1..] == init[1..] + [last];
      DiscountedSnoc(rate, init[1..], last);
      SurprisesSnoc(alpha, values);
      DiscountedSnoc(rate, Surprises(alpha, init), Sq(diff));
      var power := Pow(rate, |init| - 1);
      assert Pow(rate, |init|) == Product(rate, power);
      ProductLaws(rate, power, values[0]);
      ProductLaws(rate, alpha, Discounted(rate, init[1..]));
      ProductLaws(rate, Product(power, values[0]), Product(alpha, Discounted(rate, init[1..])));
      ProductLaws(alpha, Product(rate, Discounted(rate, init[1..])), last);
      ProductLaws(rate, alpha, Discounted(rate, Surprises(alpha, init)));
      ProductLaws(alpha, Product(rate, Discounted(rate, Surprises(alpha, init))), Sq(diff));
    }
  }

  class RollingWindow {
    const capacity: nat
    var values: seq<real>
    /** Everything ever pushed. */
    ghost var inputs: seq<real>

    ghost predicate Valid()
      reads this
    {
      0 < capacity && values == LastN(inputs, capacity)
    }

    constructor (capacity: nat)
      requires 0 < capacity
      ensures Valid() && this.capacity == capacity && inputs == [] && values == []
    {
      this.capacity := capacity;
      values := [];
      inputs := [];
    }

    method PushValue(value: real)
      requires Valid()
      modifies this
      ensures Valid() && inputs == old(inputs) + [value]
      ensures values == Push(old(values), capacity, value)
    {
      PushIsLastN(inputs, capacity, value);
      if |values| == capacity {
        values := values[1..];
      }
      values := values + [value];
      inputs := inputs + [value];
    }

    method MeanValue() returns (r: Option<real>)
      ensures r == if |values| == 0 then None else Some(Mean(values))
    {
      if |values| == 0 {
        return None;
      }
      var sum := 0.0;
      for i := 0 to |values|
        invariant sum == Sum(values[..i])
      {
        SumSnoc(values[..i], values[i]);
        assert values[..i + 1] == values[..i] + [values[i]];
        sum := sum + values[i];
      }
      assert values[..|values|] == values;
      return Some(sum / |values| as real);
    }

    method StdValue(m: Maths) returns (r: Option<real>)
      ensures r == if |values| == 0 then None else Some(Std(m, values))
    {
      var mean := MeanValue();
      if mean.None? {
        return None;
      }
      var sum := 0.0;
      for i := 0 to |values|
        invariant sum == SumSq(values[..i], mean.value)
      {
        var diff := values[i] - mean.value;
        assert values[..i + 1][..i] == values[..i];
        sum := sum + Sq(diff);
      }
      assert values[..|values|] == values;
      return Some(m.sqrt(sum / |values| as real));
    }

    method QuantileValue(p: real) returns (r: Option<real>)
      requires 0.0 < p <= 1.0
      ensures r == if |values| == 0 then None else Some(QuantileOf(values, p))
    {
      if |values| == 0 {
        return None;
      }
      return Some(QuantileOf(values, p));
    }
  }

  method ComputeEwmaStd(m: Maths, values: seq<real>, halfLife: nat) returns (r: Option<real>)
    ensures r == EwmaStd(m, values, halfLife)
  {
    if |values| < 2 || halfLife == 0 {
      return None;
    }
    var decay := m.halfPow(halfLife);
    var alpha := 1.0 - decay;
    var mean := values[0];
    var variance := 0.0;
    assert values[..1] == [values[0]];
    for i := 1 to |values|
      invariant (mean, variance) == EwmaFold(alpha, values[..i])
    {
      mean := EwmaMean(alpha, mean, values[i]);
      variance := EwmaVariance(alpha, variance, values[i] - mean);
      assert values[..i + 1][..i] == values[..i];
    }
    assert values[..|values|] == values;
    return if variance < 0.0 then None else Some(m.sqrt(variance));
  }

  // ---- sigma floor ------------------------------------------------------------

  /** Capacity of the sigma history. */
  function SigmaCapacity(cfg: SigmaFloorConfig): (r: nat)
    ensures r > 0
  {
    MaxNat(cfg.quantileBars, 1)
  }

  function FloorValue(m: Maths, cfg: SigmaFloorConfig, sigmas: seq<real>, window: seq<real>): Option<real>
    requires 0.0 < cfg.quantileP <= 1.0
  {
    match cfg.mode
    case Const => Some(cfg.floorConst)
    case Quantile =>
      if |sigmas| < cfg.quantileBars || |sigmas| == 0 then None else Some(QuantileOf(sigmas, cfg.quantileP))
    case EwmaMix =>
      if |sigmas| < cfg.quantileBars || |sigmas| == 0 then None
      else
        var quantile := QuantileOf(sigmas, cfg.quantileP);
        match EwmaStd(m, window, cfg.ewmaHalfLife)
        case None => None
        case Some(ewma) => Some(if ewma > quantile then ewma else quantile)
  }

  class SigmaFloorCalculator {
    const cfg: SigmaFloorConfig
    const history: RollingWindow

    ghost predicate Valid()
      reads history
    {
      && history.Valid() && history.capacity == SigmaCapacity(cfg)
      && 0.0 < cfg.quantileP <= 1.0
    }

    constructor (cfg: SigmaFloorConfig)
      requires 0.0 < cfg.quantileP <= 1.0
      ensures Valid() && this.cfg == cfg && fresh(history) && history.values == []
    {
      this.cfg := cfg;
      history := new RollingWindow(SigmaCapacity(cfg));
    }

    method Update(m: Maths, sigma: real, window: seq<real>) returns (r: Option<real>)
      requires Valid()
      modifies history
      ensures Valid()
      ensures history.values == Push(old(history.values), SigmaCapacity(cfg), sigma)
      ensures r == FloorValue(m, cfg, history.values, window)
    {
      history.PushValue(sigma);
      match cfg.mode
      case Const =>
        return Some(cfg.floorConst);
      case Quantile =>
        if |history.values| < cfg.quantileBars {
          return None;
        }
        r := history.QuantileValue(cfg.quantileP);
      case EwmaMix =>
        if |history.values| < cfg.quantileBars {
          return None;
        }
        var quantile := history.QuantileValue(cfg.quantileP);
        var ewma := ComputeEwmaStd(m, window, cfg.ewmaHalfLife);
        if quantile.None? || ewma.None? {
          return None;
        }
        r := Some(if ewma.value > quantile.value then ewma.value else quantile.value);
    }
  }

  // ---- z-score ------------------------------------------------------------------

  datatype ZScoreSnapshot = ZScoreSnapshot(
    r: real, mean: Option<real>, sigma: Option<real>, sigmaFloor: Option<real>,
    sigmaEff: Option<real>, zscore: Option<real>)

  datatype ZState = ZState(window: seq<real>, sigmas: seq<real>)

  const FRESH_Z := ZState([], [])

  function EffectiveSigma(sigma: real, floor: Option<real>): Option<real> {
    match floor
    case None => None
    case Some(f) => Some(if sigma > f then sigma else f)
  }

  function ZScoreOf(r: real, mean: real, sigmaEff: Option<real>): Option<real> {
    match sigmaEff
    case None => None
    case Some(s) => Some(if s == 0.0 then 0.0 else (r - mean) / s)
  }

  /** The snapshot of a full window, once its sigma is part of the sigma history. */
  function ZFull(m: Maths, cfg: SigmaFloorConfig, window: seq<real>, sigmas: seq<real>, r: real): ZScoreSnapshot
    requires |window| > 0 && 0.0 < cfg.quantileP <= 1.0
  {
    var mean, sigma := Mean(window), Std(m, window);
    var floor := FloorValue(m, cfg, sigmas, window);
    var sigmaEff := EffectiveSigma(sigma, floor);
    ZScoreSnapshot(r, Some(mean), Some(sigma), floor, sigmaEff, ZScoreOf(r, mean, sigmaEff))
  }

  function ZStep(m: Maths, nZ: nat, cfg: SigmaFloorConfig, s: ZState, r: real): (ZState, ZScoreSnapshot)
    requires nZ > 0 && 0.0 < cfg.quantileP <= 1.0
  {
    var window := Push(s.window, nZ, r);
    if |window| < nZ then
      (s.(window := window), ZScoreSnapshot(r, None, None, None, None, None))
    else
      var sigmas := Push(s.sigmas, SigmaCapacity(cfg), Std(m, window));
      (ZState(window, sigmas), ZFull(m, cfg, window, sigmas, r))
  }

  class ZScoreCalculator {
    const nZ: nat
    const window: RollingWindow
    const sigmaFloor: SigmaFloorCalculator

    ghost predicate Valid()
      reads window, sigmaFloor.history
    {
      && window != sigmaFloor.history
      && window.Valid() && window.capacity == nZ
      && sigmaFloor.Valid()
    }

    ghost function View(): ZState
      reads window, sigmaFloor.history
    {
      ZState(window.values, sigmaFloor.history.values)
    }

    constructor (nZ: nat, cfg: SigmaFloorConfig)
      requires nZ > 0 && 0.0 < cfg.quantileP <= 1.0
      ensures Valid() && View() == FRESH_Z && this.nZ == nZ && sigmaFloor.cfg == cfg
      ensures fresh(window) && fresh(sigmaFloor) && fresh(sigmaFloor.history)
    {
      this.nZ := nZ;
      window := new RollingWindow(nZ);
      sigmaFloor := new SigmaFloorCalculator(cfg);
    }

    method Update(m: Maths, r: real) returns (snapshot: ZScoreSnapshot)
      requires Valid()
      modifies window, sigmaFloor.history
      ensures Valid()
      ensures (View(), snapshot) == ZStep(m, nZ, sigmaFloor.cfg, old(View()), r)
    {
      window.PushValue(r);
      if |window.values| < nZ {
        return ZScoreSnapshot(r, None, None, None, None, None);
      }
      var mean := window.MeanValue();
      var sigma := window.StdValue(m);
      var floor := sigmaFloor.Update(m, sigma.value, window.values);
      var sigmaEff := EffectiveSigma(sigma.value, floor);
      var zscore := ZScoreOf(r, mean.value, sigmaEff);
      return ZScoreSnapshot(r, mean, sigma, floor, sigmaEff, zscore);
    }
  }

  // ---- volatility -----------------------------------------------------------------

  datatype VolatilitySnapshot = VolatilitySnapshot(eth: Option<real>, btc: Option<real>)

  datatype VolState = VolState(
    eth: seq<real>, btc: seq<real>, lastEth: Option<real>, lastBtc: Option<real>)

  const FRESH_VOL := VolState([], [], None, None)

  /** Log ratio of the two prices; an error (None) unless both are positive. */
  function RelativePrice(m: Maths, eth: real, btc: real): Option<real> {
    if eth <= 0.0 || btc <= 0.0 then None else Some(m.ln(eth) - m.ln(btc))
  }

  function LogReturn(m: Maths, current: real, previous: real): Option<real> {
    if current <= 0.0 || previous <= 0.0 then None else Some(m.ln(current / previous))
  }

  /** The window of returns after one more price; an unusable previous price is an error. */
  function PushReturn(m: Maths, nVol: nat, rets: seq<real>, last: Option<real>, price: real): Option<seq<real>>
    requires nVol > 0
  {
    match last
    case None => Some(rets)
    case Some(previous) =>
      match LogReturn(m, price, previous)
      case None => None
      case Some(ret) => Some(Push(rets, nVol, ret))
  }

  function WindowVol(m: Maths, nVol: nat, rets: seq<real>): Option<real>
    requires nVol > 0
  {
    if |rets| >= nVol then Some(Std(m, rets)) else None
  }

  /** One price pair for the volatility windows.  No caller ever stores a non-positive price, so
      the error of a log return does not arise after the price check. */
  function VolStep(m: Maths, nVol: nat, s: VolState, eth: real, btc: real): Option<(VolState, VolatilitySnapshot)>
    requires nVol > 0
  {
    if eth <= 0.0 || btc <= 0.0 then None
    else
      match (PushReturn(m, nVol, s.eth, s.lastEth, eth), PushReturn(m, nVol, s.btc, s.lastBtc, btc))
      case (Some(ethReturns), Some(btcReturns)) =>
        Some((VolState(ethReturns, btcReturns, Some(eth), Some(btc)),
              VolatilitySnapshot(WindowVol(m, nVol, ethReturns), WindowVol(m, nVol, btcReturns))))
      case _ => None
  }

  predicate VolSound(s: VolState) {
    && (s.lastEth.Some? ==> s.lastEth.value > 0.0)
    && (s.lastBtc.Some? ==> s.lastBtc.value > 0.0)
  }

  class VolatilityCalculator {
    const nVol: nat
    const ethReturns: RollingWindow
    const btcReturns: RollingWindow
    var lastEth: Option<real>
    var lastBtc: Option<real>

    ghost predicate Valid()
      reads this, ethReturns, btcReturns
    {
      && ethReturns != btcReturns
      && ethReturns.Valid() && ethReturns.capacity == nVol
      && btcReturns.Valid() && btcReturns.capacity == nVol
      && VolSound(View())
    }

    ghost function View(): VolState
      reads this, ethReturns, btcReturns
    {
      VolState(ethReturns.values, btcReturns.values, lastEth, lastBtc)
    }

    constructor (nVol: nat)
      requires nVol > 0
      ensures Valid() && View() == FRESH_VOL && this.nVol == nVol
      ensures fresh(ethReturns) && fresh(btcReturns)
    {
      this.nVol := nVol;
      ethReturns := new RollingWindow(nVol);
      btcReturns := new RollingWindow(nVol);
      lastEth := None;
      lastBtc := None;
    }

    method Update(m: Maths, eth: real, btc: real) returns (r: Option<VolatilitySnapshot>)
      requires Valid()
      modifies this, ethReturns, btcReturns
      ensures Valid()
      ensures r.None? <==> eth <= 0.0 || btc <= 0.0
      ensures r.None? ==> View() == old(View())
      ensures r.Some? ==> VolStep(m, nVol, old(View()), eth, btc) == Some((View(), r.value))
    {
      if eth <= 0.0 || btc <= 0.0 {
        return None;
      }
      RecordReturn(m, ethReturns, lastEth, eth);
      RecordReturn(m, btcReturns, lastBtc, btc);
      lastEth := Some(eth);
      lastBtc := Some(btc);
      var volEth := ReadVol(m, ethReturns);
      var volBtc := ReadVol(m, btcReturns);
      return Some(VolatilitySnapshot(volEth, volBtc));
    }

    static method RecordReturn(m: Maths, window: RollingWindow, last: Option<real>, price: real)
      requires window.Valid() && price > 0.0 && (last.Some? ==> last.value > 0.0)
      modifies window
      ensures window.Valid()
      ensures PushReturn(m, window.capacity, old(window.values), last, price) == Some(window.values)
    {
      if last.Some? {
        var ret := LogReturn(m, price, last.value);
        window.PushValue(ret.value);
      }
    }

    static method ReadVol(m: Maths, window: RollingWindow) returns (r: Option<real>)
      requires window.Valid()
      ensures r == WindowVol(m, window.capacity, window.values)
    {
      if |window.values| < window.capacity {
        return None;
      }
      r := window.StdValue(m);
    }
  }
}
