/** Risk-parity weights, capital, and conversion of notionals into order quantities. */
module Sizing {
  import opened Numbers
  import opened Trading

  datatype Weights = Weights(eth: real, btc: real)

  /** Inverse-volatility weights; equal ones when a volatility is not positive. */
  function RiskParityWeights(volEth: real, volBtc: real): Weights {
    if volEth <= 0.0 || volBtc <= 0.0 then Weights(0.5, 0.5)
    else
      var invEth, invBtc := 1.0 / volEth, 1.0 / volBtc;
      assert invEth > 0.0 && invBtc > 0.0;
      var wEth := invEth / (invEth + invBtc);
      Weights(wEth, 1.0 - wEth)
  }

  /** The error (None) is a missing setting. */
  function ComputeCapital(cfg: PositionConfig, equity: real): Option<real> {
    match cfg.cMode
    case FixedNotional => cfg.cValue
    case EquityRatio =>
      match cfg.equityRatioK
      case None => None
      case Some(k) => Some(equity * k)
  }

  /** The notional of a leg. */
  function Share(capital: real, weight: real): real {
    capital * weight
  }

  datatype OrderSize = OrderSize(qty: real, notional: real, price: real)

  datatype SizeResult = Sized(order: OrderSize) | InvalidPrice | InvalidConstraints | BelowMinimum

  function RoundSteps(steps: real, mode: RoundingMode): int {
    match mode
    case FloorMode => steps.Floor
    case CeilMode => Ceil(steps)
    case RoundMode => RoundHalfEven(steps)
  }

  /** The number in units of its last decimal. */
  function InUnits(x: real, decimals: nat): real {
    x * Pow10(decimals) as real
  }

  /** Nearest number with the given count of decimals. */
  function RoundToDecimals(x: real, decimals: nat): real {
    RoundHalfEven(InUnits(x, decimals)) as real / Pow10(decimals) as real
  }

  /** The quantity of `n` steps. */
  function StepsOf(step: real, n: int): real {
    n as real * step
  }

  function RoundQty(c: InstrumentConstraints, qty: real, mode: RoundingMode): real
    requires c.stepSize > 0.0
  {
    RoundToDecimals(StepsOf(c.stepSize, RoundSteps(qty / c.stepSize, mode)), c.qtyPrecision)
  }

  function Notional(qty: real, price: real): real {
    qty * price
  }

  function ConvertNotional(c: InstrumentConstraints, policy: MinSizePolicy, notional: real, price: real): SizeResult {
    if price <= 0.0 then InvalidPrice
    else if c.stepSize <= 0.0 then InvalidConstraints
    else
      var qty := RoundQty(c, notional / price, c.roundingMode);
      if qty < c.minQty || Notional(qty, price) < c.minNotional then
        match policy
        case Skip => BelowMinimum
        case Adjust =>
          var adjusted := RoundQty(c, MaxReal(c.minNotional / price, c.minQty), CeilMode);
          Sized(OrderSize(adjusted, Notional(adjusted, price), price))
      else Sized(OrderSize(qty, Notional(qty, price), price))
  }

  // ---- properties ------------------------------------------------------------------------

  lemma InvertPositive(v: real)
    requires v > 0.0
    ensures 1.0 / v > 0.0 && v * (1.0 / v) == 1.0
  {
  }

  lemma ShareOfSum(a: real, b: real)
    requires a > 0.0 && b > 0.0
    ensures 0.0 < a / (a + b) < 1.0
    ensures 1.0 - a / (a + b) == b / (a + b)
  {
    var w, u := a / (a + b), b / (a + b);
    assert w + u == (a + b) / (a + b) == 1.0;
  }

  /** The weights are positive, sum to one, and give both legs the same risk. */
  lemma WeightsShareRisk(volEth: real, volBtc: real)
    ensures var w := RiskParityWeights(volEth, volBtc);
            && 0.0 < w.eth < 1.0 && 0.0 < w.btc < 1.0 && w.eth + w.btc == 1.0
            && (volEth > 0.0 && volBtc > 0.0 ==> w.eth * volEth == w.btc * volBtc)
  {
    if volEth > 0.0 && volBtc > 0.0 {
      var a, b := 1.0 / volEth, 1.0 / volBtc;
      InvertPositive(volEth);
      InvertPositive(volBtc);
      ShareOfSum(a, b);
      assert (a / (a + b)) * volEth == (a * volEth) / (a + b);
      assert (b / (a + b)) * volBtc == (b * volBtc) / (a + b);
    }
  }

  /** A step that the quantity precision can represent. */
  ghost predicate StepRepresentable(c: InstrumentConstraints) {
    && c.stepSize > 0.0
    && exists k: int :: IsUnits(c.stepSize, k, c.qtyPrecision)
  }

  predicate IsUnits(x: real, k: int, decimals: nat) {
    InUnits(x, decimals) == k as real
  }

  lemma DecimalFixed(x: real, m: int, decimals: nat)
    requires IsUnits(x, m, decimals)
    ensures RoundToDecimals(x, decimals) == x
  {
    RoundOfInt(m);
    TimesQuotient(x, Pow10(decimals) as real);
  }

  lemma StepsInUnits(step: real, n: int, k: int, decimals: nat)
    requires IsUnits(step, k, decimals)
    ensures IsUnits(StepsOf(step, n), n * k, decimals)
  {
    var scale := Pow10(decimals) as real;
    assert (n as real * step) * scale == n as real * (step * scale);
    assert n as real * k as real == (n * k) as real;
  }

  /** Rounding to the precision leaves whole multiples of a representable step alone. */
  lemma RoundQtyIsSteps(c: InstrumentConstraints, qty: real, mode: RoundingMode)
    requires StepRepresentable(c)
    ensures RoundQty(c, qty, mode) == StepsOf(c.stepSize, RoundSteps(qty / c.stepSize, mode))
  {
    var k: int :| IsUnits(c.stepSize, k, c.qtyPrecision);
    var n := RoundSteps(qty / c.stepSize, mode);
    StepsInUnits(c.stepSize, n, k, c.qtyPrecision);
    DecimalFixed(StepsOf(c.stepSize, n), n * k, c.qtyPrecision);
  }

  lemma StepsBetween(qty: real, step: real, n: int)
    requires step > 0.0
    ensures n as real <= qty / step < n as real + 1.0 ==> qty - step < StepsOf(step, n) <= qty
    ensures n as real - 1.0 < qty / step <= n as real ==> qty <= StepsOf(step, n) < qty + step
  {
    var s, x := qty / step, n as real;
    QuotientTimes(qty, step);
    if x <= s < x + 1.0 {
      ProductOrder(x, s, step, StepsOf(step, n), qty);
      ProductOrder(s, x + 1.0, step, qty, StepsOf(step, n) + step);
    } else if x - 1.0 < s <= x {
      ProductOrder(s, x, step, qty, StepsOf(step, n));
      ProductOrder(x - 1.0, s, step, StepsOf(step, n) - step, qty);
    }
  }

  lemma HalfStep(qty: real, step: real, n: int)
    requires step > 0.0 && -0.5 <= qty / step - n as real <= 0.5
    ensures Abs(StepsOf(step, n) - qty) <= step / 2.0
  {
    var s, x := qty / step, n as real;
    QuotientTimes(qty, step);
    ProductOrder(x - 0.5, s, step, StepsOf(step, n) - step / 2.0, qty);
    ProductOrder(s, x + 0.5, step, qty, StepsOf(step, n) + step / 2.0);
  }

  /** Rounding down loses less than a step, rounding up gains less than a step, and rounding to the
      nearest moves by at most half of one. */
  lemma RoundQtyBounds(c: InstrumentConstraints, qty: real)
    requires StepRepresentable(c)
    ensures qty - c.stepSize < RoundQty(c, qty, FloorMode) <= qty
    ensures qty <= RoundQty(c, qty, CeilMode) < qty + c.stepSize
    ensures Abs(RoundQty(c, qty, RoundMode) - qty) <= c.stepSize / 2.0
  {
    var s := qty / c.stepSize;
    RoundQtyIsSteps(c, qty, RoundMode);
    HalfStep(qty, c.stepSize, RoundHalfEven(s));
    RoundQtyIsSteps(c, qty, FloorMode);
    RoundQtyIsSteps(c, qty, CeilMode);
    StepsBetween(qty, c.stepSize, s.Floor);
    StepsBetween(qty, c.stepSize, Ceil(s));
  }

  /** The notional of a quantity that is worth at least, or at most, a given amount. */
  lemma NotionalOrder(qty: real, price: real, worth: real, slack: real)
    requires price > 0.0
    ensures worth / price <= qty ==> worth <= Notional(qty, price)
    ensures qty <= worth / price ==> Notional(qty, price) <= worth
    ensures worth / price - slack < qty ==> worth - Notional(slack, price) < Notional(qty, price)
  {
    var wanted := worth / price;
    QuotientTimes(worth, price);
    if wanted <= qty {
      ProductOrder(wanted, qty, price, worth, Notional(qty, price));
    }
    if qty <= wanted {
      ProductOrder(qty, wanted, price, Notional(qty, price), worth);
    }
    if wanted - slack < qty {
      ProductOrder(wanted - slack, qty, price, worth - Notional(slack, price), Notional(qty, price));
    }
  }

  /** The order that replaces one below the minima. */
  lemma AdjustedMeetsMinima(c: InstrumentConstraints, price: real)
    requires StepRepresentable(c) && price > 0.0
    ensures var adjusted := RoundQty(c, MaxReal(c.minNotional / price, c.minQty), CeilMode);
            adjusted >= c.minQty && Notional(adjusted, price) >= c.minNotional
  {
    var target := MaxReal(c.minNotional / price, c.minQty);
    RoundQtyBounds(c, target);
    NotionalOrder(RoundQty(c, target, CeilMode), price, c.minNotional, 0.0);
  }

  ghost predicate IsSteps(c: InstrumentConstraints, qty: real) {
    exists n: int :: qty == StepsOf(c.stepSize, n)
  }

  /** Every conversion that succeeds, under either policy, is a whole number of steps and meets
      both minima; under the adjusting policy every positive price succeeds. */
  lemma ConversionMeetsMinima(c: InstrumentConstraints, policy: MinSizePolicy, notional: real, price: real)
    requires StepRepresentable(c)
    ensures var r := ConvertNotional(c, policy, notional, price);
            && (r.InvalidPrice? <==> price <= 0.0) && !r.InvalidConstraints?
            && (r.Sized? ==> IsSteps(c, r.order.qty)
                             && r.order.qty >= c.minQty && r.order.notional >= c.minNotional
                             && r.order.notional == Notional(r.order.qty, price) && r.order.price == price)
            && (policy == Adjust && price > 0.0 ==> r.Sized?)
  {
    if price > 0.0 {
      RoundQtyIsSteps(c, notional / price, c.roundingMode);
      RoundQtyIsSteps(c, MaxReal(c.minNotional / price, c.minQty), CeilMode);
      AdjustedMeetsMinima(c, price);
    }
  }

  /** The conversion took the wanted quantity rather than the adjusted minimum. */
  predicate Unadjusted(c: InstrumentConstraints, notional: real, price: real) {
    && price > 0.0 && c.stepSize > 0.0
    && var qty := RoundQty(c, notional / price, c.roundingMode);
       qty >= c.minQty && Notional(qty, price) >= c.minNotional
  }

  /** In floor mode without adjustment the order is worth at most the notional and less than one
      step below it. */
  lemma FloorLosesLessThanStep(c: InstrumentConstraints, policy: MinSizePolicy, notional: real, price: real)
    requires StepRepresentable(c) && c.roundingMode == FloorMode && price > 0.0 && Unadjusted(c, notional, price)
    ensures var r := ConvertNotional(c, policy, notional, price);
            && r.Sized?
            && notional / price - c.stepSize < r.order.qty <= notional / price
            && notional - Notional(c.stepSize, price) < r.order.notional <= notional
  {
    RoundQtyBounds(c, notional / price);
    NotionalOrder(RoundQty(c, notional / price, FloorMode), price, notional, c.stepSize);
  }

  /** In every mode an unadjusted order is less than one step from the wanted quantity, and an adjusted one
      less than one step above the greater of the two minima. */
  lemma OrderNearWanted(c: InstrumentConstraints, policy: MinSizePolicy, notional: real, price: real)
    requires StepRepresentable(c) && ConvertNotional(c, policy, notional, price).Sized?
    ensures var qty := ConvertNotional(c, policy, notional, price).order.qty;
            var least := MaxReal(c.minNotional / price, c.minQty);
            if Unadjusted(c, notional, price) then notional / price - c.stepSize < qty < notional / price + c.stepSize
            else policy == Adjust && least <= qty < least + c.stepSize
  {
    RoundQtyBounds(c, notional / price);
    RoundQtyBounds(c, MaxReal(c.minNotional / price, c.minQty));
  }

  lemma SharesOfCapital(capital: real, a: real, b: real)
    requires a + b == 1.0
    ensures Share(capital, a) + Share(capital, b) == capital
  {
    assert capital * a + capital * b == capital * (a + b);
  }

  lemma LegsWithinNotionals(eth: InstrumentConstraints, btc: InstrumentConstraints, policy: MinSizePolicy,
                            worthEth: real, worthBtc: real, ethPrice: real, btcPrice: real)
    requires StepRepresentable(eth) && StepRepresentable(btc)
    requires eth.roundingMode == FloorMode && btc.roundingMode == FloorMode
    requires ethPrice > 0.0 && btcPrice > 0.0
    requires Unadjusted(eth, worthEth, ethPrice) && Unadjusted(btc, worthBtc, btcPrice)
    ensures var e := ConvertNotional(eth, policy, worthEth, ethPrice);
            var b := ConvertNotional(btc, policy, worthBtc, btcPrice);
            && e.Sized? && b.Sized?
            && e.order.notional + b.order.notional <= worthEth + worthBtc
            && worthEth + worthBtc - Notional(eth.stepSize, ethPrice) - Notional(btc.stepSize, btcPrice)
               < e.order.notional + b.order.notional
  {
    FloorLosesLessThanStep(eth, policy, worthEth, ethPrice);
    FloorLosesLessThanStep(btc, policy, worthBtc, btcPrice);
  }

  /** The two legs of an unadjusted floor-mode entry are together worth at most the capital, and
      less than one step per leg below it. */
  lemma LegsWithinCapital(eth: InstrumentConstraints, btc: InstrumentConstraints, policy: MinSizePolicy,
                          capital: real, volEth: real, volBtc: real, ethPrice: real, btcPrice: real)
    requires StepRepresentable(eth) && StepRepresentable(btc)
    requires eth.roundingMode == FloorMode && btc.roundingMode == FloorMode
    requires ethPrice > 0.0 && btcPrice > 0.0
    requires Unadjusted(eth, Share(capital, RiskParityWeights(volEth, volBtc).eth), ethPrice)
    requires Unadjusted(btc, Share(capital, RiskParityWeights(volEth, volBtc).btc), btcPrice)
    ensures var e := ConvertNotional(eth, policy, Share(capital, RiskParityWeights(volEth, volBtc).eth), ethPrice);
            var b := ConvertNotional(btc, policy, Share(capital, RiskParityWeights(volEth, volBtc).btc), btcPrice);
            && e.Sized? && b.Sized? && e.order.notional + b.order.notional <= capital
            && capital - Notional(eth.stepSize, ethPrice) - Notional(btc.stepSize, btcPrice)
               < e.order.notional + b.order.notional
  {
    var w := RiskParityWeights(volEth, volBtc);
    WeightsShareRisk(volEth, volBtc);
    SharesOfCapital(capital, w.eth, w.btc);
    LegsWithinNotionals(eth, btc, policy, Share(capital, w.eth), Share(capital, w.btc), ethPrice, btcPrice);
  }

  /** With a step that the precision cannot represent, rounding to decimals can push an adjusted
      order below its minimum quantity. */
  lemma UnrepresentableStepBreaksMinimum()
    ensures var c := InstrumentConstraints(0.25, 0.0, 0.25, 1, FloorMode);
            var r := ConvertNotional(c, Adjust, 0.0, 1.0);
            r.Sized? && r.order.qty == 0.2 && r.order.qty < c.minQty
  {
    var c := InstrumentConstraints(0.25, 0.0, 0.25, 1, FloorMode);
    assert Pow10(1) == 10 && Pow10(0) == 1;
    assert RoundSteps(0.0 / 0.25, FloorMode) == 0;
    assert RoundQty(c, 0.0, FloorMode) == 0.0;
    assert MaxReal(0.0 / 1.0, 0.25) == 0.25;
    assert RoundSteps(0.25 / 0.25, CeilMode) == 1;
    assert RoundHalfEven(2.5) == 2;
  }

  // ---- why steps must be representable ---------------------------------------------------------

  /** The adjusting policy gives an order that meets both minima. */
  predicate MeetsMinima(c: InstrumentConstraints, notional: real, price: real) {
    var r := ConvertNotional(c, Adjust, notional, price);
    r.Sized? && r.order.qty >= c.minQty && r.order.notional >= c.minNotional
  }

  predicate IsInteger(x: real) {
    x == x.Floor as real
  }

  /** Two neighbouring multiples of a fraction are not both integers. */
  lemma NeighbouringMultiples(s: real, n: nat)
    requires IsInteger(StepsOf(s, n)) && IsInteger(StepsOf(s, n + 1))
    ensures IsInteger(s)
  {
    var a, b := StepsOf(s, n), StepsOf(s, n + 1);
    assert b - a == s;
    assert s == (b.Floor - a.Floor) as real;
  }

  lemma MultipleOf(k: int, n: int, s: real)
    ensures StepsOf(s, k * n) == StepsOf(StepsOf(s, n), k)
  {
    assert (k * n) as real == k as real * n as real;
  }

  lemma EvenTieRoundsDown(x: real, low: int)
    requires x == low as real + 0.5 && low % 2 == 0
    ensures RoundHalfEven(x) == low
  {
    assert x.Floor == low;
  }

  lemma BelowHalfRoundsDown(x: real, low: int)
    requires low as real < x < low as real + 0.5
    ensures RoundHalfEven(x) == low
  {
    assert x.Floor == low;
  }

  /** The error of a number that rounds up by less than one half grows with each further multiple,
      and at some multiple lies beyond one half. */
  lemma ErrorPassesHalf(x: real, up: int, e: real) returns (k: nat)
    requires 0.0 < e < 0.5 && x == up as real - e
    ensures k >= 1 && RoundHalfEven(StepsOf(x, k)) as real < StepsOf(x, k)
  {
    k := (0.5 / e).Floor + 1;
    QuotientTimes(0.5, e);
    ProductOrder(0.5 / e, k as real, e, 0.5, k as real * e);
    ProductOrder(k as real - 1.0, 0.5 / e, e, k as real * e - e, 0.5);
    assert StepsOf(x, k) == k as real * up as real - k as real * e;
    assert k as real * up as real == (k * up) as real;
    BelowHalfRoundsDown(StepsOf(x, k), k * up - 1);
  }

  /** Every number that is no integer has a multiple that rounds down. */
  lemma MultipleRoundsDown(s: real, n0: nat) returns (n: nat)
    requires n0 >= 1 && !IsInteger(StepsOf(s, n0))
    ensures n >= n0 && RoundHalfEven(StepsOf(s, n)) as real < StepsOf(s, n)
  {
    var x := StepsOf(s, n0);
    var up := RoundHalfEven(x);
    var e := up as real - x;
    if e < 0.0 {
      return n0;
    }
    assert e != 0.0;
    if e == 0.5 {
      assert x.Floor == up - 1 && up % 2 == 0;
      MultipleOf(3, n0, s);
      assert StepsOf(x, 3) == (3 * up - 2) as real + 0.5;
      EvenTieRoundsDown(StepsOf(x, 3), 3 * up - 2);
      return 3 * n0;
    }
    var k := ErrorPassesHalf(x, up, e);
    MultipleOf(k, n0, s);
    assert k * n0 >= n0;
    return k * n0;
  }

  lemma EnoughSteps(minQty: real, step: real) returns (n: nat)
    requires step > 0.0
    ensures n >= 1 && StepsOf(step, n) >= minQty
  {
    n := MaxNat(1, if minQty <= 0.0 then 1 else (minQty / step).Floor + 1);
    QuotientTimes(minQty, step);
    ProductOrder(minQty / step, n as real, step, minQty, StepsOf(step, n));
  }

  lemma ScaledSteps(step: real, n: int, scale: real)
    ensures StepsOf(step * scale, n) == StepsOf(step, n) * scale
  {
  }

  lemma QuotientBelow(qty: real, scale: real, scaled: real, units: real)
    requires scale > 0.0 && scaled == qty * scale && units < scaled
    ensures units / scale < qty
  {
    var q := units / scale;
    QuotientTimes(units, scale);
    if q >= qty {
      ProductOrder(qty, q, scale, scaled, units);
    }
  }

  /** A fraction of the precision in the step makes some larger number of steps round down. */
  lemma StepsRoundDown(step: real, scale: real, s: real, n0: nat) returns (n: nat, scaled: real)
    requires n0 >= 1 && s == step * scale && !IsInteger(s)
    ensures n >= n0 && scaled == StepsOf(step, n) * scale && RoundHalfEven(scaled) as real < scaled
  {
    n := n0;
    if IsInteger(StepsOf(s, n0)) {
      if IsInteger(StepsOf(s, n0 + 1)) {
        NeighbouringMultiples(s, n0);
      }
      n := n0 + 1;
    }
    n := MultipleRoundsDown(s, n);
    scaled := StepsOf(s, n);
    ScaledSteps(step, n, scale);
  }

  lemma RoundedDown(qty: real, decimals: nat)
    requires RoundHalfEven(InUnits(qty, decimals)) as real < InUnits(qty, decimals)
    ensures RoundToDecimals(qty, decimals) < qty
  {
    QuotientBelow(qty, Pow10(decimals) as real, InUnits(qty, decimals), RoundHalfEven(InUnits(qty, decimals)) as real);
  }

  lemma FractionalStep(c: InstrumentConstraints)
    requires c.stepSize > 0.0 && !StepRepresentable(c)
    ensures !IsInteger(InUnits(c.stepSize, c.qtyPrecision))
  {
    var s := InUnits(c.stepSize, c.qtyPrecision);
    if IsInteger(s) {
      assert IsUnits(c.stepSize, s.Floor, c.qtyPrecision);
    }
  }

  /** A quantity of steps that rounding to the precision lowers. */
  lemma SomeStepsRoundDown(c: InstrumentConstraints) returns (n: nat)
    requires c.stepSize > 0.0 && !StepRepresentable(c)
    ensures n >= 1 && StepsOf(c.stepSize, n) >= c.minQty
    ensures RoundToDecimals(StepsOf(c.stepSize, n), c.qtyPrecision) < StepsOf(c.stepSize, n)
  {
    var scale := Pow10(c.qtyPrecision) as real;
    var s := InUnits(c.stepSize, c.qtyPrecision);
    FractionalStep(c);
    var n0 := EnoughSteps(c.minQty, c.stepSize);
    var scaled;
    n, scaled := StepsRoundDown(c.stepSize, scale, s, n0);
    ProductOrder(n0 as real, n as real, c.stepSize, StepsOf(c.stepSize, n0), StepsOf(c.stepSize, n));
    assert scaled == InUnits(StepsOf(c.stepSize, n), c.qtyPrecision);
    RoundedDown(StepsOf(c.stepSize, n), c.qtyPrecision);
  }

  /** Steps that rounding lowers are, as a target, ordered too small. */
  lemma StepsOrderedTooSmall(c: InstrumentConstraints, n: nat)
    requires c.stepSize > 0.0 && RoundToDecimals(StepsOf(c.stepSize, n), c.qtyPrecision) < StepsOf(c.stepSize, n)
    ensures RoundQty(c, StepsOf(c.stepSize, n), CeilMode) < StepsOf(c.stepSize, n)
  {
    var qty := StepsOf(c.stepSize, n);
    WholeSteps(c.stepSize, n);
    assert RoundSteps(qty / c.stepSize, CeilMode) == n;
  }

  lemma WholeSteps(step: real, n: int)
    requires step > 0.0
    ensures StepsOf(step, n) / step == n as real && Ceil(StepsOf(step, n) / step) == n
  {
    TimesQuotient(n as real, step);
    CeilOfInt(n);
  }

  lemma ZeroRoundsToZero(c: InstrumentConstraints, price: real)
    requires c.stepSize > 0.0 && price > 0.0
    ensures RoundQty(c, 0.0 / price, c.roundingMode) == 0.0
  {
    assert 0.0 / price == 0.0 && 0.0 / c.stepSize == 0.0;
    assert RoundSteps(0.0, c.roundingMode) == 0;
    assert StepsOf(c.stepSize, 0) == 0.0;
    assert RoundHalfEven(0.0) == 0;
  }

  lemma PriceFor(worth: real, qty: real) returns (price: real)
    requires worth > 0.0 && qty > 0.0
    ensures price > 0.0 && Notional(qty, price) == worth && worth / price == qty
  {
    price := worth / qty;
    QuotientTimes(worth, qty);
    if price <= 0.0 {
      ProductOrder(price, 0.0, qty, worth, 0.0);
    }
    TimesQuotient(qty, price);
  }

  /** An order for nothing is raised to the minimum. */
  lemma OrderForNothing(c: InstrumentConstraints, price: real, qty: real)
    requires c.stepSize > 0.0 && c.minNotional > 0.0 && price > 0.0
    requires c.minNotional / price == qty >= c.minQty
    ensures MeetsMinima(c, 0.0, price) ==> Notional(RoundQty(c, qty, CeilMode), price) >= c.minNotional
  {
    ZeroRoundsToZero(c, price);
    assert Notional(0.0, price) == 0.0;
    assert MaxReal(c.minNotional / price, c.minQty) == qty;
  }

  lemma WorthLess(less: real, qty: real, price: real)
    requires less < qty && price > 0.0
    ensures Notional(less, price) < Notional(qty, price)
  {
    ProductOrder(less, qty, price, Notional(less, price), Notional(qty, price));
  }

  lemma StepsPositive(step: real, n: int)
    requires step > 0.0 && n >= 1
    ensures StepsOf(step, n) > 0.0
  {
    ProductOrder(1.0, n as real, step, step, StepsOf(step, n));
  }

  /** With a step that the precision cannot represent some price gives an order worth less than the
      minimum. */
  lemma SomePriceFails(c: InstrumentConstraints) returns (price: real)
    requires c.stepSize > 0.0 && c.minNotional > 0.0 && !StepRepresentable(c)
    ensures price > 0.0 && !MeetsMinima(c, 0.0, price)
  {
    var n := SomeStepsRoundDown(c);
    StepsPositive(c.stepSize, n);
    StepsOrderedTooSmall(c, n);
    var qty := StepsOf(c.stepSize, n);
    price := PriceFor(c.minNotional, qty);
    WorthLess(RoundQty(c, qty, CeilMode), qty, price);
    OrderForNothing(c, price, qty);
  }

  /** With a minimum notional, the adjusting policy meets the minima at every price if and only if the
      precision can represent the step. */
  lemma MinimaMetIffRepresentable(c: InstrumentConstraints)
    requires c.stepSize > 0.0 && c.minNotional > 0.0
    ensures (forall notional: real, price: real :: price > 0.0 ==> MeetsMinima(c, notional, price)) <==> StepRepresentable(c)
  {
    if StepRepresentable(c) {
      forall notional: real, price: real | price > 0.0
        ensures MeetsMinima(c, notional, price)
      {
        ConversionMeetsMinima(c, Adjust, notional, price);
      }
    } else {
      var price := SomePriceFails(c);
      assert !MeetsMinima(c, 0.0, price);
    }
  }

  // ---- orders for nothing ----------------------------------------------------------------------

  lemma NearestMono(x: real, y: real)
    requires x <= y
    ensures RoundHalfEven(x) <= RoundHalfEven(y)
  {
    FloorMono(x, y);
  }

  lemma DecimalsMono(x: real, y: real, decimals: nat)
    requires x <= y
    ensures RoundToDecimals(x, decimals) <= RoundToDecimals(y, decimals)
  {
    var scale := Pow10(decimals) as real;
    ProductOrder(x, y, scale, InUnits(x, decimals), InUnits(y, decimals));
    NearestMono(InUnits(x, decimals), InUnits(y, decimals));
    DivMono(RoundHalfEven(InUnits(x, decimals)) as real, RoundHalfEven(InUnits(y, decimals)) as real, scale);
  }

  lemma StepsMono(step: real, a: int, b: int)
    requires step > 0.0 && a <= b
    ensures StepsOf(step, a) <= StepsOf(step, b)
  {
    ProductOrder(a as real, b as real, step, StepsOf(step, a), StepsOf(step, b));
  }

  /** Rounding quantities up keeps their order. */
  lemma RoundUpMono(c: InstrumentConstraints, x: real, y: real)
    requires c.stepSize > 0.0 && x <= y
    ensures RoundQty(c, x, CeilMode) <= RoundQty(c, y, CeilMode)
  {
    DivMono(x, y, c.stepSize);
    FloorMono(x / c.stepSize, y / c.stepSize);
    StepsMono(c.stepSize, Ceil(x / c.stepSize), Ceil(y / c.stepSize));
    DecimalsMono(StepsOf(c.stepSize, Ceil(x / c.stepSize)), StepsOf(c.stepSize, Ceil(y / c.stepSize)), c.qtyPrecision);
  }

  /** In whatever mode, a quantity of at most one step rounds to at most what the smallest order
      rounds up to. */
  lemma RoundedSmall(c: InstrumentConstraints, x: real, smallest: real)
    requires c.stepSize > 0.0 && x <= c.stepSize && smallest > 0.0
    ensures RoundQty(c, x, c.roundingMode) <= RoundQty(c, smallest, CeilMode)
  {
    var n, one := RoundSteps(x / c.stepSize, c.roundingMode), Ceil(smallest / c.stepSize);
    QuotientTimes(x, c.stepSize);
    QuotientTimes(smallest, c.stepSize);
    AtMostOneStep(x, c.stepSize, c.roundingMode);
    SomeStep(smallest, c.stepSize);
    StepsMono(c.stepSize, n, one);
    DecimalsMono(StepsOf(c.stepSize, n), StepsOf(c.stepSize, one), c.qtyPrecision);
  }

  lemma AtMostOneStep(x: real, step: real, mode: RoundingMode)
    requires step > 0.0 && x <= step
    ensures RoundSteps(x / step, mode) <= 1
  {
    DivMono(x, step, step);
    assert x / step <= 1.0;
  }

  lemma SomeStep(x: real, step: real)
    requires step > 0.0 && x > 0.0
    ensures Ceil(x / step) >= 1
  {
    QuotientTimes(x, step);
    if x / step <= 0.0 {
      ProductOrder(x / step, 0.0, step, x, 0.0);
    }
  }

  /** No price makes the conversion give an order for nothing. */
  ghost predicate NeverForNothing(c: InstrumentConstraints, policy: MinSizePolicy, notional: real) {
    forall price: real :: ForSomething(c, policy, notional, price)
  }

  predicate ForSomething(c: InstrumentConstraints, policy: MinSizePolicy, notional: real, price: real) {
    var r := ConvertNotional(c, policy, notional, price);
    r.Sized? ==> r.order.qty > 0.0
  }

  /** The smallest order that the adjusting policy raises to is one for something. */
  predicate RaisesToSomething(c: InstrumentConstraints, policy: MinSizePolicy) {
    c.minQty > 0.0 && c.stepSize > 0.0 && (policy == Skip || RoundQty(c, c.minQty, CeilMode) > 0.0)
  }

  lemma RaisedForSomething(c: InstrumentConstraints, policy: MinSizePolicy, notional: real, price: real)
    requires RaisesToSomething(c, policy)
    ensures ForSomething(c, policy, notional, price)
  {
    if price > 0.0 {
      RoundUpMono(c, c.minQty, MaxReal(c.minNotional / price, c.minQty));
    }
  }

  /** A price so high that the notional buys at most one step, and the minimum notional at most the
      minimum quantity. */
  lemma HighPrice(notional: real, step: real, minNotional: real, minQty: real) returns (price: real)
    requires step > 0.0 && minQty > 0.0
    ensures price > 0.0 && notional / price <= step && minNotional / price <= minQty
  {
    var a, b := notional / step, minNotional / minQty;
    price := MaxReal(1.0, MaxReal(a, b));
    QuotientAtMost(notional, step, price);
    QuotientAtMost(minNotional, minQty, price);
  }

  lemma QuotientAtMost(worth: real, qty: real, price: real)
    requires qty > 0.0 && price > 0.0 && worth / qty <= price
    ensures worth / price <= qty
  {
    QuotientTimes(worth, qty);
    QuotientTimes(worth, price);
    ProductOrder(worth / qty, price, qty, worth, price * qty);
    assert price * (worth / price) <= price * qty;
    MulCancel(price, worth / price, qty);
  }

  lemma HighPriceOrdersNothing(c: InstrumentConstraints, notional: real, price: real)
    requires c.stepSize > 0.0 && c.minQty > 0.0 && RoundQty(c, c.minQty, CeilMode) <= 0.0
    requires price > 0.0 && notional / price <= c.stepSize && c.minNotional / price <= c.minQty
    ensures var r := ConvertNotional(c, Adjust, notional, price);
            r == Sized(OrderSize(RoundQty(c, c.minQty, CeilMode), Notional(RoundQty(c, c.minQty, CeilMode), price), price))
  {
    RoundedSmall(c, notional / price, c.minQty);
    assert MaxReal(c.minNotional / price, c.minQty) == c.minQty;
  }

  lemma RaisedNotNegative(c: InstrumentConstraints)
    requires c.stepSize > 0.0 && c.minQty > 0.0
    ensures RoundQty(c, c.minQty, CeilMode) >= 0.0
  {
    SomeStep(c.minQty, c.stepSize);
    StepsPositive(c.stepSize, Ceil(c.minQty / c.stepSize));
    DecimalsMono(0.0, StepsOf(c.stepSize, Ceil(c.minQty / c.stepSize)), c.qtyPrecision);
    assert InUnits(0.0, c.qtyPrecision) == 0.0 && RoundHalfEven(0.0) == 0;
  }

  /** For any notional: every price gives an order for something if and only if sizes below the
      minimum are skipped, or the minimum quantity does not round away. */
  lemma NeverForNothingIff(c: InstrumentConstraints, policy: MinSizePolicy, notional: real)
    requires c.minQty > 0.0 && c.stepSize > 0.0
    ensures NeverForNothing(c, policy, notional) <==> RaisesToSomething(c, policy)
  {
    if RaisesToSomething(c, policy) {
      forall price: real
        ensures ForSomething(c, policy, notional, price)
      {
        RaisedForSomething(c, policy, notional, price);
      }
    } else {
      var price := HighPrice(notional, c.stepSize, c.minNotional, c.minQty);
      HighPriceOrdersNothing(c, notional, price);
      assert !ForSomething(c, policy, notional, price);
    }
  }

  /** A minimum quantity that rounds away: a quarter, to no decimals. */
  lemma QuarterRoundsAway()
    ensures !RaisesToSomething(InstrumentConstraints(0.25, 0.0, 0.25, 0, FloorMode), Adjust)
  {
    var c := InstrumentConstraints(0.25, 0.0, 0.25, 0, FloorMode);
    assert RoundSteps(0.25 / 0.25, CeilMode) == 1;
    assert Pow10(0) == 1 && RoundHalfEven(0.25) == 0;
  }

  /** A positive step that the precision can represent never rounds away. */
  lemma RepresentableRaises(c: InstrumentConstraints, policy: MinSizePolicy)
    requires StepRepresentable(c) && c.minQty > 0.0
    ensures RaisesToSomething(c, policy)
  {
    RoundQtyBounds(c, c.minQty);
  }

  // ---- both ranges of the minimum notional -------------------------------------------------------

  ghost predicate AlwaysMeetsMinima(c: InstrumentConstraints) {
    forall notional: real, price: real :: price > 0.0 ==> MeetsMinima(c, notional, price)
  }

  lemma WithoutNotionalMeets(c: InstrumentConstraints, notional: real, price: real)
    requires c.stepSize > 0.0 && c.minNotional <= 0.0 && c.minQty > 0.0 && price > 0.0
    ensures MeetsMinima(c, notional, price)
            <==> Unadjusted(c, notional, price) || RoundQty(c, c.minQty, CeilMode) >= c.minQty
  {
    var adjusted := RoundQty(c, c.minQty, CeilMode);
    NoTarget(c.minNotional, price);
    assert MaxReal(c.minNotional / price, c.minQty) == c.minQty;
    if adjusted >= c.minQty {
      ProductOrder(0.0, adjusted, price, 0.0, Notional(adjusted, price));
    }
  }

  lemma NoTarget(worth: real, price: real)
    requires worth <= 0.0 && price > 0.0
    ensures worth / price <= 0.0
  {
    DivMono(worth, 0.0, price);
  }

  /** The exact condition under which the adjusting policy meets both minima at every price: with a
      minimum notional the precision must represent the step, without one only the minimum quantity
      must not be rounded down. */
  lemma MinimaMetIff(c: InstrumentConstraints)
    requires c.stepSize > 0.0 && c.minQty > 0.0
    ensures AlwaysMeetsMinima(c)
            <==> if c.minNotional > 0.0 then StepRepresentable(c) else RoundQty(c, c.minQty, CeilMode) >= c.minQty
  {
    if c.minNotional > 0.0 {
      MinimaMetIffRepresentable(c);
    } else {
      forall notional: real, price: real | price > 0.0
        ensures MeetsMinima(c, notional, price)
                <==> Unadjusted(c, notional, price) || RoundQty(c, c.minQty, CeilMode) >= c.minQty
      {
        WithoutNotionalMeets(c, notional, price);
      }
      ZeroRoundsToZero(c, 1.0);
      assert !Unadjusted(c, 0.0, 1.0);
      assert MeetsMinima(c, 0.0, 1.0) <==> RoundQty(c, c.minQty, CeilMode) >= c.minQty;
    }
  }
}
