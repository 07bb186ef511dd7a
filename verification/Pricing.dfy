/** Rounding and requoting of order prices. */
module Pricing {
  import opened Numbers
  import opened Trading

  datatype OrderSide = Buy | Sell

  /** The side that reduces a signed quantity. */
  function CloseForQty(qty: real): OrderSide {
    if qty > 0.0 then Sell else Buy
  }

  /** Number of decimal digits of a natural number. */
  function IntDigits(n: nat): nat {
    if n < 10 then 1 else 1 + IntDigits(n / 10)
  }

  /** Decimals that leave at most five significant digits. */
  function PriceDecimals(price: real): nat
    requires price > 0.0
  {
    var digits := if price < 1.0 then 0 else IntDigits(price.Floor);
    var decimals := if digits >= 5 then 0 else 5 - digits;
    if decimals < 6 then decimals else 6
  }

  /** `price` rounded to a multiple of one part in `scale`: up for a buy, down for a sell. */
  function GridAt(price: real, scale: real, side: OrderSide): real
    requires scale > 0.0
  {
    match side
    case Buy => Ceil(price * scale) as real / scale
    case Sell => (price * scale).Floor as real / scale
  }

  function RoundDp(price: real, decimals: nat, side: OrderSide): real {
    GridAt(price, Pow10(decimals) as real, side)
  }

  /** The price actually sent; None is the fatal error of an unusable price. */
  function AlignPrice(price: real, side: OrderSide): Option<real> {
    if price <= 0.0 then None
    else
      var rounded := RoundDp(price, PriceDecimals(price), side);
      if rounded <= 0.0 then None else Some(rounded)
  }

  // ---- price bands -------------------------------------------------------------------

  /** Bands of equal precision: 0 below 1, then one per digit, 5 from 10000 up. */
  function Band(price: real): nat {
    if price < 1.0 then 0
    else if price < 10.0 then 1
    else if price < 100.0 then 2
    else if price < 1000.0 then 3
    else if price < 10000.0 then 4
    else 5
  }

  /** Grid points per unit of price in a band. */
  function Scale(band: nat): (r: real)
    ensures r > 0.0
  {
    if band == 0 then 100000.0
    else if band == 1 then 10000.0
    else if band == 2 then 1000.0
    else if band == 3 then 100.0
    else if band == 4 then 10.0
    else 1.0
  }

  /** Least price of a band above the first; every one is an integer. */
  function Low(band: nat): int {
    if band <= 1 then 1
    else if band == 2 then 10
    else if band == 3 then 100
    else if band == 4 then 1000
    else 10000
  }

  lemma ManyDigits(n: nat)
    requires n >= 10000
    ensures IntDigits(n) >= 5
  {
    assert n / 10 >= 1000;
    FourDigits(n / 10);
  }

  lemma FourDigits(n: nat)
    requires n >= 1000
    ensures IntDigits(n) >= 4
  {
    assert n / 10 >= 100;
    assert n / 10 / 10 >= 10;
    assert IntDigits(n / 10 / 10) >= 2;
  }

  lemma Powers()
    ensures Pow10(0) == 1 && Pow10(1) == 10 && Pow10(2) == 100
    ensures Pow10(3) == 1000 && Pow10(4) == 10000 && Pow10(5) == 100000
  {
    assert Pow10(2) == 10 * Pow10(1);
    assert Pow10(3) == 10 * Pow10(2);
    assert Pow10(4) == 10 * Pow10(3);
    assert Pow10(5) == 10 * Pow10(4);
  }

  lemma DigitsOf(n: nat)
    requires 1 <= n < 10000
    ensures IntDigits(n) == if n < 10 then 1 else if n < 100 then 2 else if n < 1000 then 3 else 4
  {
    var a := n / 10;
    var b := a / 10;
    assert IntDigits(b) == if b < 10 then 1 else 1 + IntDigits(b / 10);
  }

  /** Counting digits selects the scale of the price's band. */
  lemma ScaleOfPrice(price: real)
    requires price > 0.0
    ensures Pow10(PriceDecimals(price)) as real == Scale(Band(price))
  {
    Powers();
    if price >= 10000.0 {
      ManyDigits(price.Floor);
    } else if price >= 1.0 {
      DigitsOf(price.Floor);
    }
  }

  function Grid(price: real, side: OrderSide): real {
    GridAt(price, Scale(Band(price)), side)
  }

  lemma AlignIsGrid(price: real, side: OrderSide)
    requires price > 0.0
    ensures AlignPrice(price, side) == if Grid(price, side) <= 0.0 then None else Some(Grid(price, side))
  {
    ScaleOfPrice(price);
  }

  lemma QuotientsNear(a: real, b: real, scale: real)
    requires scale > 0.0 && a <= b < a + 1.0
    ensures a / scale <= b / scale < a / scale + 1.0 / scale
  {
    assert (a + 1.0) / scale == a / scale + 1.0 / scale;
    DivMono(a, b, scale);
    DivStrict(b, a + 1.0, scale);
  }

  lemma WithinTick(price: real, scale: real)
    requires scale > 0.0
    ensures price <= GridAt(price, scale, Buy) < price + 1.0 / scale
    ensures price - 1.0 / scale < GridAt(price, scale, Sell) <= price
  {
    var y := price * scale;
    TimesQuotient(price, scale);
    QuotientsNear(y, Ceil(y) as real, scale);
    QuotientsNear(y.Floor as real, y, scale);
  }

  lemma DivStrict(a: real, b: real, c: real)
    requires a < b && 0.0 < c
    ensures a / c < b / c
  {
  }

  /** Rounding stays within one tick on the safe side, and never leaves the band except upward
      to its upper bound. */
  lemma GridBounds(price: real)
    requires price > 0.0
    ensures var tick := 1.0 / Scale(Band(price));
            && price <= Grid(price, Buy) < price + tick
            && price - tick < Grid(price, Sell) <= price
    ensures Band(price) < 5 ==> Grid(price, Buy) <= Low(Band(price) + 1) as real
    ensures Band(price) > 0 ==> Grid(price, Sell) >= Low(Band(price)) as real
  {
    WithinTick(price, Scale(Band(price)));
  }

  // ---- properties ---------------------------------------------------------------------

  /** Rounding fails exactly for non-positive prices and for sells below the finest grid. */
  lemma AlignFailsExactly(price: real, side: OrderSide)
    ensures AlignPrice(price, side).None? <==> price <= 0.0 || (side == Sell && price < 0.00001)
  {
    if price > 0.0 {
      AlignIsGrid(price, side);
      GridBounds(price);
    }
  }

  /** A buy never pays less and a sell never asks more than the wanted price, by less than a
      tick; from price 1 up the deviation is at most one part in ten thousand. */
  lemma AlignSideSafe(price: real, side: OrderSide)
    requires AlignPrice(price, side).Some?
    ensures var aligned := AlignPrice(price, side).value;
            && (side == Buy ==> price <= aligned)
            && (side == Sell ==> aligned <= price)
            && Abs(aligned - price) < 1.0 / Scale(Band(price))
            && (price >= 1.0 ==> Abs(aligned - price) * 10000.0 <= price)
  {
    AlignIsGrid(price, side);
    GridBounds(price);
  }

  /** Rounding can only leave the band of a price by reaching the next band's lower bound. */
  lemma GridBand(price: real, side: OrderSide)
    requires price > 0.0 && Grid(price, side) > 0.0
    ensures var aligned := Grid(price, side);
            Band(aligned) == Band(price) || (Band(aligned) > 0 && aligned == Low(Band(aligned)) as real)
  {
    GridBounds(price);
  }

  lemma GridIdempotent(price: real, side: OrderSide, again: OrderSide)
    requires price > 0.0 && Grid(price, side) > 0.0
    ensures Grid(Grid(price, side), again) == Grid(price, side)
  {
    GridBand(price, side);
    if Band(Grid(price, side)) == Band(price) {
      GridPoint(price, Scale(Band(price)), side, again);
    } else {
      BoundaryOnGrid(Grid(price, side), again);
    }
  }

  lemma GridPoint(price: real, scale: real, side: OrderSide, again: OrderSide)
    requires scale > 0.0
    ensures GridAt(GridAt(price, scale, side), scale, again) == GridAt(price, scale, side)
  {
    var k := if side == Buy then Ceil(price * scale) else (price * scale).Floor;
    assert GridAt(price, scale, side) == k as real / scale;
    OnGridFixed(k, scale, again);
  }

  /** An aligned price is a fixed point for either side. */
  lemma AlignIdempotent(price: real, side: OrderSide, again: OrderSide)
    requires AlignPrice(price, side).Some?
    ensures AlignPrice(AlignPrice(price, side).value, again) == AlignPrice(price, side)
  {
    AlignIsGrid(price, side);
    GridIdempotent(price, side, again);
    AlignIsGrid(Grid(price, side), again);
  }

  lemma OnGridFixed(k: int, scale: real, side: OrderSide)
    requires scale > 0.0
    ensures GridAt(k as real / scale, scale, side) == k as real / scale
  {
    QuotientTimes(k as real, scale);
    GridOfMultiple(k as real / scale, scale, k, side);
  }

  lemma GridOfMultiple(price: real, scale: real, k: int, side: OrderSide)
    requires scale > 0.0 && price * scale == k as real
    ensures GridAt(price, scale, side) == k as real / scale
  {
    CeilOfInt(k);
  }

  lemma BoundaryOnGrid(price: real, side: OrderSide)
    requires Band(price) > 0 && price == Low(Band(price)) as real
    ensures Grid(price, side) == price
  {
    var scale := Scale(Band(price));
    var k := Low(Band(price)) *
             (if Band(price) == 1 then 10000 else if Band(price) == 2 then 1000
              else if Band(price) == 3 then 100 else if Band(price) == 4 then 10 else 1);
    assert price == k as real / scale;
    OnGridFixed(k, scale, side);
  }

  /** Rounding preserves the order of prices, also across bands of different precision. */
  lemma AlignMonotone(low: real, high: real, side: OrderSide)
    requires low <= high && AlignPrice(low, side).Some?
    ensures AlignPrice(high, side).Some?
    ensures AlignPrice(low, side).value <= AlignPrice(high, side).value
  {
    AlignIsGrid(low, side);
    AlignIsGrid(high, side);
    GridBounds(low);
    GridBounds(high);
    if Band(low) == Band(high) {
      SameBandMonotone(low, high, side);
    } else {
      assert Low(Band(low) + 1) <= Low(Band(high));
    }
  }

  lemma SameBandMonotone(low: real, high: real, side: OrderSide)
    requires 0.0 < low <= high && Band(low) == Band(high)
    ensures Grid(low, side) <= Grid(high, side)
  {
    GridAtMonotone(low, high, Scale(Band(low)), side);
  }

  lemma GridAtMonotone(low: real, high: real, scale: real, side: OrderSide)
    requires low <= high && scale > 0.0
    ensures GridAt(low, scale, side) <= GridAt(high, scale, side)
  {
    MulMono(low, high, scale);
    FloorMono(low * scale, high * scale);
    DivMono(Ceil(low * scale) as real, Ceil(high * scale) as real, scale);
    DivMono((low * scale).Floor as real, (high * scale).Floor as real, scale);
  }

  // ---- requoting -----------------------------------------------------------------------

  /** Every retry widens the price by 15 basis points, at most by 120. */
  function Bump(attempt: nat): (r: real)
    ensures 0.0 <= r <= 0.012
  {
    (if attempt * 15 < 120 then attempt * 15 else 120) as real / 10000.0
  }

  /** The price of the given attempt of a market order; None is the fatal error. */
  function RequotedMarketPrice(base: real, side: OrderSide, attempt: nat): Option<real> {
    if base <= 0.0 then None
    else if attempt == 0 then Some(base)
    else
      var adjusted := if side == Buy then base * (1.0 + Bump(attempt)) else base * (1.0 - Bump(attempt));
      if adjusted <= 0.0 then None else Some(adjusted)
  }

  function Widening(base: real, attempt: nat): real {
    Bump(attempt) * base
  }

  lemma RequoteValue(base: real, side: OrderSide, attempt: nat)
    requires base > 0.0
    ensures RequotedMarketPrice(base, side, attempt)
            == Some(if side == Buy then base + Widening(base, attempt) else base - Widening(base, attempt))
  {
    var bump := Bump(attempt);
    ProductOrder(bump, 0.012, base, bump * base, 0.012 * base);
    assert base * (1.0 + bump) == base + bump * base;
    assert base * (1.0 - bump) == base - bump * base;
    ProductOrder(0.0, bump, base, 0.0, bump * base);
  }

  lemma WideningOrder(base: real, earlier: nat, later: nat)
    requires base > 0.0 && earlier <= later
    ensures 0.0 <= Widening(base, earlier) <= Widening(base, later) <= 0.012 * base
  {
    ProductOrder(Bump(earlier), Bump(later), base, Widening(base, earlier), Widening(base, later));
    ProductOrder(Bump(later), 0.012, base, Widening(base, later), 0.012 * base);
    ProductOrder(0.0, Bump(earlier), base, 0.0, Widening(base, earlier));
  }

  /** Requoting never fails on a positive base; each retry is at least as aggressive as the one
      before, and none moves more than 120 basis points. */
  lemma RequoteAggressive(base: real, side: OrderSide, earlier: nat, later: nat)
    requires base > 0.0 && earlier <= later
    ensures RequotedMarketPrice(base, side, earlier).Some? && RequotedMarketPrice(base, side, later).Some?
    ensures var p, q := RequotedMarketPrice(base, side, earlier).value, RequotedMarketPrice(base, side, later).value;
            && (side == Buy ==> base <= p <= q <= base * 1.012)
            && (side == Sell ==> base * 0.988 <= q <= p <= base)
  {
    RequoteValue(base, side, earlier);
    RequoteValue(base, side, later);
    WideningOrder(base, earlier, later);
  }

  /** How far a sent price lies from the one wanted for its attempt. */
  lemma AlignedRequote(base: real, side: OrderSide, attempt: nat)
    requires base > 0.0
    ensures var q := RequotedMarketPrice(base, side, attempt);
            && q.Some? && (AlignPrice(q.value, side).None? <==> side == Sell && q.value < 0.00001)
            && (AlignPrice(q.value, side).Some? ==>
                  var b := AlignPrice(q.value, side).value;
                  var tick := 1.0 / Scale(Band(q.value));
                  && (side == Buy ==> q.value <= b < base * 1.012 + tick)
                  && (side == Sell ==> base * 0.988 - tick < b <= q.value)
                  && (q.value >= 1.0 && side == Buy ==> b <= base * 1.012 * 1.0001)
                  && (q.value >= 1.0 && side == Sell ==> base * 0.988 * 0.9999 <= b))
  {
    RequoteAggressive(base, side, attempt, attempt);
    var q := RequotedMarketPrice(base, side, attempt).value;
    AlignFailsExactly(q, side);
    if AlignPrice(q, side).Some? {
      AlignSideSafe(q, side);
    }
  }

  /** The prices actually sent on successive retries move only in the aggressive direction, and
      pass 120 basis points by less than one tick: one part in ten thousand from price 1 up.  Only a
      sell requoted below the finest tick has no price, and then no later retry has one. */
  lemma AlignedRequoteAggressive(base: real, side: OrderSide, earlier: nat, later: nat)
    requires base > 0.0 && earlier <= later
    ensures var p := RequotedMarketPrice(base, side, earlier);
            var q := RequotedMarketPrice(base, side, later);
            && p.Some? && q.Some? && (AlignPrice(q.value, side).None? <==> side == Sell && q.value < 0.00001)
            && (AlignPrice(q.value, side).Some? ==>
                  && AlignPrice(p.value, side).Some?
                  && var a, b := AlignPrice(p.value, side).value, AlignPrice(q.value, side).value;
                     var tick := 1.0 / Scale(Band(q.value));
                     && (side == Buy ==> base <= a <= b < base * 1.012 + tick)
                     && (side == Sell ==> base * 0.988 - tick < b <= a <= base)
                     && (q.value >= 1.0 && side == Buy ==> b <= base * 1.012 * 1.0001)
                     && (q.value >= 1.0 && side == Sell ==> base * 0.988 * 0.9999 <= b))
  {
    RequoteAggressive(base, side, earlier, later);
    AlignedRequote(base, side, earlier);
    AlignedRequote(base, side, later);
    var p, q := RequotedMarketPrice(base, side, earlier).value, RequotedMarketPrice(base, side, later).value;
    if AlignPrice(q, side).Some? {
      if side == Buy {
        AlignMonotone(p, q, side);
      } else {
        AlignMonotone(q, p, side);
      }
    }
  }
}
