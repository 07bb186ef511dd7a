/** Metrics of a backtest: the maximum drawdown and the monthly breakdown. */
module Metrics {
  import opened Numbers
  import opened Backtest
  import opened BacktestAccounting

  // ---- maximum drawdown --------------------------------------------------------------------

  /** Loss from a positive peak, as a part of the peak. */
  function Fall(peak: real, value: real): real
    requires peak > 0.0
  {
    (peak - value) / peak
  }

  /** What maximum drawdown means: the deepest fall from any positive point to a later one, and
      zero when nothing falls. */
  ghost predicate IsMaxDrawdown(e: seq<real>, d: real) {
    && d >= 0.0
    && (forall i, j :: 0 <= i <= j < |e| && e[i] > 0.0 ==> Fall(e[i], e[j]) <= d)
    && (d > 0.0 ==> exists i, j :: 0 <= i <= j < |e| && e[i] > 0.0 && Fall(e[i], e[j]) == d)
  }

  /** No negative equity after a positive one. */
  ghost predicate Solvent(e: seq<real>) {
    forall i, j :: 0 <= i < j < |e| && e[i] > 0.0 ==> e[j] >= 0.0
  }

  /** The running peak; it starts at zero. */
  function Peak(e: seq<real>): (p: real)
    ensures p >= 0.0 && forall i :: 0 <= i < |e| ==> e[i] <= p
    ensures p > 0.0 ==> exists i :: 0 <= i < |e| && e[i] == p
  {
    if |e| == 0 then 0.0
    else
      var init := e[..|e| - 1];
      assert forall i :: 0 <= i < |init| ==> init[i] == e[i];
      MaxReal(Peak(init), e[|e| - 1])
  }

  /** The deepest fall from the peak of the moment. */
  function FromPeak(e: seq<real>): (d: real)
    ensures d >= 0.0
  {
    if |e| == 0 then 0.0
    else
      var p := Peak(e);
      MaxReal(FromPeak(e[..|e| - 1]), if p > 0.0 then Fall(p, e[|e| - 1]) else 0.0)
  }

  function Equities(curve: seq<EquityPoint>): (e: seq<real>)
    ensures |e| == |curve| && forall i :: 0 <= i < |e| ==> e[i] == curve[i].equity
  {
    seq(|curve|, i requires 0 <= i < |curve| => curve[i].equity)
  }

  lemma SameQuotient(p: real, f: real, g: real, q: real)
    requires p > 0.0 && f * p == p - q * p && g == 1.0 - q
    ensures f == g
  {
    assert f * p == g * p;
    if f < g {
      ProductOrder(f, g, p, f * p, g * p);
    } else if g < f {
      ProductOrder(g, f, p, g * p, f * p);
    }
  }

  lemma NegativeQuotient(v: real, p: real)
    requires p > 0.0 && v < 0.0
    ensures v / p < 0.0
  {
    var q := v / p;
    QuotientTimes(v, p);
    if q >= 0.0 {
      ProductOrder(0.0, q, p, 0.0, v);
    }
  }

  lemma FallParts(p: real, v: real)
    requires p > 0.0
    ensures Fall(p, v) == 1.0 - v / p
    ensures v >= 0.0 <==> Fall(p, v) <= 1.0
  {
    var q := v / p;
    QuotientTimes(v, p);
    QuotientTimes(p - v, p);
    SameQuotient(p, Fall(p, v), 1.0 - q, q);
    if v >= 0.0 {
      DivMono(0.0, v, p);
    } else {
      NegativeQuotient(v, p);
    }
  }

  /** To a non-negative value, the fall from a higher peak is deeper. */
  lemma FallFromHigher(low: real, high: real, v: real)
    requires 0.0 < low <= high && v >= 0.0
    ensures Fall(low, v) <= Fall(high, v)
  {
    FallParts(low, v);
    FallParts(high, v);
    var a, b := v / low, v / high;
    QuotientTimes(v, low);
    QuotientTimes(v, high);
    DivMono(0.0, v, low);
    ProductOrder(low, high, a, low * a, high * a);
    MulCancel(high, b, a);
  }

  /** In one step: the falls to the last point, from a prefix that is solved already. */
  lemma LastFalls(e: seq<real>)
    requires |e| > 0 && Solvent(e)
    ensures forall i :: 0 <= i < |e| && e[i] > 0.0 ==> Fall(e[i], e[|e| - 1]) <= FromPeak(e)
    ensures Peak(e) > 0.0 ==> Fall(Peak(e), e[|e| - 1]) <= 1.0
  {
    var last := e[|e| - 1];
    forall i | 0 <= i < |e| && e[i] > 0.0
      ensures Fall(e[i], last) <= FromPeak(e)
    {
      if last >= 0.0 {
        FallFromHigher(e[i], Peak(e), last);
      }
    }
    if Peak(e) > 0.0 {
      FallParts(Peak(e), last);
    }
  }

  /** On a solvent curve no fall is deeper than the one-pass value, which is at most 1. */
  lemma {:induction false} NoDeeperFall(e: seq<real>, i: nat, j: nat)
    requires Solvent(e) && i <= j < |e| && e[i] > 0.0
    ensures Fall(e[i], e[j]) <= FromPeak(e)
  {
    if j == |e| - 1 {
      LastFalls(e);
    } else {
      NoDeeperFall(e[..|e| - 1], i, j);
    }
  }

  lemma {:induction false} AtMostOne(e: seq<real>)
    requires Solvent(e)
    ensures FromPeak(e) <= 1.0
  {
    if |e| > 0 {
      AtMostOne(e[..|e| - 1]);
      LastFalls(e);
    }
  }

  /** The one-pass value is the fall between two points of the curve. */
  lemma {:induction false} FallAttained(e: seq<real>) returns (i: nat, j: nat)
    requires FromPeak(e) > 0.0
    ensures i <= j < |e| && e[i] > 0.0 && Fall(e[i], e[j]) == FromPeak(e)
  {
    var init := e[..|e| - 1];
    if FromPeak(e) == FromPeak(init) {
      i, j := FallAttained(init);
    } else {
      i :| 0 <= i < |e| && e[i] == Peak(e);
      j := |e| - 1;
    }
  }

  /** On a solvent curve, in particular on every non-negative one, the one-pass value is the
      quadratic one and lies in [0, 1]. */
  lemma OnePassIsQuadratic(e: seq<real>)
    requires Solvent(e)
    ensures IsMaxDrawdown(e, FromPeak(e)) && FromPeak(e) <= 1.0
  {
    AtMostOne(e);
    forall i, j | 0 <= i <= j < |e| && e[i] > 0.0
      ensures Fall(e[i], e[j]) <= FromPeak(e)
    {
      NoDeeperFall(e, i, j);
    }
    if FromPeak(e) > 0.0 {
      var i, j := FallAttained(e);
    }
  }

  lemma MaxDrawdownUnique(e: seq<real>, c: real, d: real)
    requires IsMaxDrawdown(e, c) && IsMaxDrawdown(e, d)
    ensures c == d
  {
  }

  /** The one-pass drawdown exceeds 1 exactly on the curves that turn negative after a positive
      point. */
  lemma {:induction false} WithinOneIffSolvent(e: seq<real>)
    ensures FromPeak(e) <= 1.0 <==> Solvent(e)
  {
    if Solvent(e) {
      OnePassIsQuadratic(e);
    } else {
      var i, j :| 0 <= i < j < |e| && e[i] > 0.0 && e[j] < 0.0;
      BelowZero(e, i, j);
    }
  }

  lemma {:induction false} BelowZero(e: seq<real>, i: nat, j: nat)
    requires i < j < |e| && e[i] > 0.0 && e[j] < 0.0
    ensures FromPeak(e) > 1.0
  {
    if j == |e| - 1 {
      FallParts(Peak(e), e[j]);
    } else {
      BelowZero(e[..|e| - 1], i, j);
    }
  }

  /** Once equity goes negative the two differ: falling below zero from the lower of two peaks
      loses the larger part of it, and the one-pass value takes the higher peak. */
  lemma InsolventCurveDiffers()
    ensures FromPeak([1.0, 2.0, -1.0]) == 1.5
    ensures IsMaxDrawdown([1.0, 2.0, -1.0], 2.0)
  {
    var e := [1.0, 2.0, -1.0];
    assert e[..2] == [1.0, 2.0] && e[..2][..1] == [1.0] && e[..1][..0] == [];
    assert Peak([1.0]) == 1.0 && Peak(e[..2]) == 2.0 && Peak(e) == 2.0;
    assert FromPeak([1.0]) == 0.0 && FromPeak(e[..2]) == 0.0;
    assert Fall(e[0], e[2]) == 2.0;
  }

  /** The smallest positive point; zero when there is none. */
  function Low(e: seq<real>): (p: real)
    ensures p >= 0.0 && forall i :: 0 <= i < |e| && e[i] > 0.0 ==> 0.0 < p <= e[i]
    ensures p > 0.0 ==> exists i :: 0 <= i < |e| && e[i] == p
  {
    if |e| == 0 then 0.0
    else
      var init, last := e[..|e| - 1], e[|e| - 1];
      assert forall i :: 0 <= i < |init| ==> init[i] == e[i];
      if last > 0.0 && (Low(init) == 0.0 || last < Low(init)) then last else Low(init)
  }

  /** The deepest fall from the smallest positive point of the moment. */
  function FromLow(e: seq<real>): (d: real)
    ensures d >= 0.0
  {
    if |e| == 0 then 0.0
    else
      var p := Low(e);
      MaxReal(FromLow(e[..|e| - 1]), if p > 0.0 then Fall(p, e[|e| - 1]) else 0.0)
  }

  /** To a negative value, the fall from a lower point is deeper. */
  lemma FallFromLower(low: real, high: real, v: real)
    requires 0.0 < low <= high && v < 0.0
    ensures Fall(high, v) <= Fall(low, v)
  {
    FallParts(low, v);
    FallParts(high, v);
    var a, b := v / low, v / high;
    QuotientTimes(v, low);
    QuotientTimes(v, high);
    NegativeQuotient(v, low);
    ProductOrder(low, high, -a, low * -a, high * -a);
    MulCancel(high, a, b);
  }

  lemma {:induction false} EveryFall(e: seq<real>, i: nat, j: nat)
    requires i <= j < |e| && e[i] > 0.0
    ensures Fall(e[i], e[j]) <= MaxReal(FromPeak(e), FromLow(e))
  {
    if j < |e| - 1 {
      EveryFall(e[..|e| - 1], i, j);
    } else if e[j] >= 0.0 {
      FallFromHigher(e[i], Peak(e), e[j]);
    } else {
      FallFromLower(Low(e), e[i], e[j]);
    }
  }

  lemma {:induction false} LowFallAttained(e: seq<real>) returns (i: nat, j: nat)
    requires FromLow(e) > 0.0
    ensures i <= j < |e| && e[i] > 0.0 && Fall(e[i], e[j]) == FromLow(e)
  {
    var init := e[..|e| - 1];
    if FromLow(e) == FromLow(init) {
      i, j := LowFallAttained(init);
    } else {
      i :| 0 <= i < |e| && e[i] == Low(e);
      j := |e| - 1;
    }
  }

  /** On every curve the quadratic value is the deeper of the falls from the highest and from the
      smallest positive point. */
  lemma QuadraticIsDeeper(e: seq<real>)
    ensures IsMaxDrawdown(e, MaxReal(FromPeak(e), FromLow(e)))
  {
    forall i, j | 0 <= i <= j < |e| && e[i] > 0.0
      ensures Fall(e[i], e[j]) <= MaxReal(FromPeak(e), FromLow(e))
    {
      EveryFall(e, i, j);
    }
    if FromLow(e) > FromPeak(e) {
      var i, j := LowFallAttained(e);
    } else if FromPeak(e) > 0.0 {
      var i, j := FallAttained(e);
    }
  }

  /** Point p is the positive peak of the curve up to k. */
  ghost predicate PeakAt(e: seq<real>, p: nat, k: nat) {
    p <= k < |e| && e[p] > 0.0 && forall i :: 0 <= i <= k ==> e[i] <= e[p]
  }

  /** Some fall from a peak of the moment is as deep as the one from i to j. */
  ghost predicate Matched(e: seq<real>, i: nat, j: nat)
    requires i <= j < |e| && e[i] > 0.0
  {
    exists p: nat, k: nat :: PeakAt(e, p, k) && Fall(e[i], e[j]) <= Fall(e[p], e[k])
  }

  lemma {:induction false} PeakFallAttained(e: seq<real>) returns (p: nat, k: nat)
    requires FromPeak(e) > 0.0
    ensures PeakAt(e, p, k) && Fall(e[p], e[k]) == FromPeak(e)
  {
    var init := e[..|e| - 1];
    if FromPeak(e) == FromPeak(init) {
      p, k := PeakFallAttained(init);
      assert forall i :: 0 <= i <= k ==> e[i] == init[i];
    } else {
      p :| 0 <= p < |e| && e[p] == Peak(e);
      k := |e| - 1;
    }
  }

  lemma {:induction false} PeakFallCounts(e: seq<real>, p: nat, k: nat)
    requires PeakAt(e, p, k)
    ensures Fall(e[p], e[k]) <= FromPeak(e)
  {
    if k == |e| - 1 {
      assert Peak(e) == e[p];
    } else {
      assert forall i :: 0 <= i <= k ==> e[..|e| - 1][i] == e[i];
      PeakFallCounts(e[..|e| - 1], p, k);
    }
  }

  /** A fall to a non-negative value is never deeper than the one from the peak of the moment. */
  lemma {:induction false} FallAboveZero(e: seq<real>, i: nat, j: nat)
    requires i <= j < |e| && e[i] > 0.0 && e[j] >= 0.0
    ensures Fall(e[i], e[j]) <= FromPeak(e)
  {
    if j == |e| - 1 {
      FallFromHigher(e[i], Peak(e), e[j]);
    } else {
      FallAboveZero(e[..|e| - 1], i, j);
    }
  }

  /** Every fall below zero, from whatever point, is matched by one from the peak of its moment. */
  ghost predicate AllMatched(e: seq<real>) {
    forall i, j :: 0 <= i <= j < |e| && e[i] > 0.0 && e[j] < 0.0 ==> Matched(e, i, j)
  }

  lemma MaxDrawdownMatches(e: seq<real>, i: nat, j: nat)
    requires IsMaxDrawdown(e, FromPeak(e)) && i <= j < |e| && e[i] > 0.0 && e[j] < 0.0
    ensures Matched(e, i, j)
  {
    FallParts(e[i], e[j]);
    assert Fall(e[i], e[j]) <= FromPeak(e);
    var p, k := PeakFallAttained(e);
  }

  lemma NoFallDeeper(e: seq<real>, i: nat, j: nat)
    requires AllMatched(e) && i <= j < |e| && e[i] > 0.0
    ensures Fall(e[i], e[j]) <= FromPeak(e)
  {
    if e[j] >= 0.0 {
      FallAboveZero(e, i, j);
    } else {
      assert Matched(e, i, j);
      var p: nat, k: nat :| PeakAt(e, p, k) && Fall(e[i], e[j]) <= Fall(e[p], e[k]);
      PeakFallCounts(e, p, k);
    }
  }

  /** The one-pass value is the quadratic one if and only if that holds of the curve. */
  lemma OnePassIsQuadraticIff(e: seq<real>)
    ensures IsMaxDrawdown(e, FromPeak(e)) <==> AllMatched(e)
  {
    if IsMaxDrawdown(e, FromPeak(e)) {
      forall i, j | 0 <= i <= j < |e| && e[i] > 0.0 && e[j] < 0.0
        ensures Matched(e, i, j)
      {
        MaxDrawdownMatches(e, i, j);
      }
    }
    if AllMatched(e) {
      forall i, j | 0 <= i <= j < |e| && e[i] > 0.0
        ensures Fall(e[i], e[j]) <= FromPeak(e)
      {
        NoFallDeeper(e, i, j);
      }
      if FromPeak(e) > 0.0 {
        var i, j := FallAttained(e);
      }
    }
  }

  lemma NextPoint(e: seq<real>, k: nat)
    requires k < |e|
    ensures Peak(e[..k + 1]) == MaxReal(Peak(e[..k]), e[k])
    ensures var p := Peak(e[..k + 1]);
            FromPeak(e[..k + 1]) == MaxReal(FromPeak(e[..k]), if p > 0.0 then Fall(p, e[k]) else 0.0)
  {
    assert e[..k + 1][..k] == e[..k];
  }

  lemma WholeCurve(e: seq<real>)
    ensures Solvent(e) ==> IsMaxDrawdown(e, FromPeak(e))
    ensures FromPeak(e) <= 1.0 <==> Solvent(e)
  {
    WithinOneIffSolvent(e);
    if Solvent(e) {
      OnePassIsQuadratic(e);
    }
  }

  /** The drawdown loop: one pass that keeps the peak and the deepest fall. */
  method MaxDrawdown(curve: seq<EquityPoint>) returns (maxDrawdown: real)
    ensures maxDrawdown == FromPeak(Equities(curve))
    ensures Solvent(Equities(curve)) ==> IsMaxDrawdown(Equities(curve), maxDrawdown)
    ensures maxDrawdown <= 1.0 <==> Solvent(Equities(curve))
  {
    ghost var e := Equities(curve);
    var peak := 0.0;
    maxDrawdown := 0.0;
    for k := 0 to |curve|
      invariant peak == Peak(e[..k]) && maxDrawdown == FromPeak(e[..k])
    {
      NextPoint(e, k);
      var equity := curve[k].equity;
      if equity > peak {
        peak := equity;
      }
      if peak > 0.0 {
        var drawdown := Fall(peak, equity);
        if drawdown > maxDrawdown {
          maxDrawdown := drawdown;
        }
      }
    }
    assert e[..|curve|] == e;
    WholeCurve(e);
  }

  // ---- monthly breakdown -------------------------------------------------------------------

  /** A calendar month. */
  datatype Month = Month(year: int, month: nat)

  /** PnL of the trades that closed in a month of the calendar `monthOf`. */
  function MonthSum(trades: seq<Trade>, monthOf: int -> Month, key: Month): real {
    if |trades| == 0 then 0.0
    else
      var last := trades[|trades| - 1];
      MonthSum(trades[..|trades| - 1], monthOf, key) + (if monthOf(last.exitTime) == key then last.pnl else 0.0)
  }

  predicate Earlier(a: Month, b: Month) {
    a.year < b.year || (a.year == b.year && a.month < b.month)
  }

  datatype BreakdownRow = BreakdownRow(key: Month, pnl: real)

  /** The rows as an ordered map holds them: by month, each month once. */
  ghost predicate Ascending(rows: seq<BreakdownRow>) {
    forall i, j :: 0 <= i < j < |rows| ==> Earlier(rows[i].key, rows[j].key)
  }

  ghost predicate HasMonth(rows: seq<BreakdownRow>, key: Month) {
    exists i :: 0 <= i < |rows| && rows[i].key == key
  }

  /** Sum of the rows of a month. */
  function Booked(rows: seq<BreakdownRow>, key: Month): real {
    if |rows| == 0 then 0.0 else (if rows[0].key == key then rows[0].pnl else 0.0) + Booked(rows[1..], key)
  }

  /** Sum of all rows of a breakdown. */
  function RowSum(rows: seq<BreakdownRow>): real {
    if |rows| == 0 then 0.0 else rows[0].pnl + RowSum(rows[1..])
  }

  /** The entry of a month raised by `pnl`; a new one starts at zero. */
  function AddTo(rows: seq<BreakdownRow>, key: Month, pnl: real): seq<BreakdownRow> {
    if |rows| == 0 || Earlier(key, rows[0].key) then [BreakdownRow(key, 0.0 + pnl)] + rows
    else if rows[0].key == key then [BreakdownRow(key, rows[0].pnl + pnl)] + rows[1..]
    else [rows[0]] + AddTo(rows[1..], key, pnl)
  }

  lemma {:induction false} AddToSums(rows: seq<BreakdownRow>, key: Month, pnl: real, any: Month)
    ensures RowSum(AddTo(rows, key, pnl)) == RowSum(rows) + pnl
    ensures Booked(AddTo(rows, key, pnl), any) == Booked(rows, any) + (if any == key then pnl else 0.0)
  {
    if |rows| == 0 || Earlier(key, rows[0].key) {
      assert ([BreakdownRow(key, 0.0 + pnl)] + rows)[1..] == rows;
    } else if rows[0].key == key {
      assert ([BreakdownRow(key, rows[0].pnl + pnl)] + rows[1..])[1..] == rows[1..];
    } else {
      AddToSums(rows[1..], key, pnl, any);
      assert ([rows[0]] + AddTo(rows[1..], key, pnl))[1..] == AddTo(rows[1..], key, pnl);
    }
  }

  lemma {:induction false} AddToMonths(rows: seq<BreakdownRow>, key: Month, pnl: real, i: nat)
    requires i < |AddTo(rows, key, pnl)|
    ensures AddTo(rows, key, pnl)[i].key == key || HasMonth(rows, AddTo(rows, key, pnl)[i].key)
  {
    if |rows| > 0 && !Earlier(key, rows[0].key) && rows[0].key != key && i > 0 {
      AddToMonths(rows[1..], key, pnl, i - 1);
      var k := AddTo(rows[1..], key, pnl)[i - 1].key;
      if k != key {
        var j :| 0 <= j < |rows[1..]| && rows[1..][j].key == k;
        assert rows[j + 1].key == k;
      }
    }
  }

  lemma {:induction false} AddToHas(rows: seq<BreakdownRow>, key: Month, pnl: real, any: Month)
    requires any == key || HasMonth(rows, any)
    ensures HasMonth(AddTo(rows, key, pnl), any)
  {
    var more := AddTo(rows, key, pnl);
    if |rows| == 0 || Earlier(key, rows[0].key) || rows[0].key == key {
      assert more[0].key == key;
      if any != key {
        var j :| 0 <= j < |rows| && rows[j].key == any;
        assert more[if |more| == |rows| then j else j + 1].key == any;
      }
    } else if rows[0].key == any {
      assert more[0].key == any;
    } else {
      if any != key {
        var j :| 0 <= j < |rows| && rows[j].key == any;
        assert rows[1..][j - 1].key == any;
      }
      AddToHas(rows[1..], key, pnl, any);
      var j :| 0 <= j < |more| - 1 && AddTo(rows[1..], key, pnl)[j].key == any;
      assert more[j + 1].key == any;
    }
  }

  lemma {:induction false} AddToAscending(rows: seq<BreakdownRow>, key: Month, pnl: real)
    requires Ascending(rows)
    ensures Ascending(AddTo(rows, key, pnl))
  {
    if |rows| > 0 && !Earlier(key, rows[0].key) && rows[0].key != key {
      var rest := AddTo(rows[1..], key, pnl);
      AddToAscending(rows[1..], key, pnl);
      forall j | 0 <= j < |rest|
        ensures Earlier(rows[0].key, rest[j].key)
      {
        AddToMonths(rows[1..], key, pnl, j);
      }
    }
  }

  /** A month is in an ordered breakdown at most once, with its whole sum. */
  lemma {:induction false} BookedOnce(rows: seq<BreakdownRow>, i: nat)
    requires Ascending(rows) && i < |rows|
    ensures Booked(rows, rows[i].key) == rows[i].pnl
  {
    if i == 0 {
      NotBooked(rows[1..], rows[0].key);
    } else {
      BookedOnce(rows[1..], i - 1);
    }
  }

  lemma {:induction false} NotBooked(rows: seq<BreakdownRow>, key: Month)
    requires forall i :: 0 <= i < |rows| ==> rows[i].key != key
    ensures Booked(rows, key) == 0.0
  {
    if |rows| > 0 {
      NotBooked(rows[1..], key);
    }
  }

  ghost predicate ExitsIn(trades: seq<Trade>, monthOf: int -> Month, key: Month) {
    exists i :: 0 <= i < |trades| && monthOf(trades[i].exitTime) == key
  }

  /** The rows are the months with exits, in order, each with the PnL of its trades. */
  ghost predicate Breaks(rows: seq<BreakdownRow>, trades: seq<Trade>, monthOf: int -> Month) {
    && Ascending(rows) && RowSum(rows) == TradeSum(trades)
    && (forall key :: HasMonth(rows, key) <==> ExitsIn(trades, monthOf, key))
    && (forall key :: Booked(rows, key) == MonthSum(trades, monthOf, key))
  }

  lemma ExitsSnoc(trades: seq<Trade>, last: Trade, monthOf: int -> Month, key: Month)
    ensures ExitsIn(trades + [last], monthOf, key) <==> ExitsIn(trades, monthOf, key) || monthOf(last.exitTime) == key
  {
    if ExitsIn(trades, monthOf, key) {
      var i :| 0 <= i < |trades| && monthOf(trades[i].exitTime) == key;
      assert monthOf((trades + [last])[i].exitTime) == key;
    }
    if monthOf(last.exitTime) == key {
      assert monthOf((trades + [last])[|trades|].exitTime) == key;
    }
  }

  lemma BreaksStep(rows: seq<BreakdownRow>, trades: seq<Trade>, monthOf: int -> Month, last: Trade)
    requires Breaks(rows, trades, monthOf)
    ensures Breaks(AddTo(rows, monthOf(last.exitTime), last.pnl), trades + [last], monthOf)
  {
    var key := monthOf(last.exitTime);
    var more := AddTo(rows, key, last.pnl);
    AddToAscending(rows, key, last.pnl);
    assert (trades + [last])[..|trades|] == trades;
    AddToSums(rows, key, last.pnl, key);
    forall any
      ensures Booked(more, any) == MonthSum(trades + [last], monthOf, any)
    {
      AddToSums(rows, key, last.pnl, any);
    }
    forall any
      ensures HasMonth(more, any) <==> ExitsIn(trades + [last], monthOf, any)
    {
      ExitsSnoc(trades, last, monthOf, any);
      if HasMonth(more, any) {
        var i :| 0 <= i < |more| && more[i].key == any;
        AddToMonths(rows, key, last.pnl, i);
      }
      if any == key || HasMonth(rows, any) {
        AddToHas(rows, key, last.pnl, any);
      }
    }
  }

  /** The rows by month in ascending order: exactly the months in which trades closed, each with the
      PnL of those trades, and no PnL lost. */
  method BreakdownMonthly(trades: seq<Trade>, monthOf: int -> Month) returns (rows: seq<BreakdownRow>)
    ensures Ascending(rows) && RowSum(rows) == TradeSum(trades)
    ensures forall key :: HasMonth(rows, key) <==> ExitsIn(trades, monthOf, key)
    ensures forall i :: 0 <= i < |rows| ==> rows[i].pnl == MonthSum(trades, monthOf, rows[i].key)
  {
    rows := [];
    for k := 0 to |trades|
      invariant Breaks(rows, trades[..k], monthOf)
    {
      BreaksStep(rows, trades[..k], monthOf, trades[k]);
      assert trades[..k + 1] == trades[..k] + [trades[k]];
      rows := AddTo(rows, monthOf(trades[k].exitTime), trades[k].pnl);
    }
    assert trades[..|trades|] == trades;
    forall i | 0 <= i < |rows|
      ensures rows[i].pnl == MonthSum(trades, monthOf, rows[i].key)
    {
      BookedOnce(rows, i);
    }
  }
}
