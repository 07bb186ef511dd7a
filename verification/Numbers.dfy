/** Exact arithmetic shared by the model.  A `Decimal` of the program is a `real` here. */
module Numbers {

  function Abs(x: real): (r: real)
    ensures r >= 0.0 && (r == x || r == -x)
  {
    if x < 0.0 then -x else x
  }

  function MaxReal(x: real, y: real): (r: real)
    ensures r >= x && r >= y && (r == x || r == y)
  {
    if x < y then y else x
  }

  function MaxNat(x: nat, y: nat): (r: nat)
    ensures r >= x && r >= y && (r == x || r == y)
  {
    if x < y then y else x
  }

  /** Least integer not below `x`. */
  function Ceil(x: real): (n: int)
    ensures (n - 1) as real < x <= n as real
  {
    -((-x).Floor)
  }

  /** Nearest integer; a tie goes to the even neighbour (banker's rounding). */
  function RoundHalfEven(x: real): (n: int)
    ensures -0.5 <= x - n as real <= 0.5 && (Abs(x - n as real) == 0.5 ==> n % 2 == 0)
  {
    var low := x.Floor;
    var rest := x - low as real;
    if rest < 0.5 then low
    else if rest > 0.5 then low + 1
    else if low % 2 == 0 then low
    else low + 1
  }

  lemma CeilOfInt(n: int)
    ensures (n as real).Floor == n && Ceil(n as real) == n
  {
  }

  lemma FloorBetween(x: real, low: int, high: int)
    requires low as real <= x <= high as real
    ensures low <= x.Floor <= high
  {
  }

  lemma FloorMono(x: real, y: real)
    requires x <= y
    ensures x.Floor <= y.Floor && Ceil(x) <= Ceil(y)
  {
  }

  lemma RoundOfInt(n: int)
    ensures RoundHalfEven(n as real) == n
  {
  }

  function Pow10(n: nat): (r: int)
    ensures r >= 1
  {
    if n == 0 then 1 else 10 * Pow10(n - 1)
  }

  /** Left-to-right sum, as an accumulating loop computes it. */
  function Sum(s: seq<real>): real
  {
    if |s| == 0 then 0.0 else Sum(s[..|s| - 1]) + s[|s| - 1]
  }

  lemma SumSnoc(s: seq<real>, x: real)
    ensures Sum(s + [x]) == Sum(s) + x
  {
    assert (s + [x])[..|s|] == s;
  }

  lemma {:induction false} SumConcat(s: seq<real>, t: seq<real>)
    ensures Sum(s + t) == Sum(s) + Sum(t)
  {
    if |t| == 0 {
      assert s + t == s;
    } else {
      SumConcat(s, t[..|t| - 1]);
      assert (s + t)[..|s + t| - 1] == s + t[..|t| - 1];
    }
  }

  lemma MulMono(a: real, b: real, c: real)
    requires a <= b && 0.0 <= c
    ensures a * c <= b * c
  {
  }

  lemma MulStrict(a: real, b: real, c: real)
    requires a < b && 0.0 < c
    ensures a * c < b * c
  {
  }

  lemma QuotientTimes(a: real, b: real)
    requires b != 0.0
    ensures (a / b) * b == a
  {
  }

  lemma TimesQuotient(a: real, b: real)
    requires b != 0.0
    ensures (a * b) / b == a
  {
  }

  lemma MulCancel(n: real, a: real, b: real)
    requires n > 0.0 && n * a <= n * b
    ensures a <= b
  {
    if b < a {
      MulStrict(b, a, n);
    }
  }

  lemma DivMono(a: real, b: real, c: real)
    requires a <= b && 0.0 < c
    ensures a / c <= b / c
  {
  }

  function Sq(x: real): (r: real)
    ensures r >= 0.0
  {
    x * x
  }

  lemma ProductOrder(a: real, b: real, c: real, p: real, q: real)
    requires 0.0 <= c && a <= b && p == a * c && q == b * c
    ensures p <= q && (0.0 < c && a < b ==> p < q)
  {
  }

  lemma SqPositive(a: real)
    requires a > 0.0
    ensures Sq(a) > 0.0
  {
    ProductOrder(0.0, a, a, 0.0, Sq(a));
  }

  lemma SqOfProduct(a: real, b: real)
    ensures Sq(a * b) == Sq(a) * Sq(b)
  {
  }

  lemma SqMono(a: real, b: real)
    requires 0.0 <= a <= b
    ensures Sq(a) <= Sq(b)
  {
    ProductOrder(a, b, a, Sq(a), a * b);
    ProductOrder(a, b, b, a * b, Sq(b));
  }
}
