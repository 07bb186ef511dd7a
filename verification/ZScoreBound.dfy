/** No z-score can exceed the square root of its window length minus one. */
module ZScoreBound {
  import opened Numbers
  import opened Trading
  import opened Indicators

  /** Sum of signed distances from `mean`. */
  function Deviation(w: seq<real>, mean: real): real {
    if |w| == 0 then 0.0 else Deviation(w[..|w| - 1], mean) + (w[|w| - 1] - mean)
  }

  lemma {:induction false} DeviationIsSum(w: seq<real>, mean: real)
    ensures Deviation(w, mean) == Sum(w) - |w| as real * mean
  {
    if |w| > 0 {
      DeviationIsSum(w[..|w| - 1], mean);
      var k := (|w| - 1) as real;
      assert (k + 1.0) * mean == k * mean + mean;
    }
  }

  lemma DeviationFromMeanIsZero(w: seq<real>)
    requires |w| > 0
    ensures Deviation(w, Mean(w)) == 0.0
  {
    DeviationIsSum(w, Mean(w));
    var n := |w| as real;
    assert n * (Sum(w) / n) == Sum(w);
  }

  /** x + k * a^2 - 2 * b * a is never negative when b^2 <= k * x. */
  lemma CrossTerm(b: real, x: real, k: real, a: real)
    requires k > 0.0 && Sq(b) <= k * x
    ensures x + k * Sq(a) - 2.0 * (b * a) >= 0.0
  {
    var y := x + k * Sq(a) - 2.0 * (b * a);
    var d := b - k * a;
    assert Sq(d) == Sq(b) - 2.0 * (k * (b * a)) + k * (k * Sq(a));
    assert k * y == k * x + k * (k * Sq(a)) - 2.0 * (k * (b * a));
    assert k * y >= Sq(d) >= k * 0.0;
    MulCancel(k, 0.0, y);
  }

  lemma CauchyStep(b: real, x: real, k: real, a: real)
    requires Sq(b) <= k * x && k >= 0.0 && (k == 0.0 ==> b == 0.0 && x == 0.0)
    ensures Sq(b + a) <= (k + 1.0) * (x + Sq(a))
  {
    assert x + k * Sq(a) - 2.0 * (b * a) >= 0.0 by {
      if k > 0.0 {
        CrossTerm(b, x, k, a);
      }
    }
    assert Sq(b + a) == Sq(b) + 2.0 * (b * a) + Sq(a);
    assert (k + 1.0) * (x + Sq(a)) == k * x + k * Sq(a) + x + Sq(a);
  }

  /** Cauchy-Schwarz against the all-ones vector. */
  lemma {:induction false} CauchySchwarz(w: seq<real>, mean: real)
    ensures Sq(Deviation(w, mean)) <= |w| as real * SumSq(w, mean)
  {
    if |w| == 0 {
      return;
    }
    var init, a := w[..|w| - 1], w[|w| - 1] - mean;
    CauchySchwarz(init, mean);
    CauchyStep(Deviation(init, mean), SumSq(init, mean), |init| as real, a);
  }

  /** The newest value of a window lies within sqrt(n - 1) standard deviations of its mean. */
  lemma NewestWithinBound(w: seq<real>)
    requires |w| > 0
    ensures Sq(w[|w| - 1] - Mean(w)) <= (|w| - 1) as real * Variance(w)
  {
    var n, mean := |w| as real, Mean(w);
    var init, d := w[..|w| - 1], w[|w| - 1] - mean;
    DeviationFromMeanIsZero(w);
    CauchySchwarz(init, mean);
    assert Deviation(init, mean) == -d && Sq(-d) == Sq(d);
    NewestShare(Sq(d), SumSq(init, mean), n);
  }

  function Copies(a: real, n: nat): (w: seq<real>)
    ensures |w| == n
  {
    if n == 0 then [] else Copies(a, n - 1) + [a]
  }

  function Scaled(k: real, v: real): real {
    k * v
  }

  function Times(n: nat, q: real): real {
    if n == 0 then 0.0 else Times(n - 1, q) + q
  }

  lemma {:induction false} TimesIsProduct(n: nat, q: real)
    ensures Times(n, q) == n as real * q
  {
    if n > 0 {
      TimesIsProduct(n - 1, q);
    }
  }

  lemma {:induction false} CopiesSums(a: real, n: nat, mean: real)
    ensures Sum(Copies(a, n)) == Times(n, a) && SumSq(Copies(a, n), mean) == Times(n, Sq(mean - a))
  {
    if n > 0 {
      CopiesSums(a, n - 1, mean);
      SumSnoc(Copies(a, n - 1), a);
      SumSqSnoc(Copies(a, n - 1), a, mean);
    }
  }

  lemma SumSqSnoc(w: seq<real>, x: real, mean: real)
    ensures SumSq(w + [x], mean) == SumSq(w, mean) + Sq(mean - x)
  {
    assert (w + [x])[..|w|] == w;
    assert Sq(x - mean) == Sq(mean - x);
  }

  /** The bound is sharp: after any k equal values any next value reaches it. */
  lemma BoundIsReached(a: real, k: nat, x: real)
    ensures var w := Copies(a, k) + [x];
            Sq(w[k] - Mean(w)) == Scaled(k as real, Variance(w))
  {
    WindowReached(a, Copies(a, k), x, Mean(Copies(a, k) + [x]));
  }

  lemma WindowReached(a: real, copies: seq<real>, x: real, mean: real)
    requires copies == Copies(a, |copies|) && mean == Mean(copies + [x])
    ensures Sq(x - mean) == Scaled(|copies| as real, Variance(copies + [x]))
  {
    var k, w := |copies|, copies + [x];
    CopiesSums(a, k, mean);
    SumSnoc(copies, x);
    SumSqSnoc(copies, x, mean);
    BoundFromSums(k, a, x, Sum(w), mean, SumSq(w, mean), Variance(w));
  }

  lemma BoundFromSums(k: nat, a: real, x: real, total: real, mean: real, squares: real, variance: real)
    requires total == Times(k, a) + x && mean == total / (k + 1) as real
    requires squares == Times(k, Sq(mean - a)) + Sq(mean - x) && variance == squares / (k + 1) as real
    ensures Sq(x - mean) == Scaled(k as real, variance)
  {
    SquareEven(x, mean);
    MeanOfCopies(k, a, x, total, mean);
    SquareReached(k, mean - a, Sq(mean - a), x - mean, squares, variance);
  }

  lemma SquareEven(x: real, y: real)
    ensures Sq(x - y) == Sq(y - x)
  {
  }

  /** The newest value is k times as far from the mean as each of the k others. */
  lemma MeanOfCopies(k: nat, a: real, x: real, total: real, mean: real)
    requires total == Times(k, a) + x && mean == total / (k + 1) as real
    ensures x - mean == k as real * (mean - a)
  {
    var n := (k + 1) as real;
    TimesIsProduct(k, a);
    QuotientTimes(total, n);
    assert mean * n == k as real * a + x;
  }

  lemma SquareReached(k: nat, e: real, q: real, d: real, squares: real, variance: real)
    requires d == k as real * e && q == Sq(e)
    requires squares == Times(k, q) + Sq(d) && variance == squares / (k + 1) as real
    ensures Sq(d) == Scaled(k as real, variance)
  {
    var n := (k + 1) as real;
    TimesIsProduct(k, q);
    QuotientTimes(squares, n);
    SqOfProduct(k as real, e);
    ReachedAt(k as real, q, Sq(d), variance);
  }

  lemma ReachedAt(k: real, q: real, square: real, variance: real)
    requires k >= 0.0 && square == Sq(k) * q && variance * (k + 1.0) == k * q + square
    ensures square == k * variance
  {
    assert (k * variance) * (k + 1.0) == k * (variance * (k + 1.0));
    assert k * (k * q + square) == square + k * square;
    assert (k * variance) * (k + 1.0) == square * (k + 1.0);
    TimesQuotient(k * variance, k + 1.0);
    TimesQuotient(square, k + 1.0);
  }

  lemma NewestShare(square: real, rest: real, n: real)
    requires n >= 1.0 && square <= (n - 1.0) * rest
    ensures square <= (n - 1.0) * ((rest + square) / n)
  {
    var v := (rest + square) / n;
    assert n * v == rest + square;
    assert n * ((n - 1.0) * v) == (n - 1.0) * (n * v);
    assert (n - 1.0) * (rest + square) == (n - 1.0) * rest + (n - 1.0) * square;
    assert n * square == (n - 1.0) * square + square;
    MulCancel(n, square, (n - 1.0) * v);
  }

  lemma QuotientBound(d: real, s: real, sigma: real, k: real)
    requires 0.0 <= sigma <= s && s > 0.0 && k >= 0.0
    requires Sq(d) <= k * Sq(sigma)
    ensures Sq(d / s) <= k
  {
    var z := d / s;
    assert z * s == d;
    SqOfProduct(z, s);
    SqMono(sigma, s);
    SqPositive(s);
    ScaledBound(Sq(z), Sq(s), Sq(sigma), k);
  }

  lemma ScaledBound(zz: real, ss: real, gg: real, k: real)
    requires zz * ss <= k * gg && gg <= ss && k >= 0.0 && ss > 0.0
    ensures zz <= k
  {
    MulMono(gg, ss, k);
    assert ss * zz <= ss * k;
    MulCancel(ss, zz, k);
  }

  /** Every z-score emitted by any update from any history and in any floor mode satisfies
      z^2 <= n_z - 1. */
  lemma ZScoreBounded(m: Maths, nZ: nat, cfg: SigmaFloorConfig, s: ZState, r: real)
    requires m.Sound() && nZ > 0 && 0.0 < cfg.quantileP <= 1.0
    requires |s.window| <= nZ
    ensures var z := ZStep(m, nZ, cfg, s, r).1.zscore;
            z.Some? ==> Sq(z.value) <= (nZ - 1) as real
  {
    var window := Push(s.window, nZ, r);
    var snapshot := ZStep(m, nZ, cfg, s, r).1;
    if snapshot.zscore.Some? {
      assert |window| == nZ && window[|window| - 1] == r;
      NewestWithinBound(window);
      var sigma := Std(m, window);
      assert sigma >= 0.0 && Sq(sigma) == Variance(window);
      if snapshot.sigmaEff.value != 0.0 {
        QuotientBound(r - Mean(window), snapshot.sigmaEff.value, sigma, (nZ - 1) as real);
      }
    }
  }

  /** A threshold beyond the bound is never reached. */
  lemma BeyondBoundUnreachable(z: real, bound: real, k: real)
    requires Sq(z) <= k && k < Sq(bound) && bound >= 0.0
    ensures Abs(z) < bound
  {
    assert Sq(Abs(z)) == Sq(z);
    if bound <= Abs(z) {
      SqMono(bound, Abs(z));
    }
  }
}
