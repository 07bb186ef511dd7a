/** The 15-minute grid of bar times. */
module Bars {
  import opened Trading

  predicate Aligned(t: int) {
    t % BAR_SECS == 0
  }

  /** The close of the bar a moment falls in. */
  function AlignToBarClose(t: int): (r: int)
    ensures Aligned(r) && r <= t < r + BAR_SECS
  {
    t - t % BAR_SECS
  }

  /** The bar that had ended before the current one started. */
  function LatestCompletedBar(now: int): (r: int)
    ensures Aligned(r) && r + BAR_SECS <= now < r + 2 * BAR_SECS
  {
    AlignToBarClose(now) - BAR_SECS
  }

  /** First and last bar to replay after a warm-up that took too long. */
  function ReplayWarmupGapWindow(warmed: int, target: int): Option<(int, int)> {
    if target <= warmed then None
    else
      var end := target - BAR_SECS;
      if warmed <= end then Some((warmed, end)) else None
  }

  /** The replay window covers exactly the bars not yet warmed up and before the next run. */
  lemma GapWindowIsExact(warmed: int, target: int, bar: int)
    requires Aligned(warmed) && Aligned(target) && Aligned(bar)
    ensures warmed <= bar < target <==>
            var w := ReplayWarmupGapWindow(warmed, target);
            w.Some? && w.value.0 <= bar <= w.value.1
  {
  }

  /** A moment whose bar precedes an aligned instant precedes that instant itself. */
  lemma BarBeforeMeansMomentBefore(t: int, u: int)
    requires Aligned(u)
    ensures AlignToBarClose(t) < u <==> t < u
  {
  }
}
