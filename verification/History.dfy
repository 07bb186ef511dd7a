/** Fetching price history in pages, and filling the price store from it. */
module History {
  import opened Trading
  import opened Bars

  /** Times of candles and requests are milliseconds. */
  const INTERVAL_MS: int := 900000
  const PAGE_BARS: int := 5000
  const SPAN_MS: int := 4499100000
  const PAGE_MS: int := 4500000000

  datatype Candle = Candle(time: int, mid: Option<real>, mark: Option<real>, close: Option<real>)

  datatype FetchError = InvalidRange | RateLimited | UnexpectedStatus | Unreadable

  datatype Response = Body(candles: seq<Candle>) | Refused(error: FetchError)

  /** What the server answers to the n-th request, for a range of times. */
  type Server = (nat, int, int) -> Response

  datatype Fetched = Fetched(bars: seq<Candle>, requests: nat) | FetchFailed(error: FetchError)

  function AlignMs(t: int): (r: int)
    ensures r % INTERVAL_MS == 0 && r <= t < r + INTERVAL_MS
  {
    AlignToBarClose(t / 1000) * 1000
  }

  // ---- an ordered map from times to candles -------------------------------------------------

  /** A map ordered by time is the sequence of its candles. */
  type Ordered = seq<Candle>

  ghost predicate Ascending(m: Ordered) {
    forall i, j :: 0 <= i < j < |m| ==> m[i].time < m[j].time
  }

  function Lookup(m: Ordered, t: int): Option<Candle> {
    if |m| == 0 then None
    else if m[0].time == t then Some(m[0])
    else Lookup(m[1..], t)
  }

  /** Puts a candle in its place; one of the same time is replaced. */
  function Insert(m: Ordered, c: Candle): Ordered {
    if |m| == 0 || c.time < m[0].time then [c] + m
    else if c.time == m[0].time then [c] + m[1..]
    else [m[0]] + Insert(m[1..], c)
  }

  lemma {:induction false} InsertLookup(m: Ordered, c: Candle, t: int)
    ensures Lookup(Insert(m, c), t) == if t == c.time then Some(c) else Lookup(m, t)
  {
    if |m| == 0 || c.time < m[0].time {
      assert ([c] + m)[1..] == m;
    } else if c.time == m[0].time {
      assert ([c] + m[1..])[1..] == m[1..];
    } else {
      InsertLookup(m[1..], c, t);
      assert Insert(m, c)[1..] == Insert(m[1..], c);
    }
  }

  lemma {:induction false} InsertAscending(m: Ordered, c: Candle)
    requires Ascending(m)
    ensures Ascending(Insert(m, c))
    ensures forall i :: 0 <= i < |Insert(m, c)| ==> Insert(m, c)[i] == c || Insert(m, c)[i] in m
  {
    if |m| > 0 && c.time > m[0].time {
      InsertAscending(m[1..], c);
    }
  }

  lemma {:induction false} LookupFinds(m: Ordered, i: nat)
    requires Ascending(m) && i < |m|
    ensures Lookup(m, m[i].time) == Some(m[i])
  {
    if i > 0 {
      LookupFinds(m[1..], i - 1);
    }
  }

  lemma {:induction false} LookupInside(m: Ordered, t: int) returns (i: nat)
    requires Lookup(m, t).Some?
    ensures i < |m| && m[i].time == t && Lookup(m, t) == Some(m[i])
  {
    if m[0].time == t {
      i := 0;
    } else {
      var k := LookupInside(m[1..], t);
      i := k + 1;
    }
  }

  lemma SomethingInside(m: Ordered)
    ensures |m| > 0 ==> exists t :: Lookup(m, t).Some?
  {
    if |m| > 0 {
      assert Lookup(m, m[0].time).Some?;
    }
  }

  /** What an ordered map holds determines it, order included. */
  lemma {:induction false} SortedUnique(a: Ordered, b: Ordered)
    requires Ascending(a) && Ascending(b) && forall t :: Lookup(a, t) == Lookup(b, t)
    ensures a == b
  {
    SomethingInside(b);
    if |a| > 0 {
      LookupFinds(a, 0);
      var i := LookupInside(b, a[0].time);
      LookupFinds(b, 0);
      var j := LookupInside(a, b[0].time);
      forall t
        ensures Lookup(a[1..], t) == Lookup(b[1..], t)
      {
        RestLookup(a, t);
        RestLookup(b, t);
      }
      SortedUnique(a[1..], b[1..]);
    }
  }

  lemma RestLookup(m: Ordered, t: int)
    requires |m| > 0 && Ascending(m)
    ensures Lookup(m[1..], t) == if t == m[0].time then None else Lookup(m, t)
  {
    if Lookup(m[1..], t).Some? {
      var i := LookupInside(m[1..], t);
    }
  }

  // ---- pages -------------------------------------------------------------------------------

  function Min(a: int, b: int): int {
    if a < b then a else b
  }

  function PageStart(start: int, n: nat): int {
    start + PAGE_MS * n
  }

  function PageEnd(start: int, end: int, n: nat): int {
    Min(PageStart(start, n) + SPAN_MS, end)
  }

  /** The answer to the n-th request of a fetch from `start` to `end`. */
  function Answer(server: Server, start: int, end: int, n: nat): Response {
    server(n, PageStart(start, n), PageEnd(start, end, n) + INTERVAL_MS)
  }

  /** Number of requests: pages of 5000 bars. */
  function Pages(start: int, end: int): nat
    requires start <= end
  {
    (end - start) / PAGE_MS + 1
  }

  /** Bars on the grid from `start` to `end`. */
  function BarsIn(start: int, end: int): nat
    requires start <= end
  {
    (end - start) / INTERVAL_MS + 1
  }

  /** Between aligned times the requests number the bars divided by 5000, rounded up. */
  lemma PagesRoundUp(start: int, end: int)
    requires start <= end && (end - start) % INTERVAL_MS == 0
    ensures var n := BarsIn(start, end);
            PAGE_BARS * (Pages(start, end) - 1) < n <= PAGE_BARS * Pages(start, end)
  {
    var k := (end - start) / INTERVAL_MS;
    assert end - start == INTERVAL_MS * k;
  }

  // ---- what a fetch returns ----------------------------------------------------------------------

  /** The last candle of a time in an answer. */
  function LastAt(candles: seq<Candle>, t: int): Option<Candle> {
    if |candles| == 0 then None
    else if candles[|candles| - 1].time == t then Some(candles[|candles| - 1])
    else LastAt(candles[..|candles| - 1], t)
  }

  lemma {:induction false} LastAtFinds(candles: seq<Candle>, t: int)
    ensures LastAt(candles, t).Some? ==> LastAt(candles, t).value in candles && LastAt(candles, t).value.time == t
    ensures LastAt(candles, t).None? ==> forall c :: c in candles ==> c.time != t
  {
    if |candles| > 0 {
      LastAtFinds(candles[..|candles| - 1], t);
      assert candles == candles[..|candles| - 1] + [candles[|candles| - 1]];
    }
  }

  /** A time that some page keeps. */
  predicate Kept(start: int, end: int, t: int) {
    start <= t <= end && (t - start) % PAGE_MS <= SPAN_MS
  }

  function PageOf(start: int, t: int): nat
    requires start <= t
  {
    (t - start) / PAGE_MS
  }

  /** The candle a fetch returns for a time. */
  function At(server: Server, start: int, end: int, t: int): Option<Candle> {
    if !Kept(start, end, t) then None
    else
      match Answer(server, start, end, PageOf(start, t))
      case Refused(_) => None
      case Body(candles) => LastAt(candles, t)
  }

  /** The candles of the first n pages. */
  ghost predicate Merged(server: Server, start: int, end: int, n: nat, merged: Ordered) {
    forall t :: Lookup(merged, t) == if t < PageStart(start, n) then At(server, start, end, t) else None
  }

  lemma PageHas(start: int, end: int, n: nat, t: int)
    requires PageStart(start, n) <= end
    ensures (PageStart(start, n) <= t <= PageEnd(start, end, n)) <==>
            (Kept(start, end, t) && PageOf(start, t) == n)
  {
    var d := t - PageStart(start, n);
    assert t - start == PAGE_MS * n + d;
    if 0 <= d < PAGE_MS {
      DivOfPage(n, d);
    }
  }

  lemma DivOfPage(n: int, d: int)
    requires 0 <= d < PAGE_MS
    ensures (PAGE_MS * n + d) / PAGE_MS == n && (PAGE_MS * n + d) % PAGE_MS == d
  {
  }

  /** What keeping the candles of a page that lie in its window makes of the ordered map. */
  ghost predicate PageMerged(before: Ordered, after: Ordered, candles: seq<Candle>, from: int, to: int) {
    && (Ascending(before) ==> Ascending(after))
    && (forall t :: Lookup(after, t)
                    == if from <= t <= to && LastAt(candles, t).Some? then LastAt(candles, t) else Lookup(before, t))
  }

  method MergePage(merged: Ordered, candles: seq<Candle>, from: int, to: int) returns (r: Ordered)
    requires Ascending(merged)
    ensures PageMerged(merged, r, candles, from, to)
  {
    r := merged;
    for k := 0 to |candles|
      invariant PageMerged(merged, r, candles[..k], from, to)
    {
      var bar := candles[k];
      MergeOne(merged, r, candles, k, from, to);
      if bar.time >= from && bar.time <= to {
        r := Insert(r, bar);
      }
    }
    assert candles[..|candles|] == candles;
  }

  lemma MergeOne(before: Ordered, r: Ordered, candles: seq<Candle>, k: nat, from: int, to: int)
    requires k < |candles| && Ascending(before) && PageMerged(before, r, candles[..k], from, to)
    ensures PageMerged(before, if from <= candles[k].time <= to then Insert(r, candles[k]) else r, candles[..k + 1], from, to)
  {
    assert candles[..k + 1][..k] == candles[..k];
    InsertAscending(r, candles[k]);
    forall t
      ensures Lookup(Insert(r, candles[k]), t) == if t == candles[k].time then Some(candles[k]) else Lookup(r, t)
    {
      InsertLookup(r, candles[k], t);
    }
  }

  lemma NextPage(server: Server, start: int, end: int, n: nat, before: Ordered, after: Ordered)
    requires PageStart(start, n) <= end && Answer(server, start, end, n).Body?
    requires Merged(server, start, end, n, before)
    requires PageMerged(before, after, Answer(server, start, end, n).candles, PageStart(start, n), PageEnd(start, end, n))
    ensures Merged(server, start, end, n + 1, after)
  {
    forall t
      ensures Lookup(after, t) == if t < PageStart(start, n + 1) then At(server, start, end, t) else None
    {
      PageHas(start, end, n, t);
      if PageStart(start, n) <= t < PageStart(start, n + 1) {
        PageWindow(start, end, n, t);
      }
    }
  }

  /** Past the window of page n no time before the next page is kept. */
  lemma PageWindow(start: int, end: int, n: nat, t: int)
    requires PageStart(start, n) <= t < PageStart(start, n + 1)
    ensures Kept(start, end, t) ==> PageOf(start, t) == n
  {
    var d := t - PageStart(start, n);
    assert t - start == PAGE_MS * n + d;
    DivOfPage(n, d);
  }

  lemma PagesCounted(start: int, end: int, n: nat)
    requires start <= end
    ensures n < Pages(start, end) <==> PageStart(start, n) <= end
  {
    var p := Pages(start, end) - 1;
    var d := (end - start) % PAGE_MS;
    assert end - start == PAGE_MS * p + d && 0 <= d < PAGE_MS;
  }

  ghost predicate FirstRefused(server: Server, start: int, end: int, n: nat, error: FetchError) {
    Answer(server, start, end, n) == Refused(error) && forall k: nat :: k < n ==> Answer(server, start, end, k).Body?
  }

  /** The paging loop.  It asks page by page until one is refused or the range is covered. */
  method FetchHistory(server: Server, start: int, end: int) returns (r: Fetched)
    ensures AlignMs(end) < AlignMs(start) ==> r == FetchFailed(InvalidRange)
    ensures AlignMs(start) <= AlignMs(end) ==>
              var s, e := AlignMs(start), AlignMs(end);
              match r
              case Fetched(bars, requests) =>
                && requests == Pages(s, e)
                && (forall n :: 0 <= n < requests ==> Answer(server, s, e, n).Body?)
                && Ascending(bars)
                && (forall t :: Lookup(bars, t) == At(server, s, e, t))
              case FetchFailed(error) =>
                exists n: nat :: n < Pages(s, e) && FirstRefused(server, s, e, n, error)
  {
    var s, e := AlignMs(start), AlignMs(end);
    if e < s {
      return FetchFailed(InvalidRange);
    }
    var merged: Ordered := [];
    var currentStart := s;
    var n: nat := 0;
    while currentStart <= e
      invariant if currentStart <= e then currentStart == PageStart(s, n) && n < Pages(s, e) else n == Pages(s, e)
      invariant forall k :: 0 <= k < n ==> Answer(server, s, e, k).Body?
      invariant Ascending(merged) && Merged(server, s, e, n, merged)
      decreases e - currentStart
    {
      var segmentEnd := Min(currentStart + SPAN_MS, e);
      var response := server(n, currentStart, segmentEnd + INTERVAL_MS);
      match response {
        case Refused(error) =>
          assert n < Pages(s, e) && FirstRefused(server, s, e, n, error);
          return FetchFailed(error);
        case Body(candles) =>
          var before := merged;
          merged := MergePage(merged, candles, currentStart, segmentEnd);
          NextPage(server, s, e, n, before, merged);
      }
      PagesCounted(s, e, n);
      currentStart := segmentEnd + INTERVAL_MS;
      n := n + 1;
    }
    assert PageStart(s, n) > e by {
      PagesCounted(s, e, n - 1);
    }
    r := Fetched(merged, n);
  }

  // ---- a server that holds candles ------------------------------------------------------------------

  /** The server answers every request with all candles it holds in the requested range, and with
      no other candles than it holds. */
  ghost predicate Serves(server: Server, held: map<int, Candle>, start: int, end: int) {
    forall n: nat ::
      var r := Answer(server, start, end, n);
      r.Body? ==> AnswersFrom(held, r.candles, PageStart(start, n), PageEnd(start, end, n) + INTERVAL_MS)
  }

  ghost predicate AnswersFrom(held: map<int, Candle>, candles: seq<Candle>, from: int, to: int) {
    && (forall c :: c in candles ==> c.time in held && held[c.time] == c)
    && (forall t :: t in held && from <= t <= to ==> held[t].time == t && held[t] in candles)
  }

  /** From a server that holds candles a fetch returns exactly the held candles that some page
      keeps. */
  lemma FetchesKept(server: Server, held: map<int, Candle>, start: int, end: int, t: int)
    requires start <= end && Serves(server, held, start, end)
    requires forall n: nat :: n < Pages(start, end) ==> Answer(server, start, end, n).Body?
    ensures At(server, start, end, t) == if Kept(start, end, t) && t in held then Some(held[t]) else None
  {
    if Kept(start, end, t) {
      var n := PageOf(start, t);
      PageIsAsked(start, end, t);
      var candles := Answer(server, start, end, n).candles;
      LastAtFinds(candles, t);
    }
  }

  lemma PageIsAsked(start: int, end: int, t: int)
    requires Kept(start, end, t)
    ensures var n := PageOf(start, t);
            n < Pages(start, end) && PageStart(start, n) <= t <= PageEnd(start, end, n)
  {
    var n, d := PageOf(start, t), (t - start) % PAGE_MS;
    assert t - start == PAGE_MS * n + d;
    PagesCounted(start, end, n);
  }

  /** A fetch loses a held candle exactly if it lies in the last 900 seconds before a page start;
      so it returns the whole held range if and only if no held candle lies there. */
  lemma WholeRangeIff(server: Server, held: map<int, Candle>, start: int, end: int)
    requires start <= end && Serves(server, held, start, end)
    requires forall n: nat :: n < Pages(start, end) ==> Answer(server, start, end, n).Body?
    ensures (forall t :: At(server, start, end, t) == if start <= t <= end && t in held then Some(held[t]) else None)
            <==> (forall t :: t in held && start <= t <= end ==> (t - start) % PAGE_MS <= SPAN_MS)
  {
    forall t
      ensures At(server, start, end, t) == if Kept(start, end, t) && t in held then Some(held[t]) else None
    {
      FetchesKept(server, held, start, end, t);
    }
    if t :| t in held && start <= t <= end && (t - start) % PAGE_MS > SPAN_MS {
      assert At(server, start, end, t) != Some(held[t]);
    }
  }

  /** For candles on the grid the result is therefore the sorted held range, however it is paged. */
  lemma SortedRange(server: Server, held: map<int, Candle>, start: int, end: int, bars: Ordered, whole: Ordered)
    requires start <= end && start % INTERVAL_MS == 0 && Serves(server, held, start, end)
    requires forall n: nat :: n < Pages(start, end) ==> Answer(server, start, end, n).Body?
    requires forall u :: u in held ==> u % INTERVAL_MS == 0
    requires Ascending(bars) && forall t :: Lookup(bars, t) == At(server, start, end, t)
    requires Ascending(whole) && forall t :: Lookup(whole, t) == if start <= t <= end && t in held then Some(held[t]) else None
    ensures bars == whole
  {
    forall t
      ensures Lookup(bars, t) == Lookup(whole, t)
    {
      GridIsNeverLost(server, held, start, end, t);
    }
    SortedUnique(bars, whole);
  }

  /** Candles on the 15-minute grid are never lost, however many pages the fetch takes. */
  lemma GridIsNeverLost(server: Server, held: map<int, Candle>, start: int, end: int, t: int)
    requires start <= end && start % INTERVAL_MS == 0 && Serves(server, held, start, end)
    requires forall n: nat :: n < Pages(start, end) ==> Answer(server, start, end, n).Body?
    requires forall u :: u in held ==> u % INTERVAL_MS == 0
    ensures At(server, start, end, t) == if start <= t <= end && t in held then Some(held[t]) else None
  {
    FetchesKept(server, held, start, end, t);
    if t in held {
      GridPosition(start, t);
    }
  }

  lemma GridPosition(start: int, t: int)
    requires start % INTERVAL_MS == 0 && t % INTERVAL_MS == 0
    ensures (t - start) % PAGE_MS <= SPAN_MS
  {
    var a, b := start / INTERVAL_MS, t / INTERVAL_MS;
    var k := b - a;
    assert t - start == INTERVAL_MS * k;
    var q, r := k / PAGE_BARS, k % PAGE_BARS;
    assert t - start == PAGE_MS * q + INTERVAL_MS * r;
    DivOfPage(q, INTERVAL_MS * r);
  }
}
