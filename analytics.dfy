/** The analytics aggregation over one link's click log: total clicks, the
    number of distinct visitor addresses, and a daily histogram for the 30
    days before the current moment through the current day.

    Time is in milliseconds since the epoch and a calendar date is the UTC
    day number `timestamp / DAY_MS` (Dafny's division floors for a positive
    divisor, as the UTC calendar does before 1970 too). */
module Analytics {
  import opened UrlModel

  const DAY_MS: int := 86400000
  const WINDOW_DAYS: int := 30

  /** The UTC calendar date of an instant, as a day number. */
  function DayOf(timestamp: int): int {
    timestamp / DAY_MS
  }

  /** `thirtyDaysAgo`: the instant 30 days before `now`. */
  function WindowStart(now: int): int {
    now - WINDOW_DAYS * DAY_MS
  }

  /** Shifting an instant by whole days shifts its date by as many days. */
  lemma DayOfShift(t: int, k: int)
    ensures DayOf(t + k * DAY_MS) == DayOf(t) + k
  {
    var q, r := t / DAY_MS, t % DAY_MS;
    assert t == q * DAY_MS + r && 0 <= r < DAY_MS;
    assert t + k * DAY_MS == (q + k) * DAY_MS + r;
  }

  /** Later instants never fall on earlier dates. */
  lemma DayOfMonotone(a: int, b: int)
    requires a <= b
    ensures DayOf(a) <= DayOf(b)
  {
    var qa, ra := a / DAY_MS, a % DAY_MS;
    var qb, rb := b / DAY_MS, b % DAY_MS;
    assert a == qa * DAY_MS + ra && 0 <= ra < DAY_MS;
    assert b == qb * DAY_MS + rb && 0 <= rb < DAY_MS;
  }

  /** `new Set(clicks.map(click => click.ip))`: every address that occurs,
      once; an absent address is one value of its own. */
  function DistinctIps(clicks: seq<Click>): (ips: set<Option<string>>)
    ensures |ips| <= |clicks|
    ensures forall i :: 0 <= i < |clicks| ==> clicks[i].ip in ips
    ensures forall ip :: ip in ips ==> exists i :: 0 <= i < |clicks| && clicks[i].ip == ip
  {
    if |clicks| == 0 then {}
    else
      var earlier := DistinctIps(clicks[..|clicks| - 1]);
      assert forall i :: 0 <= i < |clicks| - 1 ==> clicks[..|clicks| - 1][i] == clicks[i];
      earlier + {clicks[|clicks| - 1].ip}
  }

  /** `clicks.filter(click => click.timestamp >= start)`, order kept: each
      click at or after `start` as often as the log holds it, and no other. */
  function Windowed(clicks: seq<Click>, start: int): (recent: seq<Click>)
    ensures |recent| <= |clicks|
    ensures forall c :: multiset(recent)[c] == if c.timestamp >= start then multiset(clicks)[c] else 0
  {
    if |clicks| == 0 then []
    else
      var last := clicks[|clicks| - 1];
      var kept := if last.timestamp >= start then [last] else [];
      var earlier := Windowed(clicks[..|clicks| - 1], start);
      assert clicks == clicks[..|clicks| - 1] + [last];
      assert multiset(clicks) == multiset(clicks[..|clicks| - 1]) + multiset{last};
      assert multiset(earlier + kept) == multiset(earlier) + multiset(kept);
      earlier + kept
  }

  /** The number of clicks that fall on the given date. */
  function CountOn(clicks: seq<Click>, day: int): (n: nat)
    ensures n <= |clicks|
  {
    if |clicks| == 0 then 0
    else CountOn(clicks[..|clicks| - 1], day) + (if DayOf(clicks[|clicks| - 1].timestamp) == day then 1 else 0)
  }

  /** The number of clicks whose date lies in `[lo, hi)`. */
  function CountBetween(clicks: seq<Click>, lo: int, hi: int): (n: nat)
    ensures n <= |clicks|
  {
    if |clicks| == 0 then 0
    else
      var d := DayOf(clicks[|clicks| - 1].timestamp);
      CountBetween(clicks[..|clicks| - 1], lo, hi) + (if lo <= d < hi then 1 else 0)
  }

  /** One entry of `dailyClicks`: a date and the clicks on it. */
  datatype DayCount = DayCount(date: int, clicks: nat)

  /** The entries for `n` consecutive dates starting at `lo`. */
  function Buckets(clicks: seq<Click>, lo: int, n: nat): (h: seq<DayCount>)
    ensures |h| == n
  {
    if n == 0 then [] else Buckets(clicks, lo, n - 1) + [DayCount(lo + n - 1, CountOn(clicks, lo + n - 1))]
  }

  /** Entry `k` is the date `lo + k` with the clicks on it. */
  lemma {:induction false} BucketsEntries(clicks: seq<Click>, lo: int, n: nat)
    ensures forall k :: 0 <= k < n ==> Buckets(clicks, lo, n)[k] == DayCount(lo + k, CountOn(clicks, lo + k))
  {
    if n > 0 {
      BucketsEntries(clicks, lo, n - 1);
    }
  }

  /** The `dailyClicks` array the handler answers with: one entry per date
      from that of `now - 30 days` through that of `now`, each counting the
      clicks at or after `now - 30 days` on that date. */
  function Histogram(clicks: seq<Click>, now: int): (h: seq<DayCount>)
    ensures |h| == WINDOW_DAYS + 1
    ensures forall k :: 0 <= k < |h| ==>
      && h[k].date == DayOf(now) - WINDOW_DAYS + k
      && h[k].clicks == CountOn(Windowed(clicks, WindowStart(now)), DayOf(now) - WINDOW_DAYS + k)
  {
    BucketsEntries(Windowed(clicks, WindowStart(now)), DayOf(now) - WINDOW_DAYS, WINDOW_DAYS + 1);
    Buckets(Windowed(clicks, WindowStart(now)), DayOf(now) - WINDOW_DAYS, WINDOW_DAYS + 1)
  }

  /** The sum of the entries' counts. */
  function TotalOf(h: seq<DayCount>): nat {
    if |h| == 0 then 0 else TotalOf(h[..|h| - 1]) + h[|h| - 1].clicks
  }

  /** The reduce step: a dictionary from each date to the number of clicks on
      it; dates without clicks have no entry. */
  method TallyByDay(clicks: seq<Click>) returns (perDay: map<int, nat>)
    ensures forall d :: d in perDay ==> perDay[d] == CountOn(clicks, d) && perDay[d] > 0
    ensures forall d :: d !in perDay ==> CountOn(clicks, d) == 0
  {
    perDay := map[];
    for i := 0 to |clicks|
      invariant forall d :: d in perDay ==> perDay[d] == CountOn(clicks[..i], d) && perDay[d] > 0
      invariant forall d :: d !in perDay ==> CountOn(clicks[..i], d) == 0
    {
      assert clicks[..i + 1][..i] == clicks[..i];
      var date := DayOf(clicks[i].timestamp);
      perDay := perDay[date := (if date in perDay then perDay[date] else 0) + 1];
    }
    assert clicks[..|clicks|] == clicks;
  }

  /** The handler's histogram: filter the clicks to the window, tally them by
      date, then walk the dates one day at a time from the window's start to
      `now`, with 0 for a date the tally has no entry for. */
  method DailyClicks(clicks: seq<Click>, now: int) returns (daily: seq<DayCount>)
    ensures daily == Histogram(clicks, now)
  {
    var start := WindowStart(now);
    var recent := Windowed(clicks, start);
    var perDay := TallyByDay(recent);
    daily := [];
    var d, k := start, 0;
    while d <= now
      invariant 0 <= k <= WINDOW_DAYS + 1
      invariant d == start + k * DAY_MS
      invariant |daily| == k
      invariant forall j :: 0 <= j < k ==> daily[j] == DayCount(DayOf(start) + j, CountOn(recent, DayOf(start) + j))
      decreases now - d
    {
      DayOfShift(start, k);
      var date := DayOf(d);
      daily := daily + [DayCount(date, if date in perDay then perDay[date] else 0)];
      d, k := d + DAY_MS, k + 1;
    }
    DayOfShift(now, -WINDOW_DAYS);
    BucketsEntries(recent, DayOf(now) - WINDOW_DAYS, WINDOW_DAYS + 1);
    ghost var expected := Histogram(clicks, now);
    assert |daily| == |expected|;
    forall j | 0 <= j < |daily| ensures daily[j] == expected[j] { }
  }

  /** The counts of consecutive dates add up to the clicks in that span. */
  lemma {:induction false} BucketsTotal(clicks: seq<Click>, lo: int, n: nat)
    ensures TotalOf(Buckets(clicks, lo, n)) == CountBetween(clicks, lo, lo + n)
  {
    if n > 0 {
      var front := Buckets(clicks, lo, n - 1);
      TotalOfSnoc(front, DayCount(lo + (n - 1), CountOn(clicks, lo + (n - 1))));
      BucketsTotal(clicks, lo, n - 1);
      CountBetweenGrow(clicks, lo, n - 1);
    } else {
      CountBetweenEmpty(clicks, lo);
    }
  }

  /** An empty span counts nothing. */
  lemma {:induction false} CountBetweenEmpty(clicks: seq<Click>, lo: int)
    ensures CountBetween(clicks, lo, lo) == 0
  {
    if |clicks| > 0 {
      CountBetweenEmpty(clicks[..|clicks| - 1], lo);
    }
  }

  /** Appending an entry adds its count. */
  lemma TotalOfSnoc(h: seq<DayCount>, x: DayCount)
    ensures TotalOf(h + [x]) == TotalOf(h) + x.clicks
  {
    assert (h + [x])[..|h|] == h;
  }

  /** Widening a span by its next date adds that date's clicks. */
  lemma {:induction false} CountBetweenGrow(clicks: seq<Click>, lo: int, n: nat)
    ensures CountBetween(clicks, lo, lo + n + 1) == CountBetween(clicks, lo, lo + n) + CountOn(clicks, lo + n)
  {
    if |clicks| > 0 {
      CountBetweenGrow(clicks[..|clicks| - 1], lo, n);
    }
  }

  /** When every click's date lies in the span, the span counts them all. */
  lemma {:induction false} CountBetweenAll(clicks: seq<Click>, lo: int, hi: int)
    requires forall i :: 0 <= i < |clicks| ==> lo <= DayOf(clicks[i].timestamp) < hi
    ensures CountBetween(clicks, lo, hi) == |clicks|
  {
    if |clicks| > 0 {
      var front := clicks[..|clicks| - 1];
      assert forall i :: 0 <= i < |front| ==> front[i] == clicks[i];
      CountBetweenAll(front, lo, hi);
    }
  }

  /** The shape of `dailyClicks`: 31 entries on consecutive, strictly
      increasing dates ending with the date of `now`, whose counts together
      never exceed the clicks in the window, nor `totalClicks`. */
  lemma HistogramShape(clicks: seq<Click>, now: int)
    ensures |Histogram(clicks, now)| == WINDOW_DAYS + 1
    ensures Histogram(clicks, now)[0].date == DayOf(WindowStart(now))
    ensures Histogram(clicks, now)[WINDOW_DAYS].date == DayOf(now)
    ensures forall k :: 0 < k < |Histogram(clicks, now)| ==>
      Histogram(clicks, now)[k].date == Histogram(clicks, now)[k - 1].date + 1
    ensures TotalOf(Histogram(clicks, now)) <= |Windowed(clicks, WindowStart(now))| <= |clicks|
  {
    DayOfShift(now, -WINDOW_DAYS);
    var recent := Windowed(clicks, WindowStart(now));
    BucketsEntries(recent, DayOf(now) - WINDOW_DAYS, WINDOW_DAYS + 1);
    BucketsTotal(recent, DayOf(now) - WINDOW_DAYS, WINDOW_DAYS + 1);
  }

  /** With no click stamped after `now`, the histogram accounts for every
      click in the window: its counts sum to exactly their number. */
  lemma HistogramTotal(clicks: seq<Click>, now: int)
    requires forall i :: 0 <= i < |clicks| ==> clicks[i].timestamp <= now
    ensures TotalOf(Histogram(clicks, now)) == |Windowed(clicks, WindowStart(now))|
  {
    var start := WindowStart(now);
    var recent := Windowed(clicks, start);
    var lo := DayOf(now) - WINDOW_DAYS;
    DayOfShift(now, -WINDOW_DAYS);
    forall i | 0 <= i < |recent| ensures lo <= DayOf(recent[i].timestamp) < lo + WINDOW_DAYS + 1 {
      DayOfMonotone(start, recent[i].timestamp);
      DayOfMonotone(recent[i].timestamp, now);
    }
    CountBetweenAll(recent, lo, lo + WINDOW_DAYS + 1);
    BucketsTotal(recent, lo, WINDOW_DAYS + 1);
  }

  /** The analytics answer: `totalClicks`, `uniqueVisitors`, `dailyClicks`. */
  datatype Summary = Summary(totalClicks: nat, uniqueVisitors: nat, dailyClicks: seq<DayCount>)

  function Summarize(clicks: seq<Click>, now: int): (s: Summary)
    ensures s.totalClicks == |clicks|
    ensures s.uniqueVisitors == |DistinctIps(clicks)|
    ensures s.dailyClicks == Histogram(clicks, now)
    ensures s.uniqueVisitors <= s.totalClicks
    ensures |s.dailyClicks| == WINDOW_DAYS + 1
    ensures TotalOf(s.dailyClicks) <= s.totalClicks
  {
    HistogramShape(clicks, now);
    Summary(|clicks|, |DistinctIps(clicks)|, Histogram(clicks, now))
  }
}
