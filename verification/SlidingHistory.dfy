/**
 The replay cache when the chart's candle window slides: a full replay starts at the first candle of
 its window, while an incremented history keeps the start of the window it was first replayed on.
*/
module SlidingHistory {
  import opened Common
  import opened Hysteresis
  import opened StanceHistory
  import opened HistoryFidelity

  /** A request for the candles series[from..to], with the live payload of that moment. */
  datatype Slide = Slide(from: nat, to: nat, live: Confluence)

  predicate Slides(slides: seq<Slide>, series: seq<Candle>) {
    forall i :: 0 <= i < |slides| ==> slides[i].from <= slides[i].to <= |series|
  }

  function CacheAfterSlides(analyse: Analyse, series: seq<Candle>, slides: seq<Slide>, i: nat): Option<Entry>
    requires i <= |slides| && Slides(slides, series)
    decreases i, 0
  {
    if i == 0 then None
    else
      match SlideAnswer(analyse, series, slides, i - 1)
      case Raised => CacheAfterSlides(analyse, series, slides, i - 1)
      case Returned(entry, _) => entry
  }

  function SlideAnswer(analyse: Analyse, series: seq<Candle>, slides: seq<Slide>, i: nat): Outcome
    requires i < |slides| && Slides(slides, series)
    decreases i, 1
  {
    Call(analyse, CacheAfterSlides(analyse, series, slides, i), series[slides[i].from..slides[i].to], slides[i].live)
  }

  // ----- What the cache stands for -----

  /** The cached history is a replay of series[origin..at]; nothing is cached if `at` is 0. */
  datatype Stand = Stand(origin: nat, at: nat)

  /** The request is for the cached candle, or for the next one while there is a state to go on from. */
  predicate Continues(analyse: Analyse, series: seq<Candle>, s: Stand, r: Slide)
    requires s.origin <= s.at <= |series|
  {
    s.at > 0 && (r.to == s.at || (r.to == s.at + 1 && Replay(analyse, series[s.origin..], s.at - s.origin).prior.Some?))
  }

  /** The start of the replay that answers a request: an old one is continued, otherwise the window's own. */
  function OriginFor(analyse: Analyse, series: seq<Candle>, s: Stand, r: Slide): (origin: nat)
    requires s.origin <= s.at <= |series| && r.from <= r.to <= |series|
    ensures origin <= r.to
  {
    if Continues(analyse, series, s, r) then s.origin else r.from
  }

  /** The request steps from the cached candle onto a window that the continued replay skips. */
  predicate Skips(analyse: Analyse, series: seq<Candle>, s: Stand, r: Slide)
    requires s.origin <= s.at <= |series| && r.from <= r.to <= |series|
  {
    s.at > 0 && r.to == s.at + 1 && r.to - r.from >= MIN_CHART_CANDLES
    && Refuses(analyse, series[s.origin..], s.at - s.origin, r.to - s.origin)
  }

  function StandAfter(analyse: Analyse, series: seq<Candle>, slides: seq<Slide>, i: nat): (s: Stand)
    requires i <= |slides| && Slides(slides, series)
    ensures s.origin <= s.at <= |series|
  {
    if i == 0 then Stand(0, 0)
    else
      var s, r := StandAfter(analyse, series, slides, i - 1), slides[i - 1];
      if r.to - r.from < MIN_CHART_CANDLES || Skips(analyse, series, s, r) then s
      else Stand(OriginFor(analyse, series, s, r), r.to)
  }

  predicate Backs(analyse: Analyse, rel: Relation, series: seq<Candle>, s: Stand, cached: Option<Entry>)
    requires s.origin <= s.at <= |series|
  {
    if cached.None? then s.at == 0
    else s.at > 0 && StandsFor(analyse, rel, series[s.origin..], s.at - s.origin, cached)
  }

  /** The window does not reach back behind the replay it continues, and is long enough for the analysis
      of its last candle; charts of 200 confirmed candles are. */
  predicate Suits(analyse: Analyse, series: seq<Candle>, s: Stand, r: Slide)
    requires s.origin <= s.at <= |series| && r.from <= r.to <= |series|
  {
    var origin := OriginFor(analyse, series, s, r);
    r.from == origin || (origin <= r.from && r.to - r.from >= REPLAY_ANALYSIS_WINDOW)
  }

  lemma TailOrdered(series: seq<Candle>, origin: nat)
    requires StrictlyOrdered(series) && origin <= |series|
    ensures StrictlyOrdered(series[origin..])
  {
  }

  lemma PrefixOfTail(series: seq<Candle>, origin: nat, n: nat)
    requires origin <= n <= |series|
    ensures series[origin..][..n - origin] == series[origin..n]
  {
  }

  /** A call that continues the cached history looks at the last 200 candles and the last two times only. */
  lemma ContinuingSeesTheEnd(analyse: Analyse, e: Entry, series: seq<Candle>, from: nat, origin: nat, to: nat, live: Confluence)
    requires origin <= from && to <= |series| && from + REPLAY_ANALYSIS_WINDOW <= to
    requires e.lastTime == series[to - 1].time || CanIncrement(e, series[origin..to])
    ensures Call(analyse, Some(e), series[from..to], live) == Call(analyse, Some(e), series[origin..to], live)
  {
    hide PointOf, WithLiveEndpoint, Replay;
    var x, y := series[from..to], series[origin..to];
    assert x[|x| - 1] == y[|y| - 1] == series[to - 1] && x[|x| - 2] == y[|y| - 2] == series[to - 2];
    assert LastN(x, REPLAY_ANALYSIS_WINDOW) == LastN(y, REPLAY_ANALYSIS_WINDOW);
  }

  predicate Fits(series: seq<Candle>, s: Stand, r: Slide) {
    s.origin <= s.at <= |series| && r.from <= r.to <= |series| && r.to - r.from >= MIN_CHART_CANDLES
  }

  lemma ContinuedSlide(analyse: Analyse, rel: Relation, series: seq<Candle>, s: Stand, e: Entry, r: Slide)
    requires StrictlyOrdered(series) && Respects(analyse, rel) && Fits(series, s, r)
    requires Backs(analyse, rel, series, s, Some(e)) && Continues(analyse, series, s, r) && Suits(analyse, series, s, r)
    requires InStep(analyse, rel, series[s.origin..], r.to - s.origin, r.live.state)
    ensures match Call(analyse, Some(e), series[r.from..r.to], r.live)
            case Raised => Skips(analyse, series, s, r)
            case Returned(entry, shown) =>
              && !Skips(analyse, series, s, r)
              && Backs(analyse, rel, series, Stand(s.origin, r.to), entry)
              && shown == Uncached(analyse, series[s.origin..], r.to - s.origin, r.live)
  {
    hide Call, Replay, ReplayPoint, Uncached, HistoryIs, Respects;
    var tail, at, n := series[s.origin..], s.at - s.origin, r.to - s.origin;
    TailOrdered(series, s.origin);
    PrefixOfTail(series, s.origin, r.to);
    CallRefinesReplay(analyse, rel, tail, n, at, Some(e), r.live);
    WayOfCall(tail, at, n, e);
    if r.from != s.origin {
      assert tail[n - 1] == series[r.to - 1];
      ContinuingSeesTheEnd(analyse, e, series, r.from, s.origin, r.to, r.live);
    }
  }

  lemma FullSlide(analyse: Analyse, rel: Relation, series: seq<Candle>, s: Stand, cached: Option<Entry>, r: Slide)
    requires StrictlyOrdered(series) && Respects(analyse, rel) && Fits(series, s, r)
    requires Backs(analyse, rel, series, s, cached) && !Continues(analyse, series, s, r)
    requires InStep(analyse, rel, series[r.from..], r.to - r.from, r.live.state)
    ensures var outcome := Call(analyse, cached, series[r.from..r.to], r.live);
            && outcome.Returned? && !Skips(analyse, series, s, r)
            && Backs(analyse, rel, series, Stand(r.from, r.to), outcome.entry)
            && outcome.shown == Uncached(analyse, series[r.from..], r.to - r.from, r.live)
  {
    hide Call, Replay, ReplayPoint, Uncached, HistoryIs, Respects, StrictlyOrdered, CanIncrement;
    var tail, n := series[r.from..], r.to - r.from;
    TailOrdered(series, r.from);
    PrefixOfTail(series, r.from, r.to);
    assert tail[n - 1] == series[r.to - 1];
    if cached.Some? {
      assert series[s.origin..][s.at - s.origin - 1] == series[s.at - 1];
      OnlyTheNextCandle(series, s.at, r, cached.value);
    }
    FullCall(analyse, rel, tail, n, cached, r.live);
  }

  lemma OnlyTheNextCandle(series: seq<Candle>, at: nat, r: Slide, e: Entry)
    requires StrictlyOrdered(series) && 0 < at <= |series| && r.from + 2 <= r.to <= |series| && e.lastTime == series[at - 1].time
    ensures CanIncrement(e, series[r.from..r.to]) ==> r.to == at + 1 && e.prior.Some?
    ensures e.lastTime == series[r.to - 1].time ==> r.to == at
  {
    var x := series[r.from..r.to];
    assert x[|x| - 2] == series[r.to - 2];
    if CanIncrement(e, x) {
      SamePlace(series, at - 1, r.to - 2);
    }
    if e.lastTime == series[r.to - 1].time {
      SamePlace(series, at - 1, r.to - 1);
    }
  }

  /** One request on a sliding window: it raises exactly when the continued replay skips its window, and
      otherwise shows what an uncached call on the continued replay's window would show. */
  lemma SlideRefinesReplay(analyse: Analyse, rel: Relation, series: seq<Candle>, s: Stand, cached: Option<Entry>, r: Slide)
    requires StrictlyOrdered(series) && Respects(analyse, rel) && Fits(series, s, r)
    requires Backs(analyse, rel, series, s, cached) && Suits(analyse, series, s, r)
    requires var origin := OriginFor(analyse, series, s, r);
             InStep(analyse, rel, series[origin..], r.to - origin, r.live.state)
    ensures var origin := OriginFor(analyse, series, s, r);
            match Call(analyse, cached, series[r.from..r.to], r.live)
            case Raised => Skips(analyse, series, s, r)
            case Returned(entry, shown) =>
              && !Skips(analyse, series, s, r)
              && Backs(analyse, rel, series, Stand(origin, r.to), entry)
              && shown == Uncached(analyse, series[origin..], r.to - origin, r.live)
  {
    hide Call, Uncached, StandsFor, InStep, Respects, Skips, Suits, Replay;
    if Continues(analyse, series, s, r) {
      ContinuedSlide(analyse, rel, series, s, cached.value, r);
    } else {
      FullSlide(analyse, rel, series, s, cached, r);
    }
  }

  predicate AnswersInStep(analyse: Analyse, rel: Relation, series: seq<Candle>, slides: seq<Slide>, i: nat)
    requires Slides(slides, series) && i < |slides|
  {
    var s, r := StandAfter(analyse, series, slides, i), slides[i];
    var origin := OriginFor(analyse, series, s, r);
    r.to - r.from >= MIN_CHART_CANDLES ==>
      Suits(analyse, series, s, r) && InStep(analyse, rel, series[origin..], r.to - origin, r.live.state)
  }

  /** Over any sequence of sliding requests: every answer is that of an uncached call, not on the request's
      own window, but on one that starts where the latest full replay did. */
  lemma {:induction false} SlidingCacheKeepsItsOrigin(analyse: Analyse, rel: Relation, series: seq<Candle>, slides: seq<Slide>, i: nat)
    requires StrictlyOrdered(series) && Respects(analyse, rel) && Slides(slides, series) && i < |slides|
    requires forall j :: 0 <= j < |slides| ==> AnswersInStep(analyse, rel, series, slides, j)
    ensures Backs(analyse, rel, series, StandAfter(analyse, series, slides, i), CacheAfterSlides(analyse, series, slides, i))
    ensures var s, r, outcome := StandAfter(analyse, series, slides, i), slides[i], SlideAnswer(analyse, series, slides, i);
            r.to - r.from >= MIN_CHART_CANDLES ==>
              var origin := OriginFor(analyse, series, s, r);
              && (outcome.Raised? <==> Skips(analyse, series, s, r))
              && (outcome.Returned? ==> outcome.shown == Uncached(analyse, series[origin..], r.to - origin, r.live))
  {
    hide Call, Uncached, Skips, InStep, Suits, OriginFor, Backs, Respects;
    if i == 0 {
      NothingBacked(analyse, rel, series);
    } else {
      SlidingCacheKeepsItsOrigin(analyse, rel, series, slides, i - 1);
      NextStand(analyse, rel, series, slides, i - 1);
    }
    NextStand(analyse, rel, series, slides, i);
  }

  lemma NothingBacked(analyse: Analyse, rel: Relation, series: seq<Candle>)
    ensures Backs(analyse, rel, series, Stand(0, 0), None)
  {
  }

  lemma NextStand(analyse: Analyse, rel: Relation, series: seq<Candle>, slides: seq<Slide>, i: nat)
    requires StrictlyOrdered(series) && Respects(analyse, rel) && Slides(slides, series) && i < |slides|
    requires AnswersInStep(analyse, rel, series, slides, i)
    requires Backs(analyse, rel, series, StandAfter(analyse, series, slides, i), CacheAfterSlides(analyse, series, slides, i))
    ensures Backs(analyse, rel, series, StandAfter(analyse, series, slides, i + 1), CacheAfterSlides(analyse, series, slides, i + 1))
    ensures var s, r, outcome := StandAfter(analyse, series, slides, i), slides[i], SlideAnswer(analyse, series, slides, i);
            r.to - r.from >= MIN_CHART_CANDLES ==>
              var origin := OriginFor(analyse, series, s, r);
              && (outcome.Raised? <==> Skips(analyse, series, s, r))
              && (outcome.Returned? ==> outcome.shown == Uncached(analyse, series[origin..], r.to - origin, r.live))
  {
    hide Call, Uncached, Skips, InStep, Suits, OriginFor, Backs, Respects;
    var s, r, cached := StandAfter(analyse, series, slides, i), slides[i], CacheAfterSlides(analyse, series, slides, i);
    if r.to - r.from >= MIN_CHART_CANDLES {
      SlideRefinesReplay(analyse, rel, series, s, cached, r);
    } else {
      NoCandlesNoChange(analyse, cached, series[r.from..r.to], r.live);
    }
  }

  // ----- When the origin shows -----

  /** Two replays that meet in related states draw the same points from there on. */
  lemma {:induction false} ReplaysMerge(analyse: Analyse, rel: Relation, series: seq<Candle>, a: nat, b: nat, c: nat, n: nat)
    requires Respects(analyse, rel) && a <= b && b + REPLAY_ANALYSIS_WINDOW <= c <= n <= |series|
    requires Related(rel, Replay(analyse, series[a..], c - a).prior, Replay(analyse, series[b..], c - b).prior)
    ensures Related(rel, Replay(analyse, series[a..], n - a).prior, Replay(analyse, series[b..], n - b).prior)
    ensures var x, y, p, q := Replay(analyse, series[a..], n - a).points, Replay(analyse, series[b..], n - b).points,
                              Replay(analyse, series[a..], c - a).points, Replay(analyse, series[b..], c - b).points;
            p <= x && q <= y && ShownAll(x[|p|..]) == ShownAll(y[|q|..])
    decreases n
  {
    hide Respects, ReplayPoint, Shown;
    if n > c {
      ReplaysMerge(analyse, rel, series, a, b, c, n - 1);
      var x, y := Replay(analyse, series[a..], n - 1 - a), Replay(analyse, series[b..], n - 1 - b);
      PrefixOfTail(series, a, n);
      PrefixOfTail(series, b, n);
      SameWindowSamePoint(analyse, rel, series, a, b, n, x.prior, y.prior);
      var p, q := Replay(analyse, series[a..], c - a).points, Replay(analyse, series[b..], c - b).points;
      var u, v := ReplayPoint(analyse, series[a..n], x.prior), ReplayPoint(analyse, series[b..n], y.prior);
      if u.Some? {
        assert (x.points + [u.value])[|p|..] == x.points[|p|..] + [u.value];
        assert (y.points + [v.value])[|q|..] == y.points[|q|..] + [v.value];
        ShownAppends(x.points[|p|..], u.value);
        ShownAppends(y.points[|q|..], v.value);
      }
    }
  }

  lemma ShownAppends(points: seq<Point>, p: Point)
    ensures ShownAll(points + [p]) == ShownAll(points) + [Shown(p)]
  {
  }

  lemma SameWindowSamePoint(analyse: Analyse, rel: Relation, series: seq<Candle>, a: nat, b: nat, n: nat,
                            p: Option<State>, q: Option<State>)
    requires Respects(analyse, rel) && a <= b && b + REPLAY_ANALYSIS_WINDOW <= n <= |series| && Related(rel, p, q)
    ensures var x, y := ReplayPoint(analyse, series[a..n], p), ReplayPoint(analyse, series[b..n], q);
            && (x.Some? <==> y.Some?)
            && (x.Some? ==> Shown(x.value) == Shown(y.value) && Related(rel, x.value.state, y.value.state))
  {
    hide Respects;
    assert LastN(series[a..n], REPLAY_ANALYSIS_WINDOW) == LastN(series[b..n], REPLAY_ANALYSIS_WINDOW);
    RelatedPoints(analyse, rel, series[a..n], p, q);
    SameEndSamePoint(analyse, series[a..n], series[b..n], q);
  }

  lemma SameEndSamePoint(analyse: Analyse, x: seq<Candle>, y: seq<Candle>, q: Option<State>)
    requires x != [] && y != [] && LastN(x, REPLAY_ANALYSIS_WINDOW) == LastN(y, REPLAY_ANALYSIS_WINDOW)
    ensures ReplayPoint(analyse, x, q) == ReplayPoint(analyse, y, q)
  {
    hide PointOf;
  }

  lemma EndOfRest<T>(s: seq<T>, p: nat, n: nat)
    requires p <= |s| && |s| - p >= n
    ensures LastN(s, n) == LastN(s[p..], n)
  {
  }

  lemma SameEnds(x: seq<Point>, y: seq<Point>, p: nat, q: nat, n: nat)
    requires p <= |x| && q <= |y| && |x| - p >= n && ShownAll(x[p..]) == ShownAll(y[q..])
    ensures ShownAll(LastN(x, n)) == ShownAll(LastN(y, n))
  {
    hide Shown, LastN;
    EndOfRest(x, p, n);
    ShownPointwise(x[p..], y[q..]);
    EndOfRest(y, q, n);
    hide ShownAll;
    SameShownSameEnd(x[p..], y[q..], n);
  }

  /** The ribbons drawn from two origins at candle n are the same. */
  predicate SameRibbon(analyse: Analyse, series: seq<Candle>, a: nat, b: nat, n: nat, live: Confluence)
    requires a <= n <= |series| && b <= n
  {
    Uncached(analyse, series[a..], n - a, live) == Uncached(analyse, series[b..], n - b, live)
  }

  /** That is a matter of the drawn past alone. */
  lemma RibbonIsPast(analyse: Analyse, series: seq<Candle>, a: nat, b: nat, n: nat, live: Confluence)
    requires StrictlyOrdered(series) && n <= |series| && a + MIN_CHART_CANDLES <= n && b + MIN_CHART_CANDLES <= n
    ensures SameRibbon(analyse, series, a, b, n, live) <==>
              TruePast(analyse, series[a..], n - a) == TruePast(analyse, series[b..], n - b)
  {
    hide PointOf, Uncached, TruePast;
    TailOrdered(series, a);
    TailOrdered(series, b);
    UncachedIsTruePast(analyse, series[a..], n - a, live);
    UncachedIsTruePast(analyse, series[b..], n - b, live);
    assert series[a..][n - a - 1] == series[n - 1] == series[b..][n - b - 1];
    SameEndpoint(TruePast(analyse, series[a..], n - a), TruePast(analyse, series[b..], n - b), Shown(PointOf(series[n - 1].time, live)));
  }

  lemma SameEndpoint(x: seq<Point>, y: seq<Point>, end: Point)
    ensures x + [end] == y + [end] <==> x == y
  {
    assert (x + [end])[..|x + [end]| - 1] == x && (y + [end])[..|y + [end]| - 1] == y;
  }

  /** So from 71 drawn points after the meeting on, the cached ribbon and an uncached one are the same. */
  lemma MergedRibbonsAgree(analyse: Analyse, rel: Relation, series: seq<Candle>, a: nat, b: nat, c: nat, n: nat, live: Confluence)
    requires StrictlyOrdered(series) && Respects(analyse, rel)
    requires a <= b && b + REPLAY_ANALYSIS_WINDOW <= c < n <= |series|
    requires Related(rel, Replay(analyse, series[a..], c - a).prior, Replay(analyse, series[b..], c - b).prior)
    requires |Replay(analyse, series[a..], n - 1 - a).points|
               >= |Replay(analyse, series[a..], c - a).points| + HISTORY_WINDOW - 1
    ensures SameRibbon(analyse, series, a, b, n, live)
  {
    hide Replay, Respects, SameRibbon, LastN, ShownAll, StrictlyOrdered, Related;
    ReplaysMerge(analyse, rel, series, a, b, c, n - 1);
    SameEnds(Replay(analyse, series[a..], n - 1 - a).points, Replay(analyse, series[b..], n - 1 - b).points,
             |Replay(analyse, series[a..], c - a).points|, |Replay(analyse, series[b..], c - b).points|, HISTORY_WINDOW - 1);
    RibbonIsPast(analyse, series, a, b, n, live);
  }

  /** Whether the origin can be seen: all analyses draw the same ribbon from two origins exactly when they are one. */
  lemma OriginShowsExactly(template: State, series: seq<Candle>, a: nat, b: nat, n: nat, live: Confluence)
    requires StrictlyOrdered(series) && n <= |series| && a + MIN_CHART_CANDLES < n && b + MIN_CHART_CANDLES < n
    ensures (forall analyse: Analyse :: SameRibbon(analyse, series, a, b, n, live)) <==> a == b
  {
    if a != b {
      OriginIsCounted(template, series, a, b, n, live);
    }
  }

  lemma OriginIsCounted(template: State, series: seq<Candle>, a: nat, b: nat, n: nat, live: Confluence)
    requires StrictlyOrdered(series) && n <= |series| && a + MIN_CHART_CANDLES < n && b + MIN_CHART_CANDLES < n && a != b
    ensures !SameRibbon(Counting(template), series, a, b, n, live)
  {
    hide Replay, PointOf, SameRibbon, Counting, ShownAll, LastN;
    var analyse := Counting(template);
    RibbonIsPast(analyse, series, a, b, n, live);
    CountingReplay(template, series[a..], n - a - 1);
    CountingReplay(template, series[b..], n - b - 1);
    var end := Shown(PointOf(series[n - 1].time, live));
    LastsDiffer(Replay(analyse, series[a..], n - a - 1).points, Replay(analyse, series[b..], n - b - 1).points, end);
    SameEndpoint(TruePast(analyse, series[a..], n - a), TruePast(analyse, series[b..], n - b), end);
  }
}
