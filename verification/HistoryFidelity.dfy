/**
 When the incremental cache shows what a full replay would. Two states are compared by a relation
 that the analysis respects, so a live state may differ from the replayed one in whatever the
 machine never reads again: the preview, the flip signal of one call, and timestamps.
*/
module HistoryFidelity {
  import opened Common
  import opened Rounding
  import opened Hysteresis
  import opened StanceHistory

  // ----- States an analysis cannot tell apart -----

  type Relation = (State, State) -> bool

  predicate Related(rel: Relation, a: Option<State>, b: Option<State>) {
    if a.Some? && b.Some? then rel(a.value, b.value) else a.None? && b.None?
  }

  /** The two verdicts draw the same point and leave related states behind. */
  predicate Agree(rel: Relation, x: Option<Verdict>, y: Option<Verdict>) {
    if x.Some? && y.Some? then
      rel(x.value.state, y.value.state)
      && Shown(PointOf(0, AsConfluence(x.value))) == Shown(PointOf(0, AsConfluence(y.value)))
    else x.None? && y.None?
  }

  ghost predicate Respects(analyse: Analyse, rel: Relation) {
    && (forall s :: rel(s, s))
    && forall w, p, q :: Related(rel, p, q) ==> Agree(rel, analyse(w, p), analyse(w, q))
  }

  lemma RelatedPoints(analyse: Analyse, rel: Relation, candles: seq<Candle>, p: Option<State>, q: Option<State>)
    requires Respects(analyse, rel) && Related(rel, p, q) && candles != []
    ensures var x, y := ReplayPoint(analyse, candles, p), ReplayPoint(analyse, candles, q);
            && (x.Some? <==> y.Some?)
            && (x.Some? ==> Shown(x.value) == Shown(y.value) && x.value.state.Some? && y.value.state.Some?
                            && Related(rel, x.value.state, y.value.state))
  {
    hide Confidence, Reason;
    var w := LastN(candles, REPLAY_ANALYSIS_WINDOW);
    assert Agree(rel, analyse(w, p), analyse(w, q));
  }

  // ----- What is shown depends on the shown past only -----

  /** The shown points before the endpoint for the candle at the given time. */
  function Past(history: seq<Point>, time: int): seq<Point> {
    var earlier := if history != [] && history[|history| - 1].time == time then history[..|history| - 1] else history;
    ShownAll(LastN(earlier, HISTORY_WINDOW - 1))
  }

  lemma EndpointFollowsPast(history: seq<Point>, live: Confluence, time: int)
    ensures WithLiveEndpoint(history, live, time) == Past(history, time) + [Shown(PointOf(time, live))]
  {
    hide Confidence, Reason;
    var p := PointOf(time, live);
    var earlier := if history != [] && history[|history| - 1].time == time then history[..|history| - 1] else history;
    assert Endpointed(history, p) == earlier + [p];
    assert LastN(earlier + [p], HISTORY_WINDOW) == LastN(earlier, HISTORY_WINDOW - 1) + [p];
  }

  lemma SameShownSamePast(a: seq<Point>, b: seq<Point>, time: int)
    requires ShownAll(a) == ShownAll(b)
    ensures Past(a, time) == Past(b, time)
  {
    hide ShownAll, LastN, Shown;
    ShownPointwise(a, b);
    var x := if a != [] && a[|a| - 1].time == time then a[..|a| - 1] else a;
    var y := if b != [] && b[|b| - 1].time == time then b[..|b| - 1] else b;
    SameShownSameEnd(x, y, HISTORY_WINDOW - 1);
  }

  lemma SameShownSameEnd(a: seq<Point>, b: seq<Point>, n: nat)
    requires |a| == |b| && forall i :: 0 <= i < |a| ==> Shown(a[i]) == Shown(b[i])
    ensures ShownAll(LastN(a, n)) == ShownAll(LastN(b, n))
  {
    hide Shown;
  }

  lemma ShownPointwise(a: seq<Point>, b: seq<Point>)
    requires ShownAll(a) == ShownAll(b)
    ensures |a| == |b| && forall i :: 0 <= i < |a| ==> Shown(a[i]) == Shown(b[i]) && a[i].time == b[i].time
  {
    forall i | 0 <= i < |a| ensures Shown(a[i]) == Shown(b[i]) && a[i].time == b[i].time {
      assert ShownAll(a)[i] == Shown(a[i]) && ShownAll(b)[i] == Shown(b[i]);
      assert Shown(a[i]).time == a[i].time && Shown(b[i]).time == b[i].time;
    }
  }

  /** A freshly appended point is hidden behind the endpoint for its candle. */
  lemma NewestIsHidden(history: seq<Point>, p: Point)
    ensures Past(LastN(history + [p], HISTORY_WINDOW), p.time) == ShownAll(LastN(history, HISTORY_WINDOW - 1))
  {
    assert LastN(history + [p], HISTORY_WINDOW)[..|LastN(history + [p], HISTORY_WINDOW)| - 1] == LastN(history, HISTORY_WINDOW - 1);
  }

  lemma LastNShown(a: seq<Point>, b: seq<Point>)
    requires ShownAll(a) == ShownAll(LastN(b, HISTORY_WINDOW))
    ensures ShownAll(LastN(a, HISTORY_WINDOW - 1)) == ShownAll(LastN(b, HISTORY_WINDOW - 1))
  {
    ShownPointwise(a, LastN(b, HISTORY_WINDOW));
    assert LastN(LastN(b, HISTORY_WINDOW), HISTORY_WINDOW - 1) == LastN(b, HISTORY_WINDOW - 1);
  }

  /** The points an uncached call on n candles shows before its endpoint: those of the first n - 1. */
  function TruePast(analyse: Analyse, series: seq<Candle>, n: nat): seq<Point>
    requires 0 < n <= |series|
  {
    ShownAll(LastN(Replay(analyse, series, n - 1).points, HISTORY_WINDOW - 1))
  }

  lemma ReplayHidesNewest(analyse: Analyse, series: seq<Candle>, n: nat)
    requires StrictlyOrdered(series) && MIN_CHART_CANDLES <= n <= |series|
    ensures Past(LastN(Replay(analyse, series, n).points, HISTORY_WINDOW), series[n - 1].time) == TruePast(analyse, series, n)
  {
    hide Confidence, Reason, Past, ShownAll;
    var before := Replay(analyse, series, n - 1);
    var point := ReplayPoint(analyse, series[..n], before.prior);
    ReplayIsInOrder(analyse, series, n - 1);
    if point.Some? {
      assert point.value.time == series[n - 1].time;
      NewestIsHidden(before.points, point.value);
    } else {
      OlderIsKept(before.points, series[n - 2].time, series[n - 1].time);
    }
  }

  lemma OlderIsKept(points: seq<Point>, latest: int, time: int)
    requires AllBy(points, latest) && latest < time
    ensures Past(LastN(points, HISTORY_WINDOW), time) == ShownAll(LastN(points, HISTORY_WINDOW - 1))
  {
    assert LastN(LastN(points, HISTORY_WINDOW), HISTORY_WINDOW - 1) == LastN(points, HISTORY_WINDOW - 1);
  }

  lemma UncachedIsTruePast(analyse: Analyse, series: seq<Candle>, n: nat, live: Confluence)
    requires StrictlyOrdered(series) && MIN_CHART_CANDLES <= n <= |series|
    ensures Uncached(analyse, series, n, live) == TruePast(analyse, series, n) + [Shown(PointOf(series[n - 1].time, live))]
  {
    hide Replay, PointOf, Past, WithLiveEndpoint, TruePast;
    EndpointFollowsPast(LastN(Replay(analyse, series, n).points, HISTORY_WINDOW), live, series[n - 1].time);
    ReplayHidesNewest(analyse, series, n);
  }

  // ----- Entries -----

  predicate HistoryIs(analyse: Analyse, series: seq<Candle>, n: nat, history: seq<Point>)
    requires n <= |series|
  {
    ShownAll(history) == ShownAll(LastN(Replay(analyse, series, n).points, HISTORY_WINDOW))
  }

  /** The persisted live state is, up to the relation, the state the replay reaches at the same prefix. */
  predicate InStep(analyse: Analyse, rel: Relation, series: seq<Candle>, n: nat, state: Option<State>)
    requires n <= |series|
  {
    Related(rel, state, Replay(analyse, series, n).prior)
  }

  /** The entry is the full replay of the first n candles of the series. */
  predicate IsReplayOf(analyse: Analyse, rel: Relation, series: seq<Candle>, n: nat, e: Entry)
    requires 0 < n <= |series|
  {
    e.lastTime == series[n - 1].time && HistoryIs(analyse, series, n, e.history) && InStep(analyse, rel, series, n, e.prior)
  }

  lemma SamePlace(series: seq<Candle>, i: nat, j: nat)
    requires StrictlyOrdered(series) && i < |series| && j < |series| && series[i].time == series[j].time
    ensures i == j
  {
  }

  /** Which of its three ways a call takes, told from the entry's place in the series. */
  lemma WayOfCall(series: seq<Candle>, at: nat, n: nat, e: Entry)
    requires StrictlyOrdered(series) && MIN_CHART_CANDLES <= at <= |series| && MIN_CHART_CANDLES <= n <= |series|
    requires e.lastTime == series[at - 1].time
    ensures series[..n][n - 1].time == series[n - 1].time
    ensures e.lastTime == series[n - 1].time <==> n == at
    ensures CanIncrement(e, series[..n]) <==> n == at + 1 && e.prior.Some?
  {
    assert series[..n][n - 1] == series[n - 1] && series[..n][n - 2] == series[n - 2];
    if e.lastTime == series[n - 1].time {
      SamePlace(series, at - 1, n - 1);
    }
    if e.lastTime == series[n - 2].time {
      SamePlace(series, at - 1, n - 2);
    }
  }

  lemma EndpointIsRight(analyse: Analyse, series: seq<Candle>, n: nat, history: seq<Point>, live: Confluence)
    requires StrictlyOrdered(series) && MIN_CHART_CANDLES <= n <= |series|
    requires Past(history, series[n - 1].time) == TruePast(analyse, series, n)
    ensures WithLiveEndpoint(history, live, series[n - 1].time) == Uncached(analyse, series, n, live)
  {
    hide Past, TruePast, WithLiveEndpoint, Uncached, PointOf;
    EndpointFollowsPast(history, live, series[n - 1].time);
    UncachedIsTruePast(analyse, series, n, live);
  }

  lemma WholeHistoryIsRight(analyse: Analyse, series: seq<Candle>, n: nat, history: seq<Point>)
    requires StrictlyOrdered(series) && MIN_CHART_CANDLES <= n <= |series| && HistoryIs(analyse, series, n, history)
    ensures Past(history, series[n - 1].time) == TruePast(analyse, series, n)
  {
    hide Past, TruePast, ShownAll, Replay;
    SameShownSamePast(history, LastN(Replay(analyse, series, n).points, HISTORY_WINDOW), series[n - 1].time);
    ReplayHidesNewest(analyse, series, n);
  }

  /** A full replay is right from any cache. */
  lemma FullCall(analyse: Analyse, rel: Relation, series: seq<Candle>, n: nat, cached: Option<Entry>, live: Confluence)
    requires StrictlyOrdered(series) && Respects(analyse, rel) && MIN_CHART_CANDLES <= n <= |series|
    requires cached.Some? ==> cached.value.lastTime != series[n - 1].time && !CanIncrement(cached.value, series[..n])
    requires live.state.Some? ==> InStep(analyse, rel, series, n, live.state)
    ensures var outcome := Call(analyse, cached, series[..n], live);
            && outcome.Returned? && outcome.entry.Some? && IsReplayOf(analyse, rel, series, n, outcome.entry.value)
            && outcome.shown == Uncached(analyse, series, n, live)
  {
    hide Replay, WithLiveEndpoint, PointOf;
    assert series[..n][n - 1] == series[n - 1];
    ReplayReadsOnlyThePrefix(analyse, series[..n], series, n);
    PriorIsLastState(analyse, series, n);
  }

  /** An increment on a right history shows the right ribbon, whatever prior it continues from; the
      new point is right too if that prior was in step. */
  lemma Increment(analyse: Analyse, rel: Relation, series: seq<Candle>, n: nat, e: Entry, p: Point)
    requires StrictlyOrdered(series) && Respects(analyse, rel) && MIN_CHART_CANDLES < n <= |series|
    requires HistoryIs(analyse, series, n - 1, e.history)
    requires ReplayPoint(analyse, series[..n], e.prior) == Some(p)
    ensures var history := LastN(e.history + [p], HISTORY_WINDOW);
            && Past(history, series[n - 1].time) == TruePast(analyse, series, n)
            && (InStep(analyse, rel, series, n - 1, e.prior) ==> HistoryIs(analyse, series, n, history)
                                                                 && InStep(analyse, rel, series, n, p.state))
  {
    hide Past, ShownAll, Confidence, Reason;
    var before := Replay(analyse, series, n - 1);
    assert p.time == series[n - 1].time;
    NewestIsHidden(e.history, p);
    LastNShown(e.history, before.points);
    if InStep(analyse, rel, series, n - 1, e.prior) {
      RelatedPoints(analyse, rel, series[..n], e.prior, before.prior);
      var q := ReplayPoint(analyse, series[..n], before.prior).value;
      AppendShown(e.history, before.points, p, q);
    }
  }

  lemma AppendShown(a: seq<Point>, b: seq<Point>, p: Point, q: Point)
    requires ShownAll(a) == ShownAll(LastN(b, HISTORY_WINDOW)) && Shown(p) == Shown(q)
    ensures ShownAll(LastN(a + [p], HISTORY_WINDOW)) == ShownAll(LastN(b + [q], HISTORY_WINDOW))
  {
    ShownPointwise(a, LastN(b, HISTORY_WINDOW));
    var x, y := a + [p], LastN(b, HISTORY_WINDOW) + [q];
    assert LastN(y, HISTORY_WINDOW) == LastN(b + [q], HISTORY_WINDOW);
    assert ShownAll(LastN(x, HISTORY_WINDOW)) == ShownAll(LastN(y, HISTORY_WINDOW));
  }

  // ----- Live states in step -----

  /** The entry stands for the replay of the first `at` candles; 0 means nothing is cached. */
  predicate StandsFor(analyse: Analyse, rel: Relation, series: seq<Candle>, at: nat, cached: Option<Entry>) {
    if cached.None? then at == 0
    else MIN_CHART_CANDLES <= at <= |series| && IsReplayOf(analyse, rel, series, at, cached.value)
  }

  /** A cache that stands for `at` candles has to step onto a window the analysis refuses. */
  predicate Refuses(analyse: Analyse, series: seq<Candle>, at: nat, n: nat)
    requires n <= |series|
  {
    && MIN_CHART_CANDLES <= at && n == at + 1 && Replay(analyse, series, at).prior.Some?
    && ReplayPoint(analyse, series[..n], Replay(analyse, series, at).prior).None?
  }

  /** One call in step with the live state: it raises exactly on a refused next window, and otherwise
      shows what an uncached call would and leaves a full replay behind. */
  lemma CallRefinesReplay(analyse: Analyse, rel: Relation, series: seq<Candle>, n: nat, at: nat,
                          cached: Option<Entry>, live: Confluence)
    requires StrictlyOrdered(series) && Respects(analyse, rel) && n <= |series|
    requires StandsFor(analyse, rel, series, at, cached)
    requires n >= MIN_CHART_CANDLES ==> InStep(analyse, rel, series, n, live.state)
    ensures match Call(analyse, cached, series[..n], live)
            case Raised => Refuses(analyse, series, at, n)
            case Returned(entry, shown) =>
              && !Refuses(analyse, series, at, n)
              && StandsFor(analyse, rel, series, if n < MIN_CHART_CANDLES then at else n, entry)
              && shown == Uncached(analyse, series, n, live)
  {
    hide PointOf, WithLiveEndpoint, Replay, Past, TruePast, Uncached, ShownAll, ReplayPoint;
    if n < MIN_CHART_CANDLES {
      ShortCall(analyse, series, n, cached, live);
    } else if cached.None? {
      FullCall(analyse, rel, series, n, cached, live);
    } else {
      var e := cached.value;
      WayOfCall(series, at, n, e);
      if n == at {
        WholeHistoryIsRight(analyse, series, n, e.history);
        EndpointIsRight(analyse, series, n, e.history, live);
      } else if CanIncrement(e, series[..n]) {
        RelatedPoints(analyse, rel, series[..n], e.prior, Replay(analyse, series, at).prior);
        var point := ReplayPoint(analyse, series[..n], e.prior);
        if point.Some? {
          PointHasState(analyse, series[..n], e.prior);
          Increment(analyse, rel, series, n, e, point.value);
          EndpointIsRight(analyse, series, n, LastN(e.history + [point.value], HISTORY_WINDOW), live);
        }
      } else {
        FullCall(analyse, rel, series, n, cached, live);
      }
    }
  }

  lemma PointHasState(analyse: Analyse, candles: seq<Candle>, prior: Option<State>)
    requires candles != [] && ReplayPoint(analyse, candles, prior).Some?
    ensures ReplayPoint(analyse, candles, prior).value.state.Some?
  {
    hide Confidence, Reason;
  }

  lemma ShortCall(analyse: Analyse, series: seq<Candle>, n: nat, cached: Option<Entry>, live: Confluence)
    requires n <= |series| && n < MIN_CHART_CANDLES
    ensures Call(analyse, cached, series[..n], live) == Returned(cached, Uncached(analyse, series, n, live))
  {
    hide LiveOnly;
  }

  /** How many candles the cache stands for after i requests: those of the latest one that was long
      enough and not refused. It is told from replays alone. */
  function Standing(analyse: Analyse, series: seq<Candle>, requests: seq<Request>, i: nat): nat
    requires i <= |requests| && Within(requests, series)
  {
    if i == 0 then 0
    else
      var at, n := Standing(analyse, series, requests, i - 1), requests[i - 1].n;
      if n < MIN_CHART_CANDLES || Refuses(analyse, series, at, n) then at else n
  }

  ghost predicate AlwaysInStep(analyse: Analyse, rel: Relation, series: seq<Candle>, requests: seq<Request>)
    requires Within(requests, series)
  {
    forall j :: 0 <= j < |requests| && requests[j].n >= MIN_CHART_CANDLES ==>
      InStep(analyse, rel, series, requests[j].n, requests[j].live.state)
  }

  /** Over any sequence of requests, in any order and with any gaps: a request raises exactly when the
      cache stands for the candle before it and the replay skips its window, and every answer is the
      uncached one. */
  lemma {:induction false} CacheIsInvisible(analyse: Analyse, rel: Relation, series: seq<Candle>, requests: seq<Request>, i: nat)
    requires StrictlyOrdered(series) && Respects(analyse, rel) && Within(requests, series) && i < |requests|
    requires AlwaysInStep(analyse, rel, series, requests)
    ensures StandsFor(analyse, rel, series, Standing(analyse, series, requests, i), CacheAfter(analyse, series, requests, i))
    ensures var r, outcome := requests[i], Answer(analyse, series, requests, i);
            && (outcome.Raised? <==> Refuses(analyse, series, Standing(analyse, series, requests, i), r.n))
            && (outcome.Returned? ==> outcome.shown == Uncached(analyse, series, r.n, r.live))
  {
    hide Call, Uncached, Refuses, InStep;
    if i > 0 {
      CacheIsInvisible(analyse, rel, series, requests, i - 1);
      CallRefinesReplay(analyse, rel, series, requests[i - 1].n, Standing(analyse, series, requests, i - 1),
                        CacheAfter(analyse, series, requests, i - 1), requests[i - 1].live);
    }
    CallRefinesReplay(analyse, rel, series, requests[i].n, Standing(analyse, series, requests, i),
                      CacheAfter(analyse, series, requests, i), requests[i].live);
  }

  /** A request that raised keeps raising, but the next candle's request recovers by a full replay. */
  lemma NextCandleRecovers(analyse: Analyse, rel: Relation, series: seq<Candle>, requests: seq<Request>, i: nat)
    requires StrictlyOrdered(series) && Respects(analyse, rel) && Within(requests, series) && i + 1 < |requests|
    requires AlwaysInStep(analyse, rel, series, requests) && Answer(analyse, series, requests, i).Raised?
    ensures requests[i + 1].n == requests[i].n ==> Answer(analyse, series, requests, i + 1).Raised?
    ensures requests[i + 1].n == requests[i].n + 1 ==>
              Answer(analyse, series, requests, i + 1).Returned?
              && Answer(analyse, series, requests, i + 1).shown
                   == Uncached(analyse, series, requests[i + 1].n, requests[i + 1].live)
  {
    hide Answer, Uncached, InStep, Replay, ReplayPoint;
    CacheIsInvisible(analyse, rel, series, requests, i);
    CacheIsInvisible(analyse, rel, series, requests, i + 1);
  }

  // ----- Requests without a live state -----

  /** What can be said of the cache from the requests alone: the candles it stands for, whether its
      prior may be that of an earlier candle, and whether its last point may come from such a prior. */
  datatype Track = Track(at: nat, stale: bool, suspect: bool)

  /** What a request contributes to that: its candles, and whether a live state came with it. */
  datatype Slot = Slot(n: nat, carries: bool)

  function SlotOf(r: Request): Slot {
    Slot(r.n, r.live.state.Some?)
  }

  function Follow(t: Track, s: Slot): Track {
    if s.n < MIN_CHART_CANDLES then t
    else if s.n == t.at then t.(stale := t.stale && !s.carries)
    else if s.n == t.at + 1 then Track(s.n, !s.carries, t.stale)
    else Track(s.n, false, false)
  }

  function TrackAfter(schedule: seq<Slot>, i: nat): Track
    requires i <= |schedule|
  {
    if i == 0 then Track(0, false, false) else Follow(TrackAfter(schedule, i - 1), schedule[i - 1])
  }

  /** The request steps over a suspect point: it is no longer hidden behind the live endpoint. */
  predicate Exposes(t: Track, s: Slot) {
    s.n >= MIN_CHART_CANDLES && s.n == t.at + 1 && t.suspect
  }

  ghost predicate Safe(schedule: seq<Slot>) {
    forall i :: 0 <= i < |schedule| ==> !Exposes(TrackAfter(schedule, i), schedule[i])
  }

  predicate RefusedNext(analyse: Analyse, series: seq<Candle>, at: nat, prior: Option<State>) {
    prior.Some? && at < |series| && ReplayPoint(analyse, series[..at + 1], prior).None?
  }

  /** What the track promises of an entry that stands for k candles; k lags behind the track by one
      while a refused window keeps raising. */
  predicate Backs(analyse: Analyse, rel: Relation, series: seq<Candle>, k: nat, e: Entry, t: Track) {
    && MIN_CHART_CANDLES <= k <= |series| && e.lastTime == series[k - 1].time
    && (k == t.at || (k + 1 == t.at && RefusedNext(analyse, series, k, e.prior)))
    && (HistoryIs(analyse, series, k, e.history)
        || (k == t.at && t.suspect && Past(e.history, e.lastTime) == TruePast(analyse, series, k)))
    && (InStep(analyse, rel, series, k, e.prior) || (k == t.at && t.stale) || RefusedNext(analyse, series, k, e.prior))
  }

  ghost predicate Tracks(analyse: Analyse, rel: Relation, series: seq<Candle>, cached: Option<Entry>, t: Track) {
    if cached.None? then t == Track(0, false, false)
    else exists k :: Backs(analyse, rel, series, k, cached.value, t)
  }

  lemma HitKeepsTrack(analyse: Analyse, rel: Relation, series: seq<Candle>, n: nat, e: Entry, live: Confluence, t: Track)
    requires StrictlyOrdered(series) && n <= |series| && Backs(analyse, rel, series, n, e, t)
    requires live.state.Some? ==> InStep(analyse, rel, series, n, live.state)
    ensures match Call(analyse, Some(e), series[..n], live)
            case Raised => false
            case Returned(entry, shown) =>
              && entry.Some? && Backs(analyse, rel, series, n, entry.value, Follow(t, Slot(n, live.state.Some?)))
              && shown == Uncached(analyse, series, n, live)
  {
    hide PointOf, WithLiveEndpoint, Replay, Past, TruePast, Uncached, ShownAll, ReplayPoint, InStep, HistoryIs;
    WayOfCall(series, n, n, e);
    if HistoryIs(analyse, series, n, e.history) {
      WholeHistoryIsRight(analyse, series, n, e.history);
    }
    EndpointIsRight(analyse, series, n, e.history, live);
  }

  lemma StepKeepsTrack(analyse: Analyse, rel: Relation, series: seq<Candle>, n: nat, e: Entry, live: Confluence, t: Track)
    requires StrictlyOrdered(series) && Respects(analyse, rel) && 0 < n <= |series|
    requires Backs(analyse, rel, series, n - 1, e, t) && e.prior.Some?
    requires !Exposes(t, Slot(n, live.state.Some?))
    requires live.state.Some? ==> InStep(analyse, rel, series, n, live.state)
    ensures match Call(analyse, Some(e), series[..n], live)
            case Raised => Backs(analyse, rel, series, n - 1, e, Follow(t, Slot(n, live.state.Some?)))
            case Returned(entry, shown) =>
              && entry.Some? && Backs(analyse, rel, series, n, entry.value, Follow(t, Slot(n, live.state.Some?)))
              && shown == Uncached(analyse, series, n, live)
  {
    hide PointOf, WithLiveEndpoint, Replay, Past, TruePast, Uncached, ShownAll, ReplayPoint, InStep, HistoryIs, Respects;
    WayOfCall(series, n - 1, n, e);
    var point := ReplayPoint(analyse, series[..n], e.prior);
    if point.Some? {
      Increment(analyse, rel, series, n, e, point.value);
      EndpointIsRight(analyse, series, n, LastN(e.history + [point.value], HISTORY_WINDOW), live);
    }
  }

  lemma CallKeepsTrack(analyse: Analyse, rel: Relation, series: seq<Candle>, cached: Option<Entry>, t: Track, r: Request)
    requires StrictlyOrdered(series) && Respects(analyse, rel) && r.n <= |series|
    requires Tracks(analyse, rel, series, cached, t) && !Exposes(t, SlotOf(r))
    requires r.n >= MIN_CHART_CANDLES && r.live.state.Some? ==> InStep(analyse, rel, series, r.n, r.live.state)
    ensures match Call(analyse, cached, series[..r.n], r.live)
            case Raised => Tracks(analyse, rel, series, cached, Follow(t, SlotOf(r)))
            case Returned(entry, shown) =>
              && Tracks(analyse, rel, series, entry, Follow(t, SlotOf(r)))
              && shown == Uncached(analyse, series, r.n, r.live)
  {
    hide Call, Uncached, HistoryIs, InStep, ReplayPoint, Respects;
    if r.n < MIN_CHART_CANDLES {
      ShortCall(analyse, series, r.n, cached, r.live);
    } else if cached.None? {
      FullKeepsTrack(analyse, rel, series, cached, t, r);
    } else {
      var e := cached.value;
      var k :| Backs(analyse, rel, series, k, e, t);
      WayOfCall(series, k, r.n, e);
      if r.n == k && k == t.at {
        HitKeepsTrack(analyse, rel, series, r.n, e, r.live, t);
      } else if r.n == k {
        LateHitKeepsTrack(analyse, rel, series, r, e, t);
      } else if CanIncrement(e, series[..r.n]) {
        if k == t.at {
          StepKeepsTrack(analyse, rel, series, r.n, e, r.live, t);
        } else {
          RaisesAgain(analyse, rel, series, r, e, t);
        }
      } else {
        FullKeepsTrack(analyse, rel, series, cached, t, r);
      }
    }
  }

  /** While a window is refused, the request before it is a hit on an entry the track has left behind. */
  lemma LateHitKeepsTrack(analyse: Analyse, rel: Relation, series: seq<Candle>, r: Request, e: Entry, t: Track)
    requires StrictlyOrdered(series) && r.n <= |series|
    requires Backs(analyse, rel, series, r.n, e, t) && r.n + 1 == t.at
    requires r.live.state.Some? ==> InStep(analyse, rel, series, r.n, r.live.state)
    ensures match Call(analyse, Some(e), series[..r.n], r.live)
            case Raised => false
            case Returned(entry, shown) =>
              && entry.Some? && Backs(analyse, rel, series, r.n, entry.value, Follow(t, SlotOf(r)))
              && shown == Uncached(analyse, series, r.n, r.live)
  {
    HitKeepsTrack(analyse, rel, series, r.n, e, r.live, Track(r.n, false, false));
  }

  lemma RaisesAgain(analyse: Analyse, rel: Relation, series: seq<Candle>, r: Request, e: Entry, t: Track)
    requires StrictlyOrdered(series) && 0 < r.n <= |series|
    requires Backs(analyse, rel, series, r.n - 1, e, t) && r.n == t.at
    ensures Call(analyse, Some(e), series[..r.n], r.live).Raised?
    ensures Backs(analyse, rel, series, r.n - 1, e, Follow(t, SlotOf(r)))
  {
    hide PointOf, WithLiveEndpoint, Replay, Past, TruePast, ShownAll, ReplayPoint, InStep, HistoryIs;
    WayOfCall(series, r.n - 1, r.n, e);
  }

  lemma FullKeepsTrack(analyse: Analyse, rel: Relation, series: seq<Candle>, cached: Option<Entry>, t: Track, r: Request)
    requires StrictlyOrdered(series) && Respects(analyse, rel) && MIN_CHART_CANDLES <= r.n <= |series|
    requires cached.Some? ==> cached.value.lastTime != series[r.n - 1].time && !CanIncrement(cached.value, series[..r.n])
    requires cached.None? ==> t.at == 0
    requires cached.Some? ==> t.at != r.n
    requires r.live.state.Some? ==> InStep(analyse, rel, series, r.n, r.live.state)
    ensures var outcome := Call(analyse, cached, series[..r.n], r.live);
            && outcome.Returned? && Tracks(analyse, rel, series, outcome.entry, Follow(t, SlotOf(r)))
            && outcome.shown == Uncached(analyse, series, r.n, r.live)
  {
    hide Call, Uncached, HistoryIs, InStep, Respects;
    FullCall(analyse, rel, series, r.n, cached, r.live);
    var e := Call(analyse, cached, series[..r.n], r.live).entry.value;
    assert Backs(analyse, rel, series, r.n, e, Follow(t, SlotOf(r)));
  }

  predicate Fits(requests: seq<Request>, schedule: seq<Slot>) {
    |requests| == |schedule| && forall i :: 0 <= i < |requests| ==> SlotOf(requests[i]) == schedule[i]
  }

  /** Live states are in step whenever they are present. */
  ghost predicate InStepIfPresent(analyse: Analyse, rel: Relation, series: seq<Candle>, requests: seq<Request>)
    requires Within(requests, series)
  {
    forall j :: 0 <= j < |requests| && requests[j].n >= MIN_CHART_CANDLES && requests[j].live.state.Some? ==>
      InStep(analyse, rel, series, requests[j].n, requests[j].live.state)
  }

  /** Every answer that does not raise is the uncached one. */
  ghost predicate AllUncached(analyse: Analyse, series: seq<Candle>, requests: seq<Request>)
    requires Within(requests, series)
  {
    forall i :: 0 <= i < |requests| ==> IsUncached(analyse, series, requests, i)
  }

  predicate IsUncached(analyse: Analyse, series: seq<Candle>, requests: seq<Request>, i: nat)
    requires Within(requests, series) && i < |requests|
  {
    var outcome := Answer(analyse, series, requests, i);
    outcome.Returned? ==> outcome.shown == Uncached(analyse, series, requests[i].n, requests[i].live)
  }

  /** Up to the first exposing request the cache is as the track says and every answer is right. */
  lemma {:induction false} SafeSoFar(analyse: Analyse, rel: Relation, series: seq<Candle>, requests: seq<Request>,
                                     schedule: seq<Slot>, i: nat)
    requires StrictlyOrdered(series) && Respects(analyse, rel) && Within(requests, series) && Fits(requests, schedule)
    requires InStepIfPresent(analyse, rel, series, requests) && i <= |requests|
    requires forall j :: 0 <= j < i ==> !Exposes(TrackAfter(schedule, j), schedule[j])
    ensures Tracks(analyse, rel, series, CacheAfter(analyse, series, requests, i), TrackAfter(schedule, i))
    ensures forall j :: 0 <= j < i ==> IsUncached(analyse, series, requests, j)
  {
    hide Call, Uncached, Exposes, Follow, InStep, Tracks;
    if i == 0 {
      NothingIsTracked(analyse, rel, series);
    } else {
      SafeSoFar(analyse, rel, series, requests, schedule, i - 1);
      CallKeepsTrack(analyse, rel, series, CacheAfter(analyse, series, requests, i - 1), TrackAfter(schedule, i - 1), requests[i - 1]);
    }
  }

  lemma NothingIsTracked(analyse: Analyse, rel: Relation, series: seq<Candle>)
    ensures Tracks(analyse, rel, series, None, Track(0, false, false))
  {
  }

  // ----- An analysis that shows what it was given -----

  /** It counts the candles its state has been through, in the state and in what it draws. */
  function Counting(template: State): Analyse {
    (w: seq<Candle>, p: Option<State>) =>
      var count := if p.None? then 1 else p.value.candlesInState + 1;
      Some(Verdict(template.(candlesInState := count), 0.0, 0.0, Claims(count), []))
  }

  function Claims(count: int): seq<string> {
    seq(if count < 0 then 0 else count, _ => "held")
  }

  function Counted(template: State, n: nat): State {
    template.(candlesInState := n - MIN_CHART_CANDLES + 1)
  }

  lemma {:induction false} CountingReplay(template: State, series: seq<Candle>, n: nat)
    requires n <= |series|
    ensures var r := Replay(Counting(template), series, n);
            if n < MIN_CHART_CANDLES then r == Replayed([], None)
            else && r.prior == Some(Counted(template, n)) && r.points != []
                 && r.points[|r.points| - 1].longCount == n - MIN_CHART_CANDLES + 1
                 && r.points[|r.points| - 1].time == series[n - 1].time
  {
    hide Confidence, Reason;
    if n >= MIN_CHART_CANDLES {
      CountingReplay(template, series, n - 1);
    }
  }

  function Played(template: State, s: Slot): Request {
    Request(s.n, Confluence(template.stance, if s.carries then Some(Counted(template, s.n)) else None, 0.0, 0.0, [], []))
  }

  function PlayedAll(template: State, schedule: seq<Slot>): seq<Request> {
    seq(|schedule|, i requires 0 <= i < |schedule| => Played(template, schedule[i]))
  }

  /** Under the counting analysis a stale prior has counted too little, and so has a suspect point. */
  predicate Miscounts(series: seq<Candle>, cached: Option<Entry>, t: Track) {
    if cached.None? then t == Track(0, false, false)
    else
      var e := cached.value;
      var due := t.at - MIN_CHART_CANDLES + 1;
      && MIN_CHART_CANDLES <= t.at <= |series| && e.lastTime == series[t.at - 1].time
      && e.prior.Some? && e.prior.value.candlesInState <= due && (t.stale ==> e.prior.value.candlesInState < due)
      && e.history != [] && e.history[|e.history| - 1].time == e.lastTime
      && (t.suspect ==> e.history[|e.history| - 1].longCount < due)
  }

  lemma CountingPoint(template: State, candles: seq<Candle>, prior: Option<State>)
    requires candles != [] && prior.Some?
    ensures var p := ReplayPoint(Counting(template), candles, prior);
            && p.Some? && p.value.time == candles[|candles| - 1].time
            && p.value.longCount == |Claims(prior.value.candlesInState + 1)|
  {
    hide Confidence, Reason;
  }

  lemma CountingIncrement(template: State, series: seq<Candle>, e: Entry, t: Track, s: Slot)
    requires StrictlyOrdered(series) && MIN_CHART_CANDLES < s.n <= |series| && Miscounts(series, Some(e), t) && s.n == t.at + 1
    ensures var outcome := Call(Counting(template), Some(e), series[..s.n], Played(template, s).live);
            outcome.Returned? && Miscounts(series, outcome.entry, Follow(t, s))
  {
    hide Replay, WithLiveEndpoint, PointOf, ReplayPoint, CanIncrement, Counting;
    assert series[..s.n][s.n - 1] == series[s.n - 1];
    WayOfCall(series, t.at, s.n, e);
    CountingPoint(template, series[..s.n], e.prior);
  }

  lemma CountingFull(template: State, series: seq<Candle>, cached: Option<Entry>, t: Track, s: Slot)
    requires StrictlyOrdered(series) && MIN_CHART_CANDLES <= s.n <= |series| && Miscounts(series, cached, t)
    requires cached.None? || (s.n != t.at && s.n != t.at + 1)
    ensures var outcome := Call(Counting(template), cached, series[..s.n], Played(template, s).live);
            outcome.Returned? && Miscounts(series, outcome.entry, Follow(t, s))
  {
    hide Replay, WithLiveEndpoint, PointOf, ReplayPoint, CanIncrement, Counting;
    var analyse := Counting(template);
    assert series[..s.n][s.n - 1] == series[s.n - 1];
    if cached.Some? {
      WayOfCall(series, t.at, s.n, cached.value);
    }
    ReplayReadsOnlyThePrefix(analyse, series[..s.n], series, s.n);
    PriorIsLastState(analyse, series, s.n);
    CountingReplay(template, series, s.n);
  }

  lemma CountingStep(template: State, series: seq<Candle>, cached: Option<Entry>, t: Track, s: Slot)
    requires StrictlyOrdered(series) && s.n <= |series| && Miscounts(series, cached, t)
    ensures var outcome := Call(Counting(template), cached, series[..s.n], Played(template, s).live);
            outcome.Returned? && Miscounts(series, outcome.entry, Follow(t, s))
  {
    hide Replay, WithLiveEndpoint, PointOf, ReplayPoint, CanIncrement, Counting, LiveOnly;
    if s.n >= MIN_CHART_CANDLES {
      if cached.None? || (s.n != t.at && s.n != t.at + 1) {
        CountingFull(template, series, cached, t, s);
      } else if s.n == t.at {
        WayOfCall(series, t.at, s.n, cached.value);
      } else {
        CountingIncrement(template, series, cached.value, t, s);
      }
    }
  }

  lemma {:induction false} CountingRun(template: State, series: seq<Candle>, schedule: seq<Slot>, i: nat)
    requires StrictlyOrdered(series) && Within(PlayedAll(template, schedule), series) && i <= |schedule|
    ensures Miscounts(series, CacheAfter(Counting(template), series, PlayedAll(template, schedule), i), TrackAfter(schedule, i))
  {
    hide Call, Follow, Miscounts, Played;
    if i == 0 {
      NothingMiscounts(series);
    } else {
      CountingRun(template, series, schedule, i - 1);
      var requests := PlayedAll(template, schedule);
      assert requests[i - 1] == Played(template, schedule[i - 1]);
      PlayedIsSlot(template, schedule[i - 1]);
      CountingStep(template, series, CacheAfter(Counting(template), series, requests, i - 1), TrackAfter(schedule, i - 1), schedule[i - 1]);
    }
  }

  lemma NothingMiscounts(series: seq<Candle>)
    ensures Miscounts(series, None, Track(0, false, false))
  {
  }

  lemma PlayedIsSlot(template: State, s: Slot)
    ensures SlotOf(Played(template, s)) == s
    ensures Played(template, s).n == s.n
  {
  }

  lemma IncrementShows(analyse: Analyse, series: seq<Candle>, n: nat, e: Entry, live: Confluence)
    requires StrictlyOrdered(series) && MIN_CHART_CANDLES < n <= |series| && e.lastTime == series[n - 2].time && e.prior.Some?
    requires ReplayPoint(analyse, series[..n], e.prior).Some?
    ensures var outcome := Call(analyse, Some(e), series[..n], live);
            && outcome.Returned?
            && outcome.shown == ShownAll(LastN(e.history, HISTORY_WINDOW - 1)) + [Shown(PointOf(series[n - 1].time, live))]
  {
    hide Replay, WithLiveEndpoint, Past, CanIncrement, Confidence, Reason, ShownAll, LastN;
    WayOfCall(series, n - 1, n, e);
    var p := ReplayPoint(analyse, series[..n], e.prior).value;
    assert p.time == series[n - 1].time;
    NewestIsHidden(e.history, p);
    EndpointFollowsPast(LastN(e.history + [p], HISTORY_WINDOW), live, series[n - 1].time);
  }

  /** The exposing request shows a point that has counted too little just before its endpoint. */
  lemma ExposedIsWrong(template: State, series: seq<Candle>, cached: Option<Entry>, t: Track, s: Slot)
    requires StrictlyOrdered(series) && s.n <= |series| && Miscounts(series, cached, t) && Exposes(t, s)
    ensures var analyse, live := Counting(template), Played(template, s).live;
            var outcome := Call(analyse, cached, series[..s.n], live);
            outcome.Returned? && outcome.shown != Uncached(analyse, series, s.n, live)
  {
    hide Replay, PointOf, ReplayPoint, Call, Uncached, ShownAll, LastN, Counting;
    var analyse, live := Counting(template), Played(template, s).live;
    var e := cached.value;
    CountingPoint(template, series[..s.n], e.prior);
    IncrementShows(analyse, series, s.n, e, live);
    UncachedIsTruePast(analyse, series, s.n, live);
    CountingReplay(template, series, s.n - 1);
    LastsDiffer(e.history, Replay(analyse, series, s.n - 1).points, Shown(PointOf(series[s.n - 1].time, live)));
  }

  lemma LastsDiffer(a: seq<Point>, b: seq<Point>, end: Point)
    requires a != [] && b != [] && a[|a| - 1].longCount != b[|b| - 1].longCount
    ensures ShownAll(LastN(a, HISTORY_WINDOW - 1)) + [end] != ShownAll(LastN(b, HISTORY_WINDOW - 1)) + [end]
  {
    var x, y := ShownAll(LastN(a, HISTORY_WINDOW - 1)), ShownAll(LastN(b, HISTORY_WINDOW - 1));
    assert x[|x| - 1] == Shown(a[|a| - 1]) && y[|y| - 1] == Shown(b[|b| - 1]);
    assert (x + [end])[..|x|] == x && (y + [end])[..|y|] == y;
    assert |x| != |y| || x[|x| - 1] != y[|y| - 1];
  }

  lemma {:induction false} PlayedIsInStep(template: State, series: seq<Candle>, schedule: seq<Slot>)
    requires Within(PlayedAll(template, schedule), series)
    ensures Fits(PlayedAll(template, schedule), schedule)
    ensures InStepIfPresent(Counting(template), (a, b) => a == b, series, PlayedAll(template, schedule))
  {
    var requests := PlayedAll(template, schedule);
    forall j | 0 <= j < |requests| && requests[j].n >= MIN_CHART_CANDLES && requests[j].live.state.Some?
      ensures InStep(Counting(template), (a, b) => a == b, series, requests[j].n, requests[j].live.state)
    {
      assert requests[j] == Played(template, schedule[j]);
      CountingReplay(template, series, requests[j].n);
    }
  }

  lemma EqualityIsRespected(analyse: Analyse)
    ensures Respects(analyse, (a, b) => a == b)
  {
    hide Confidence, Reason;
  }

  /** Whatever the analysis does, whatever relation it respects and whichever live states come, as long as those
      that come are in step. */
  ghost predicate Faithful(series: seq<Candle>, schedule: seq<Slot>) {
    forall analyse: Analyse, rel: Relation, requests: seq<Request> ::
      Respects(analyse, rel) && Within(requests, series) && Fits(requests, schedule)
      && InStepIfPresent(analyse, rel, series, requests)
      ==> AllUncached(analyse, series, requests)
  }

  lemma SafeIsFaithful(series: seq<Candle>, schedule: seq<Slot>)
    requires StrictlyOrdered(series) && Safe(schedule)
    ensures Faithful(series, schedule)
  {
    hide Respects, InStepIfPresent, IsUncached, Exposes, TrackAfter;
    forall analyse: Analyse, rel: Relation, requests: seq<Request>
      | Respects(analyse, rel) && Within(requests, series) && Fits(requests, schedule)
        && InStepIfPresent(analyse, rel, series, requests)
      ensures AllUncached(analyse, series, requests)
    {
      SafeSoFar(analyse, rel, series, requests, schedule, |schedule|);
    }
  }

  lemma {:induction false} ExposedAnswer(template: State, series: seq<Candle>, schedule: seq<Slot>, i: nat)
    requires StrictlyOrdered(series) && forall j :: 0 <= j < |schedule| ==> schedule[j].n <= |series|
    requires i < |schedule| && Exposes(TrackAfter(schedule, i), schedule[i])
    ensures Within(PlayedAll(template, schedule), series)
    ensures !IsUncached(Counting(template), series, PlayedAll(template, schedule), i)
  {
    hide Exposes, Miscounts, Call, Uncached, Played;
    var requests := PlayedAll(template, schedule);
    forall j | 0 <= j < |requests| ensures requests[j].n <= |series| {
      PlayedIsSlot(template, schedule[j]);
    }
    CountingRun(template, series, schedule, i);
    PlayedIsSlot(template, schedule[i]);
    ExposedIsWrong(template, series, CacheAfter(Counting(template), series, requests, i), TrackAfter(schedule, i), schedule[i]);
  }

  /** Every answer is the uncached one, under every analysis, exactly when no request steps over a
      suspect point: when no increment without a live state is followed by an increment before a
      live state comes, and that one by another before a full replay. */
  lemma FaithfulExactly(template: State, series: seq<Candle>, schedule: seq<Slot>)
    requires StrictlyOrdered(series) && forall i :: 0 <= i < |schedule| ==> schedule[i].n <= |series|
    ensures Faithful(series, schedule) <==> Safe(schedule)
  {
    hide Exposes, TrackAfter, Respects, InStepIfPresent, IsUncached, PlayedAll;
    if Safe(schedule) {
      SafeIsFaithful(series, schedule);
    } else {
      var i: nat :| i < |schedule| && Exposes(TrackAfter(schedule, i), schedule[i]);
      ExposedAnswer(template, series, schedule, i);
      PlayedIsInStep(template, series, schedule);
      EqualityIsRespected(Counting(template));
      assert !AllUncached(Counting(template), series, PlayedAll(template, schedule));
    }
  }

  /** When every request brings its live state nothing is ever exposed. */
  lemma {:induction false} CarriedIsSafe(schedule: seq<Slot>)
    requires forall i :: 0 <= i < |schedule| ==> schedule[i].carries
    ensures Safe(schedule)
  {
    forall i | 0 <= i < |schedule| ensures !Exposes(TrackAfter(schedule, i), schedule[i]) {
      CarriedIsFresh(schedule, i);
    }
  }

  lemma {:induction false} CarriedIsFresh(schedule: seq<Slot>, i: nat)
    requires i <= |schedule| && forall j :: 0 <= j < |schedule| ==> schedule[j].carries
    ensures !TrackAfter(schedule, i).stale && !TrackAfter(schedule, i).suspect
  {
    if i > 0 {
      CarriedIsFresh(schedule, i - 1);
    }
  }

  /** Four consecutive candles, the second without its live state. */
  const GAP := [Slot(100, true), Slot(101, false), Slot(102, true), Slot(103, true)]

  lemma GapIsExposed()
    ensures Exposes(TrackAfter(GAP, 3), GAP[3]) && Safe(GAP[..3])
  {
    assert TrackAfter(GAP, 1) == Track(100, false, false);
    assert TrackAfter(GAP, 2) == Track(101, true, false);
    assert TrackAfter(GAP, 3) == Track(102, false, true);
    forall i | 0 <= i < 3 ensures TrackAfter(GAP[..3], i) == TrackAfter(GAP, i) {
      TrackReadsThePast(GAP[..3], GAP, i);
    }
  }

  lemma {:induction false} TrackReadsThePast(a: seq<Slot>, b: seq<Slot>, i: nat)
    requires i <= |a| && i <= |b| && a[..i] == b[..i]
    ensures TrackAfter(a, i) == TrackAfter(b, i)
  {
    hide Follow;
    if i > 0 {
      assert a[..i - 1] == a[..i][..i - 1] == b[..i - 1];
      assert a[i - 1] == a[..i][i - 1] == b[i - 1];
      TrackReadsThePast(a, b, i - 1);
    }
  }

  /** Then the fourth answer differs; the third does not yet, under any analysis, as the live endpoint
      still hides the point drawn from the stale prior. */
  lemma MissingLiveStateGoesStale(template: State, series: seq<Candle>)
    requires StrictlyOrdered(series) && |series| >= 103
    ensures var requests := PlayedAll(template, GAP);
            && Within(requests, series)
            && InStepIfPresent(Counting(template), (a, b) => a == b, series, requests)
            && !IsUncached(Counting(template), series, requests, 3)
    ensures Faithful(series, GAP[..3])
  {
    hide PlayedAll, Exposes, TrackAfter, IsUncached, InStepIfPresent, Safe, Faithful;
    GapIsExposed();
    ExposedAnswer(template, series, GAP, 3);
    PlayedIsInStep(template, series, GAP);
    SafeIsFaithful(series, GAP[..3]);
  }

  // ----- The directional machine as the analysis -----

  /** What the chart and the evidence of one window amount to. */
  datatype Reading = Reading(observation: Observation, longClaims: seq<string>, shortClaims: seq<string>)

  /** The replay's analysis: read the window, then step the machine from the prior. */
  function Stepping(m: Setup, read: seq<Candle> -> Option<Reading>): Analyse {
    (w: seq<Candle>, p: Option<State>) =>
      match read(w)
      case None => None
      case Some(r) => Some(VerdictOf(m, p, r))
  }

  function VerdictOf(m: Setup, prior: Option<State>, r: Reading): Verdict {
    Verdict(Resolve(m, prior, r.observation), r.observation.longScore, r.observation.shortScore, r.longClaims, r.shortClaims)
  }

  /** All of a state that later steps and the ribbon ever read again. */
  predicate Kin(a: State, b: State) {
    && a.stance == b.stance && a.transitioning == b.transitioning
    && a.pending == b.pending && a.pendingCount == b.pendingCount
    && a.longEma == b.longEma && a.shortEma == b.shortEma && a.lastBarAt == b.lastBarAt
  }

  /** Kin states stay kin on the same evidence, read at any two times, and draw the same point. */
  lemma KinDecidesNext(m: Setup, a: Option<State>, b: Option<State>, o: Observation, now: int)
    requires Related(Kin, a, b)
    ensures var x, y := Resolve(m, a, o), Resolve(m, b, o.(now := now));
            Kin(x, y) && x.flipped == y.flipped && x.preview.rawStance == y.preview.rawStance
  {
    hide Round, Ema, Lead;
  }

  lemma SteppingAgrees(m: Setup, p: Option<State>, q: Option<State>, r: Reading)
    requires Related(Kin, p, q)
    ensures Agree(Kin, Some(VerdictOf(m, p, r)), Some(VerdictOf(m, q, r)))
  {
    hide Resolve, RoundAt;
    KinDecidesNext(m, p, q, r.observation, r.observation.now);
    assert r.observation.(now := r.observation.now) == r.observation;
  }

  /** So the cache is invisible although live states carry their own clock, preview and flip memory. */
  lemma SteppingRespectsKin(m: Setup, read: seq<Candle> -> Option<Reading>)
    ensures Respects(Stepping(m, read), Kin)
  {
    forall w, p, q | Related(Kin, p, q) ensures Agree(Kin, Stepping(m, read)(w, p), Stepping(m, read)(w, q)) {
      if read(w).Some? {
        SteppingAgrees(m, p, q, read(w).value);
      }
    }
  }

  /** A live state in step stays in step however often its candle is polled again, and at the next
      candle's first poll, at whatever time it comes, it is in step with the next replayed state, as
      long as the live poll reads the evidence the replay reads. The replay reads candles only, with
      no funding and no open interest, so live evidence may differ; then the two part. */
  lemma LivePollsStayInStep(m: Setup, live: State, replayed: State, o: Observation, now: int)
    requires Kin(live, replayed)
    ensures !Newer(live.lastBarAt, o.barAt) ==> Kin(Resolve(m, Some(live), o), replayed)
    ensures Kin(Resolve(m, Some(live), o.(now := now)), Resolve(m, Some(replayed), o))
  {
    hide Advance;
    KinDecidesNext(m, Some(replayed), Some(live), o, now);
  }
}
