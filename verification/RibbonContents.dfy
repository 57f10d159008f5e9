/**
 What the ribbon of past stances shows, point by point, in terms of the machine's own run over the
 windows that can be analysed, without the functions that draw it.
*/
module RibbonContents {
  import opened Common
  import opened RealArithmetic
  import opened Rounding
  import opened Hysteresis
  import opened StanceRuns
  import opened StanceHistory
  import opened HistoryFidelity

  /** One analysable candle: its time and what its window amounts to. */
  datatype Sighting = Sighting(time: int, reading: Reading)

  /** The last 200 of the first k candles. */
  function WindowAt(candles: seq<Candle>, k: nat): seq<Candle>
    requires k <= |candles|
  {
    if k <= 200 then candles[..k] else candles[k - 200..k]
  }

  /** The candles from the hundredth on whose windows can be analysed. */
  function Sightings(read: seq<Candle> -> Option<Reading>, candles: seq<Candle>, n: nat): seq<Sighting>
    requires n <= |candles|
  {
    if n < 100 then []
    else
      var r := read(WindowAt(candles, n));
      Sightings(read, candles, n - 1) + if r.Some? then [Sighting(candles[n - 1].time, r.value)] else []
  }

  function Observations(seen: seq<Sighting>): (obs: seq<Observation>)
    ensures |obs| == |seen|
  {
    seq(|seen|, i requires 0 <= i < |seen| => seen[i].reading.observation)
  }

  /** The size of the relative difference of two scores, to three decimals. */
  predicate TellsConfidence(confidence: real, long: real, short: real) {
    if long + short <= 0.0 then confidence == 0.0
    else confidence == Abs(RoundAt((long - short) / (long + short), 1000.0))
  }

  /** The point tells the held stance and its flags, what the candle says by itself, how many claims each
      side makes, the first claim of the held side, and the confidence of the smoothed scores, a zero
      among them replaced by the instantaneous score. */
  predicate Tells(p: Point, time: int, s: State, raw: Stance, longScore: real, shortScore: real,
                  longClaims: seq<string>, shortClaims: seq<string>)
  {
    && p.time == time && p.stance == s.stance && p.previewStance == Some(raw)
    && p.transitioning == s.transitioning && p.flipped == s.flipped
    && p.longCount == |longClaims| && p.shortCount == |shortClaims|
    && (s.stance == LongLeaning && longClaims != [] && longClaims[0] != "" ==> p.reason == longClaims[0])
    && (s.stance == ShortLeaning && shortClaims != [] && shortClaims[0] != "" ==> p.reason == shortClaims[0])
    && (s.stance == LongLeaning && longClaims != [] && longClaims[0] == "" ==> p.reason == "stance change")
    && (s.stance == ShortLeaning && shortClaims != [] && shortClaims[0] == "" ==> p.reason == "stance change")
    && (s.stance == LongLeaning && longClaims == [] ==> p.reason == "balanced evidence")
    && (s.stance == ShortLeaning && shortClaims == [] ==> p.reason == "balanced evidence")
    && (!Directional(s.stance) ==> p.reason == "balanced evidence")
    && TellsConfidence(p.confidence, if s.longEma == 0.0 then longScore else s.longEma,
                       if s.shortEma == 0.0 then shortScore else s.shortEma)
  }

  predicate TellsSighting(p: Point, s: State, at: Sighting) {
    var o := at.reading.observation;
    Tells(p, at.time, s, RawStance(o), o.longScore, o.shortScore, at.reading.longClaims, at.reading.shortClaims)
  }

  lemma DrawnVerdict(m: Setup, prior: Option<State>, at: Sighting)
    ensures var s := Resolve(m, prior, at.reading.observation);
            TellsSighting(PointOf(at.time, AsConfluence(VerdictOf(m, prior, at.reading))), s, at)
  {
    var s := Resolve(m, prior, at.reading.observation);
    assert s.preview.rawStance == RawStance(at.reading.observation);
    hide Resolve, RawStance;
    PayloadConfidence(AsConfluence(VerdictOf(m, prior, at.reading)));
    hide Confidence, TellsConfidence;
  }

  lemma PayloadConfidence(c: Confluence)
    requires c.state.Some?
    ensures var s := c.state.value;
            TellsConfidence(Confidence(c), if s.longEma == 0.0 then c.longScore else s.longEma,
                            if s.shortEma == 0.0 then c.shortScore else s.shortEma)
  {
    hide RoundAt;
    var long, short := OrElse(c.state.value.longEma, c.longScore), OrElse(c.state.value.shortEma, c.shortScore);
    if long + short > 0.0 {
      SizeRounds(long - short, long + short);
    }
  }

  /** The state of the undisturbed run over the analysable candles after i of them. */
  function StateAt(m: Setup, seen: seq<Sighting>, i: nat): (s: Option<State>)
    requires i <= |seen|
    ensures i > 0 ==> s.Some?
  {
    After(m, None, Observations(seen), i)
  }

  lemma StateAtAppends(m: Setup, past: seq<Sighting>, at: Sighting, i: nat)
    requires i <= |past|
    ensures StateAt(m, past + [at], i) == StateAt(m, past, i)
    ensures StateAt(m, past + [at], |past| + 1) == Some(Resolve(m, StateAt(m, past, |past|), at.reading.observation))
  {
    hide Resolve;
    assert Observations(past + [at]) == Observations(past) + [at.reading.observation];
    AfterExtends(m, None, Observations(past), at.reading.observation, i);
    AfterAppends(m, None, Observations(past), at.reading.observation);
  }

  /** Point i tells the state after sighting i. */
  predicate ToldAt(m: Setup, points: seq<Point>, seen: seq<Sighting>, i: nat)
    requires |points| == |seen| && i < |seen|
  {
    TellsSighting(points[i], StateAt(m, seen, i + 1).value, seen[i])
  }

  lemma ToldAppends(m: Setup, points: seq<Point>, seen: seq<Sighting>, p: Point, at: Sighting)
    requires |points| == |seen| && forall i :: 0 <= i < |seen| ==> ToldAt(m, points, seen, i)
    requires TellsSighting(p, Resolve(m, StateAt(m, seen, |seen|), at.reading.observation), at)
    ensures forall i :: 0 <= i < |seen| + 1 ==> ToldAt(m, points + [p], seen + [at], i)
  {
    hide Resolve, TellsSighting, StateAt;
    forall i | 0 <= i < |seen| + 1 ensures ToldAt(m, points + [p], seen + [at], i) {
      if i < |seen| {
        assert ToldAt(m, points, seen, i);
        StateAtAppends(m, seen, at, i + 1);
      } else {
        StateAtAppends(m, seen, at, |seen|);
      }
    }
  }

  /** The points of a replay, oldest first, tell the states of the run over the analysable candles. */
  lemma {:induction false} ReplayTellsTheRun(m: Setup, read: seq<Candle> -> Option<Reading>, candles: seq<Candle>, n: nat)
    requires n <= |candles|
    ensures var r, seen := Replay(Stepping(m, read), candles, n), Sightings(read, candles, n);
            && |r.points| == |seen| && r.prior == StateAt(m, seen, |seen|)
            && forall i :: 0 <= i < |seen| ==> ToldAt(m, r.points, seen, i)
  {
    hide Resolve, TellsSighting, PointOf, ToldAt, ReplayPoint;
    if n >= 100 {
      ReplayTellsTheRun(m, read, candles, n - 1);
      var before, past := Replay(Stepping(m, read), candles, n - 1), Sightings(read, candles, n - 1);
      var r := read(WindowAt(candles, n));
      if r.Some? {
        var at := Sighting(candles[n - 1].time, r.value);
        NextPoint(m, read, candles, n, before.prior, at);
        StateAtAppends(m, past, at, 0);
        ToldAppends(m, before.points, past, ReplayPoint(Stepping(m, read), candles[..n], before.prior).value, at);
      } else {
        Unreadable(m, read, candles, n, before.prior);
        assert Sightings(read, candles, n) == past;
      }
    }
  }

  lemma Unreadable(m: Setup, read: seq<Candle> -> Option<Reading>, candles: seq<Candle>, n: nat, prior: Option<State>)
    requires 100 <= n <= |candles| && read(WindowAt(candles, n)).None?
    ensures ReplayPoint(Stepping(m, read), candles[..n], prior).None?
  {
    assert LastN(candles[..n], REPLAY_ANALYSIS_WINDOW) == WindowAt(candles, n);
  }

  lemma NextPoint(m: Setup, read: seq<Candle> -> Option<Reading>, candles: seq<Candle>, n: nat, prior: Option<State>, at: Sighting)
    requires 100 <= n <= |candles| && at.time == candles[n - 1].time && read(WindowAt(candles, n)) == Some(at.reading)
    ensures var s := Resolve(m, prior, at.reading.observation);
            var p := ReplayPoint(Stepping(m, read), candles[..n], prior);
            p.Some? && p.value.state == Some(s) && TellsSighting(p.value, s, at)
  {
    hide Resolve, TellsSighting, Confidence, Reason;
    assert LastN(candles[..n], REPLAY_ANALYSIS_WINDOW) == WindowAt(candles, n);
    DrawnVerdict(m, prior, at);
  }

  // ----- The ribbon as shown -----

  /** The endpoint tells the live payload: its state, or its bare stance if no state came. */
  predicate TellsLive(p: Point, time: int, live: Confluence) {
    if live.state.Some? && live.stance == live.state.value.stance then
      Tells(p, time, live.state.value, live.state.value.preview.rawStance, live.longScore, live.shortScore,
            live.longClaims, live.shortClaims)
    else
      && p.time == time && p.stance == (if live.state.Some? then live.state.value.stance else live.stance)
      && (live.state.None? ==> p.previewStance.None? && !p.transitioning && !p.flipped
                               && TellsConfidence(p.confidence, live.longScore, live.shortScore))
      && p.longCount == |live.longClaims| && p.shortCount == |live.shortClaims|
  }

  lemma BareConfidence(c: Confluence)
    requires c.state.None?
    ensures TellsConfidence(Confidence(c), c.longScore, c.shortScore)
  {
    hide RoundAt;
    if c.longScore + c.shortScore > 0.0 {
      SizeRounds(c.longScore - c.shortScore, c.longScore + c.shortScore);
    }
  }

  lemma LiveEndpointTells(time: int, live: Confluence)
    ensures TellsLive(Shown(PointOf(time, live)), time, live)
  {
    if live.state.Some? {
      PayloadConfidence(live);
    } else {
      BareConfidence(live);
    }
    hide Confidence, TellsConfidence;
  }

  lemma ShownTells(p: Point, s: State, at: Sighting)
    requires TellsSighting(p, s, at)
    ensures TellsSighting(Shown(p), s, at)
  {
  }

  /** The whole ribbon of an uncached call: the states of the run at the last 71 analysable candles before
      the latest one, in order, and then the live payload. */
  lemma RibbonTellsTheRun(m: Setup, read: seq<Candle> -> Option<Reading>, series: seq<Candle>, n: nat, live: Confluence)
    requires StrictlyOrdered(series) && 100 <= n <= |series|
    ensures var shown, seen := Uncached(Stepping(m, read), series, n, live), Sightings(read, series, n - 1);
            var skipped := if |seen| <= 71 then 0 else |seen| - 71;
            && |shown| == |seen| - skipped + 1
            && (forall i :: 0 <= i < |seen| - skipped ==>
                  TellsSighting(shown[i], StateAt(m, seen, skipped + i + 1).value, seen[skipped + i]))
            && TellsLive(shown[|shown| - 1], series[n - 1].time, live)
  {
    hide Replay, PointOf, Uncached, TellsSighting, TellsLive, StateAt, Tells, Shown;
    UncachedIsTruePast(Stepping(m, read), series, n, live);
    ReplayTellsTheRun(m, read, series, n - 1);
    LiveEndpointTells(series[n - 1].time, live);
    var points, seen := Replay(Stepping(m, read), series, n - 1).points, Sightings(read, series, n - 1);
    var skipped := if |seen| <= 71 then 0 else |seen| - 71;
    assert LastN(points, 71) == points[skipped..];
    forall i | 0 <= i < |seen| - skipped
      ensures TellsSighting(Uncached(Stepping(m, read), series, n, live)[i], StateAt(m, seen, skipped + i + 1).value, seen[skipped + i])
    {
      assert ToldAt(m, points, seen, skipped + i);
      ShownTells(points[skipped + i], StateAt(m, seen, skipped + i + 1).value, seen[skipped + i]);
    }
  }

  /** Below a hundred candles only the live payload is shown, and nothing without candles. */
  lemma ShortRibbonIsLive(m: Setup, read: seq<Candle> -> Option<Reading>, series: seq<Candle>, n: nat, live: Confluence)
    requires n <= |series| && n < 100
    ensures var shown := Uncached(Stepping(m, read), series, n, live);
            if n == 0 then shown == []
            else |shown| == 1 && TellsLive(shown[0], series[n - 1].time, live)
  {
    hide TellsLive;
    if n > 0 {
      assert series[..n][n - 1] == series[n - 1];
      LiveEndpointTells(series[n - 1].time, live);
      hide PointOf;
      EndpointFollowsPast([], live, series[n - 1].time);
    }
  }

  // ----- The candles replayed -----

  /** With the chart's own flag, the replayed candles are exactly the closed ones, as long as all but the last are. */
  lemma ReplayedCandlesAreClosed(candles: seq<Candle>, barMinutes: int, now: int, c: Candle)
    requires StrictlyOrdered(candles) && c in candles
    requires forall i :: 0 <= i < |candles| - 1 ==> candles[i].time + 60 * barMinutes <= now
    ensures var flag := Provisional(Some(candles[|candles| - 1].time), barMinutes, Some(now));
            c in ConfirmedCandles(candles, flag) <==> c.time + 60 * barMinutes <= now
  {
    var i :| 0 <= i < |candles| && candles[i] == c;
    var kept := candles[..|candles| - 1];
    if i < |candles| - 1 {
      assert kept[i] == c;
    }
  }

  /** Without a time nothing is known to be forming, and nothing is left out. */
  lemma UnflaggedCandlesAreReplayed(candles: seq<Candle>)
    ensures ConfirmedCandles(candles, None) == ConfirmedCandles(candles, Some(false)) == candles
  {
  }
}
