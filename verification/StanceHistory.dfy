/**
 The ribbon of past stances: replaying the machine over candle prefixes, and the incremental
 cache that is meant to return what a full replay would.

 The chart analysis of a candle window, together with the confluence built on it, is one
 deterministic function here: it either yields a verdict or refuses the window.
*/
module StanceHistory {
  import opened Common
  import opened RealArithmetic
  import opened Rounding
  import opened Hysteresis

  const HISTORY_WINDOW := 72
  const REPLAY_ANALYSIS_WINDOW := 200
  const MIN_CHART_CANDLES := 100

  datatype Candle = Candle(time: int, open: real, high: real, low: real, close: real, volume: real)

  /** A verdict on one window; its stance is the held stance of its state. */
  datatype Verdict = Verdict(
    state: State, longScore: real, shortScore: real, longClaims: seq<string>, shortClaims: seq<string>)

  /** A confluence payload as the page receives it: the state may be missing. */
  datatype Confluence = Confluence(
    stance: Stance, state: Option<State>, longScore: real, shortScore: real,
    longClaims: seq<string>, shortClaims: seq<string>)

  datatype Point = Point(
    time: int, stance: Stance, previewStance: Option<Stance>, transitioning: bool, flipped: bool,
    longCount: nat, shortCount: nat, confidence: real, reason: string, state: Option<State>)

  /** None stands for the ValueError of a window that cannot be analysed. */
  type Analyse = (seq<Candle>, Option<State>) -> Option<Verdict>

  // ----- Points -----

  function AsConfluence(v: Verdict): Confluence {
    Confluence(v.state.stance, Some(v.state), v.longScore, v.shortScore, v.longClaims, v.shortClaims)
  }

  /** Python's `x or y` on numbers. */
  function OrElse(x: real, y: real): real {
    if x != 0.0 then x else y
  }

  function Confidence(c: Confluence): real {
    var long := OrElse(if c.state.Some? then c.state.value.longEma else 0.0, c.longScore);
    var short := OrElse(if c.state.Some? then c.state.value.shortEma else 0.0, c.shortScore);
    var total := long + short;
    if total > 0.0 then RoundAt(Abs(long - short) / total, 1000.0) else 0.0
  }

  function Reason(c: Confluence): string {
    var claims := if c.stance == LongLeaning then c.longClaims
                  else if c.stance == ShortLeaning then c.shortClaims
                  else [];
    if claims == [] then "balanced evidence"
    else if claims[0] == "" then "stance change"
    else claims[0]
  }

  function PointOf(time: int, c: Confluence): Point {
    Point(time,
          if c.state.Some? then c.state.value.stance else c.stance,
          if c.state.Some? then Some(c.state.value.preview.rawStance) else None,
          c.state.Some? && c.state.value.transitioning,
          c.state.Some? && c.state.value.flipped,
          |c.longClaims|, |c.shortClaims|, Confidence(c), Reason(c), c.state)
  }

  // ----- Confidence and needle -----

  lemma PositiveScoresGiveNeedle(s: State, c: Confluence)
    requires c.state == Some(s) && s.longEma > 0.0 && s.shortEma > 0.0
    ensures Confidence(c) == Abs(RoundAt((s.longEma - s.shortEma) / (s.longEma + s.shortEma), 1000.0))
  {
    hide RoundAt;
    SizeRounds(s.longEma - s.shortEma, s.longEma + s.shortEma);
  }

  /** Whatever else comes with the state, the instantaneous scores among it. */
  ghost predicate AlwaysTheNeedle(s: State) {
    forall c: Confluence :: c.state == Some(s) && c.longScore >= 0.0 && c.shortScore >= 0.0 ==>
      Confidence(c) == Abs(Needle(Decimal, s))
  }

  function Payload(s: State, long: real, short: real): Confluence {
    Confluence(s.stance, Some(s), long, short, [], [])
  }

  lemma RoundsToZero(x: real, y: real)
    requires y > 0.0
    ensures RoundAt(x / y, 1000.0) == 0.0 <==> Abs(x) <= 0.0005 * y
  {
    var q := x / y;
    assert x == q * y;
    assert RoundHalfEven(q * 1000.0) == 0 <==> -0.5 <= q * 1000.0 <= 0.5 by {
      NearZero(q * 1000.0);
    }
    Ratio(x, y, 0.0005);
    QuotientNegates(x, y);
    Ratio(-x, y, 0.0005);
  }

  lemma NearZero(z: real)
    ensures RoundHalfEven(z) == 0 <==> -0.5 <= z <= 0.5
  {
    if -0.5 <= z < 0.0 {
      assert z.Floor == -1;
    }
  }

  /** The ribbon's confidence is the size of the gauge needle, whatever the instantaneous scores,
      exactly when neither smoothed score is zero (a zero is replaced by the instantaneous score)
      and, where the needle is switched off for lack of evidence, the two rounded to no difference. */
  lemma ConfidenceIsNeedleExactly(s: State)
    requires s.longEma >= 0.0 && s.shortEma >= 0.0
    ensures AlwaysTheNeedle(s) <==>
              && s.longEma > 0.0 && s.shortEma > 0.0
              && (s.stance == Insufficient ==> Abs(s.longEma - s.shortEma) <= 0.0005 * (s.longEma + s.shortEma))
  {
    hide RoundAt;
    var l, t := s.longEma, s.shortEma;
    if l > 0.0 && t > 0.0 {
      forall c: Confluence | c.state == Some(s)
        ensures Confidence(c) == Abs(RoundAt((l - t) / (l + t), 1000.0))
      {
        PositiveScoresGiveNeedle(s, c);
      }
      RoundsToZero(l - t, l + t);
      hide Confidence;
      assert Payload(s, 0.0, 0.0).state == Some(s);
      assert Confidence(Payload(s, 0.0, 0.0)) == Abs(RoundAt((l - t) / (l + t), 1000.0));
    } else {
      ZeroScoreSplits(s);
    }
  }

  /** With a zero smoothed score some instantaneous score tells them apart. */
  lemma ZeroScoreSplits(s: State)
    requires s.longEma >= 0.0 && s.shortEma >= 0.0 && (s.longEma == 0.0 || s.shortEma == 0.0)
    ensures !AlwaysTheNeedle(s)
  {
    WholeRounds();
    var x := s.longEma + s.shortEma;
    if x == 0.0 {
      assert Confidence(Payload(s, 1.0, 0.0)) != Abs(Needle(Decimal, s));
    } else {
      Divided(x, x, 1.0);
      Divided(-x, x, -1.0);
      Divided(0.0, x + x, 0.0);
      var y := if s.stance == Insufficient then 0.0 else x;
      var c := if s.longEma == 0.0 then Payload(s, y, 0.0) else Payload(s, 0.0, y);
      hide RoundAt;
      assert Confidence(c) != Abs(Needle(Decimal, s));
    }
  }

  lemma WholeRounds()
    ensures RoundAt(0.0, 1000.0) == 0.0 && RoundAt(1.0, 1000.0) == 1.0 && RoundAt(-1.0, 1000.0) == -1.0
  {
    assert (0.0).Floor == 0 && (1000.0).Floor == 1000 && (-1000.0).Floor == -1000;
  }

  /** With a zero they can disagree completely: the needle is at its end and the ribbon is not sure at all. */
  lemma ZeroScoreSplitsThem(s: State)
    requires s.stance == LongLeaning && s.longEma == 20.0 && s.shortEma == 0.0
    ensures Needle(Decimal, s) == GaugeConfidence(Payload(s, 20.0, 20.0)) == 1.0
    ensures Confidence(Payload(s, 20.0, 20.0)) == 0.0
  {
    WholeRounds();
  }

  /** Two calls reach the other case: evidence, then too little of it at the same scores. Needle and stance
      say nothing, both confidences still say 0.6. */
  lemma LostEvidenceSplitsThem(m: Setup)
    requires m.arith == Decimal
    ensures var o := Observation(2, 2, 20.0, 5.0, HtfContext(Neutral, 0.0, false), Some(0), 14400);
            var s := Resolve(m, Some(Resolve(m, None, o)), o.(longCount := 1, shortCount := 1, barAt := Some(14400), now := 28800));
            && s.stance == Insufficient && Needle(Decimal, s) == 0.0
            && Confidence(Payload(s, 20.0, 5.0)) == GaugeConfidence(Payload(s, 20.0, 5.0)) == 0.6
  {
    HundredthsAreFixed(Decimal, 20.0);
    HundredthsAreFixed(Decimal, 5.0);
    var alpha := Alpha(m.params);
    hide Alpha;
    assert Mix(alpha, 20.0, 20.0) == 20.0 && Mix(alpha, 5.0, 5.0) == 5.0;
    assert (600.0).Floor == 600;
    assert RoundAt(0.6, 1000.0) == 0.6;
  }

  // ----- The two confidences on one page -----

  /** The gauge's reading of the two scores; only a missing state is replaced by instantaneous scores. */
  function GaugeReading(c: Confluence): real {
    var long := if c.state.Some? then c.state.value.longEma else c.longScore;
    var short := if c.state.Some? then c.state.value.shortEma else c.shortScore;
    if long + short > 0.0 then RoundAt((long - short) / (long + short), 1000.0) else 0.0
  }

  function GaugeNeedle(c: Confluence): real {
    if c.stance == Insufficient then 0.0 else GaugeReading(c)
  }

  /** The gauge's own confidence is taken before the needle is switched off. */
  function GaugeConfidence(c: Confluence): real {
    RoundAt(Abs(GaugeReading(c)), 1000.0)
  }

  /** With the state's stance on the payload the gauge shows the needle of the state. */
  lemma GaugeShowsNeedle(c: Confluence)
    requires c.state.Some? && c.stance == c.state.value.stance
    ensures GaugeNeedle(c) == Needle(Decimal, c.state.value)
    ensures c.stance != Insufficient ==> GaugeConfidence(c) == Abs(GaugeNeedle(c))
  {
    hide RoundAt;
    ReadingIsRounded(c);
  }

  lemma RoundedTwice(x: real)
    ensures RoundAt(RoundAt(x, 1000.0), 1000.0) == RoundAt(x, 1000.0)
    ensures RoundAt(Abs(RoundAt(x, 1000.0)), 1000.0) == Abs(RoundAt(x, 1000.0))
  {
    var r := RoundHalfEven(x * 1000.0);
    assert RoundAt(x, 1000.0) * 1000.0 == r as real;
    assert Abs(RoundAt(x, 1000.0)) * 1000.0 == (if r >= 0 then r else -r) as real;
    assert RoundHalfEven(r as real) == r && RoundHalfEven((-r) as real) == -r;
  }

  lemma ReadingIsRounded(c: Confluence)
    ensures GaugeConfidence(c) == Abs(GaugeReading(c))
  {
    hide RoundAt;
    var long := if c.state.Some? then c.state.value.longEma else c.longScore;
    var short := if c.state.Some? then c.state.value.shortEma else c.shortScore;
    if long + short > 0.0 {
      RoundedTwice((long - short) / (long + short));
    } else {
      WholeRounds();
    }
  }

  /** Rounding the size of a quotient is the same as taking the size of the rounded quotient. */
  lemma SizeRounds(x: real, y: real)
    requires y > 0.0
    ensures RoundAt(Abs(x) / y, 1000.0) == Abs(RoundAt(x / y, 1000.0))
  {
    hide RoundAt;
    RoundOdd(Decimal, x / y, 1000.0);
    RoundOdd(Decimal, 0.0, 1000.0);
    Ratio(x, y, 0.0);
    if x >= 0.0 {
      RoundMonotone(Decimal, 0.0, x / y, 1000.0);
    } else {
      RoundMonotone(Decimal, x / y, 0.0, 1000.0);
      QuotientNegates(x, y);
    }
  }

  lemma RoundsToOne(x: real, y: real)
    requires 0.0 <= x <= y && y > 0.0
    ensures RoundAt(x / y, 1000.0) == 1.0 <==> x >= 0.9995 * y
  {
    var q := x / y;
    Ratio(x, y, 0.9995);
    Ratio(x, y, 0.0);
    Ratio(y - x, y, 0.0);
    QuotientSubtracts(y, x, y);
    Divided(y, y, 1.0);
    NearThousand(q * 1000.0);
  }

  lemma NearThousand(z: real)
    requires 0.0 <= z <= 1000.0
    ensures RoundHalfEven(z) == 1000 <==> z >= 999.5
  {
  }

  /** Where a smoothed score is zero, what the instantaneous scores must be for the ribbon to agree with the gauge. */
  predicate Indistinct(c: Confluence)
    requires c.state.Some?
  {
    var l, s, x, y := c.state.value.longEma, c.state.value.shortEma, c.longScore, c.shortScore;
    if l == 0.0 && s == 0.0 then Abs(x - y) <= 0.0005 * (x + y)
    else if l == 0.0 then Abs(x - s) >= 0.9995 * (x + s)
    else Abs(l - y) >= 0.9995 * (l + y)
  }

  /** Ribbon and gauge show one confidence unless a smoothed score is exactly zero: the ribbon then reads
      the instantaneous score in its place, and they agree exactly when that rounds to the same. */
  lemma ConfidencesAgreeExactly(c: Confluence)
    requires c.longScore >= 0.0 && c.shortScore >= 0.0
    requires c.state.Some? ==> c.state.value.longEma >= 0.0 && c.state.value.shortEma >= 0.0
    ensures Confidence(c) == GaugeConfidence(c) <==>
              c.state.None? || (c.state.value.longEma > 0.0 && c.state.value.shortEma > 0.0) || Indistinct(c)
  {
    hide RoundAt;
    ReadingIsRounded(c);
    hide GaugeConfidence;
    var long := if c.state.Some? then c.state.value.longEma else c.longScore;
    var short := if c.state.Some? then c.state.value.shortEma else c.shortScore;
    if c.state.None? || (long > 0.0 && short > 0.0) {
      if long + short > 0.0 {
        SizeRounds(long - short, long + short);
      }
    } else {
      ZeroScoreConfidence(c);
    }
  }

  lemma ZeroScoreConfidence(c: Confluence)
    requires c.longScore >= 0.0 && c.shortScore >= 0.0 && c.state.Some?
    requires c.state.value.longEma >= 0.0 && c.state.value.shortEma >= 0.0
    requires c.state.value.longEma == 0.0 || c.state.value.shortEma == 0.0
    ensures Confidence(c) == Abs(GaugeReading(c)) <==> Indistinct(c)
  {
    WholeRounds();
    hide RoundAt;
    var l, s := c.state.value.longEma, c.state.value.shortEma;
    var long, short := OrElse(l, c.longScore), OrElse(s, c.shortScore);
    if l + s > 0.0 {
      Divided(l + s, l + s, 1.0);
      Divided(-(l + s), l + s, -1.0);
      assert Abs(GaugeReading(c)) == 1.0;
      RoundsToOne(Abs(long - short), long + short);
    } else if long + short > 0.0 {
      RoundsToZero(Abs(long - short), long + short);
    }
  }

  function LastN<T>(s: seq<T>, n: nat): (r: seq<T>)
    ensures |r| <= n && |r| <= |s| && (s != [] && n > 0 ==> r != [] && r[|r| - 1] == s[|s| - 1])
  {
    if |s| <= n then s else s[|s| - n..]
  }

  function ReplayPoint(analyse: Analyse, candles: seq<Candle>, prior: Option<State>): Option<Point>
    requires candles != []
  {
    match analyse(LastN(candles, REPLAY_ANALYSIS_WINDOW), prior)
    case None => None
    case Some(v) => Some(PointOf(candles[|candles| - 1].time, AsConfluence(v)))
  }

  // ----- The full replay -----

  datatype Replayed = Replayed(points: seq<Point>, prior: Option<State>)

  /** The points of the first n candles, each prefix analysed in turn; refused windows are skipped. */
  function Replay(analyse: Analyse, candles: seq<Candle>, n: nat): Replayed
    requires n <= |candles|
  {
    if n < MIN_CHART_CANDLES then Replayed([], None)
    else
      var past := Replay(analyse, candles, n - 1);
      match ReplayPoint(analyse, candles[..n], past.prior)
      case None => past
      case Some(p) => Replayed(past.points + [p], p.state)
  }

  method FullReplay(analyse: Analyse, candles: seq<Candle>, limit: Option<nat>)
      returns (history: seq<Point>, prior: Option<State>)
    requires limit.Some? ==> limit.value > 0
    ensures var r := Replay(analyse, candles, |candles|);
            prior == r.prior && history == if limit.Some? then LastN(r.points, limit.value) else r.points
  {
    prior, history := None, [];
    var end := MIN_CHART_CANDLES;
    while end <= |candles|
      invariant MIN_CHART_CANDLES <= end && (end <= |candles| + 1 || end == MIN_CHART_CANDLES)
      invariant end - 1 <= |candles| ==> Replayed(history, prior) == Replay(analyse, candles, end - 1)
      invariant end - 1 > |candles| ==> history == [] && prior == None
    {
      var point := ReplayPoint(analyse, candles[..end], prior);
      if point.Some? {
        prior := point.value.state;
        history := history + [point.value];
      }
      end := end + 1;
    }
    if limit.Some? {
      history := LastN(history, limit.value);
    }
  }

  lemma {:induction false} ReplayReadsOnlyThePrefix(analyse: Analyse, xs: seq<Candle>, ys: seq<Candle>, n: nat)
    requires n <= |xs| && n <= |ys| && xs[..n] == ys[..n]
    ensures Replay(analyse, xs, n) == Replay(analyse, ys, n)
  {
    if n >= MIN_CHART_CANDLES {
      assert xs[..n - 1] == xs[..n][..n - 1] == ys[..n - 1];
      ReplayReadsOnlyThePrefix(analyse, xs, ys, n - 1);
    }
  }

  lemma {:induction false} ReplayOnlyAppends(analyse: Analyse, candles: seq<Candle>, m: nat, n: nat)
    requires m <= n <= |candles|
    ensures Replay(analyse, candles, m).points <= Replay(analyse, candles, n).points
    decreases n - m
  {
    hide ReplayPoint, PointOf;
    if m < n {
      ReplayOnlyAppends(analyse, candles, m, n - 1);
    }
  }

  /** No look-ahead: whatever happens after candle n, the points of the first n candles are the
      same, and a longer replay only appends to them. */
  lemma NoLookAhead(analyse: Analyse, xs: seq<Candle>, ys: seq<Candle>, n: nat)
    requires n <= |xs| && n <= |ys| && xs[..n] == ys[..n]
    ensures Replay(analyse, xs[..n], n) == Replay(analyse, xs, n) == Replay(analyse, ys, n)
    ensures Replay(analyse, xs[..n], n).points <= Replay(analyse, ys, |ys|).points
  {
    ReplayReadsOnlyThePrefix(analyse, xs[..n], xs, n);
    ReplayReadsOnlyThePrefix(analyse, xs, ys, n);
    ReplayOnlyAppends(analyse, ys, n, |ys|);
  }

  lemma {:induction false} PriorIsLastState(analyse: Analyse, candles: seq<Candle>, n: nat)
    requires n <= |candles|
    ensures var r := Replay(analyse, candles, n);
            if r.points == [] then r.prior == None else r.prior == r.points[|r.points| - 1].state
  {
    if n >= MIN_CHART_CANDLES {
      PriorIsLastState(analyse, candles, n - 1);
    }
  }

  // ----- The cache -----

  datatype Entry = Entry(lastTime: int, history: seq<Point>, prior: Option<State>)

  datatype Outcome = Raised | Returned(entry: Option<Entry>, shown: seq<Point>)

  function OrState(a: Option<State>, b: Option<State>): Option<State> {
    if a.Some? then a else b
  }

  function Shown(p: Point): Point {
    p.(state := None)
  }

  /** The last point gives way to one for the same candle. */
  function Endpointed(history: seq<Point>, p: Point): seq<Point> {
    if history != [] && history[|history| - 1].time == p.time
    then history[..|history| - 1] + [p] else history + [p]
  }

  function ShownAll(points: seq<Point>): (r: seq<Point>)
    ensures |r| == |points|
  {
    seq(|points|, i requires 0 <= i < |points| => Shown(points[i]))
  }

  function WithLiveEndpoint(history: seq<Point>, live: Confluence, lastTime: int): seq<Point> {
    ShownAll(LastN(Endpointed(history, PointOf(lastTime, live)), HISTORY_WINDOW))
  }

  function LiveOnly(live: Confluence, candles: seq<Candle>): seq<Point> {
    if candles == [] then [] else WithLiveEndpoint([], live, candles[|candles| - 1].time)
  }

  predicate CanIncrement(cached: Entry, candles: seq<Candle>) {
    |candles| >= 2 && cached.prior.Some? && cached.lastTime == candles[|candles| - 2].time
  }

  /** A candle still forming is not replayed. */
  function ConfirmedCandles(candles: seq<Candle>, provisional: Option<bool>): seq<Candle> {
    if provisional == Some(true) && candles != [] then candles[..|candles| - 1] else candles
  }

  /** One call: hit, increment by one candle, or full replay. */
  function Call(analyse: Analyse, cached: Option<Entry>, candles: seq<Candle>, live: Confluence): Outcome {
    if |candles| < MIN_CHART_CANDLES then Returned(cached, LiveOnly(live, candles))
    else
      var lastTime := candles[|candles| - 1].time;
      if cached.Some? && cached.value.lastTime == lastTime then
        var entry := cached.value.(prior := OrState(live.state, cached.value.prior));
        Returned(Some(entry), WithLiveEndpoint(entry.history, live, lastTime))
      else if cached.Some? && CanIncrement(cached.value, candles) then
        match ReplayPoint(analyse, candles, cached.value.prior)
        case None => Raised
        case Some(p) =>
          var history := LastN(cached.value.history + [p], HISTORY_WINDOW);
          Returned(Some(Entry(lastTime, history, OrState(live.state, cached.value.prior))),
                   WithLiveEndpoint(history, live, lastTime))
      else
        var r := Replay(analyse, candles, |candles|);
        var history := LastN(r.points, HISTORY_WINDOW);
        var prior := if history != [] then history[|history| - 1].state else r.prior;
        Returned(Some(Entry(lastTime, history, OrState(live.state, prior))),
                 WithLiveEndpoint(history, live, lastTime))
  }

  type Key = (string, string)

  class HistoryCache {
    var entries: map<Key, Entry>

    constructor ()
      ensures entries == map[]
    {
      entries := map[];
    }

    function At(key: Key): Option<Entry>
      reads this
    {
      if key in entries then Some(entries[key]) else None
    }

    /** None when the incremental step raises; the cache is then left alone, and a call never
        touches another symbol's or timeframe's entry. */
    method ReplayStanceHistory(analyse: Analyse, key: Key, candles: seq<Candle>, provisional: Option<bool>, live: Confluence)
        returns (shown: Option<seq<Point>>)
      modifies this
      ensures match Call(analyse, old(At(key)), ConfirmedCandles(candles, provisional), live)
              case Raised => shown == None && entries == old(entries)
              case Returned(entry, points) => shown == Some(points) && At(key) == entry
      ensures forall k :: k != key ==>
                (k in entries <==> k in old(entries)) && (k in entries ==> entries[k] == old(entries)[k])
    {
      hide PointOf, WithLiveEndpoint, Replay, ReplayPoint;
      var confirmed := ConfirmedCandles(candles, provisional);
      if |confirmed| < MIN_CHART_CANDLES {
        return Some(LiveOnly(live, confirmed));
      }
      var lastTime := confirmed[|confirmed| - 1].time;
      var history, prior;
      if key in entries && entries[key].lastTime == lastTime {
        history, prior := entries[key].history, entries[key].prior;
      } else if key in entries && CanIncrement(entries[key], confirmed) {
        prior := entries[key].prior;
        var point := ReplayPoint(analyse, confirmed, prior);
        if point.None? {
          return None;
        }
        history := LastN(entries[key].history + [point.value], HISTORY_WINDOW);
      } else {
        history, prior := FullReplay(analyse, confirmed, Some(HISTORY_WINDOW));
        if history != [] {
          prior := history[|history| - 1].state;
        }
      }
      entries := entries[key := Entry(lastTime, history, OrState(live.state, prior))];
      return Some(WithLiveEndpoint(history, live, lastTime));
    }

    method ClearStanceHistoryCache()
      modifies this
      ensures entries == map[]
    {
      entries := map[];
    }
  }

  // ----- What a sequence of requests sees -----

  predicate StrictlyOrdered(series: seq<Candle>) {
    forall i, j :: 0 <= i < j < |series| ==> series[i].time < series[j].time
  }

  /** What an uncached call on the first n candles shows. */
  function Uncached(analyse: Analyse, series: seq<Candle>, n: nat, live: Confluence): seq<Point>
    requires n <= |series|
  {
    if n < MIN_CHART_CANDLES then LiveOnly(live, series[..n])
    else WithLiveEndpoint(LastN(Replay(analyse, series, n).points, HISTORY_WINDOW), live, series[n - 1].time)
  }

  /** A request for the first n candles of the series, with the live payload of that moment. */
  datatype Request = Request(n: nat, live: Confluence)

  predicate Within(requests: seq<Request>, series: seq<Candle>) {
    forall j :: 0 <= j < |requests| ==> requests[j].n <= |series|
  }

  function CacheAfter(analyse: Analyse, series: seq<Candle>, requests: seq<Request>, i: nat): Option<Entry>
    requires i <= |requests| && Within(requests, series)
    decreases i, 0
  {
    if i == 0 then None
    else
      var before := CacheAfter(analyse, series, requests, i - 1);
      match Answer(analyse, series, requests, i - 1)
      case Raised => before
      case Returned(entry, _) => entry
  }

  function Answer(analyse: Analyse, series: seq<Candle>, requests: seq<Request>, i: nat): Outcome
    requires i < |requests| && Within(requests, series)
    decreases i, 1
  {
    Call(analyse, CacheAfter(analyse, series, requests, i), series[..requests[i].n], requests[i].live)
  }

  // ----- The ribbon as shown -----

  predicate InOrder(points: seq<Point>) {
    forall i, j :: 0 <= i < j < |points| ==> points[i].time < points[j].time
  }

  predicate AllBy(points: seq<Point>, time: int) {
    forall i :: 0 <= i < |points| ==> points[i].time <= time
  }

  /** Ends with the live verdict, runs strictly forward in time, fits the window, leaks no state. */
  predicate IsRibbon(shown: seq<Point>, live: Confluence, lastTime: int) {
    && 0 < |shown| <= HISTORY_WINDOW && shown[|shown| - 1] == Shown(PointOf(lastTime, live))
    && InOrder(shown)
    && forall i :: 0 <= i < |shown| ==> shown[i].state.None?
  }

  lemma {:induction false} ReplayIsInOrder(analyse: Analyse, series: seq<Candle>, n: nat)
    requires StrictlyOrdered(series) && 0 < n <= |series|
    ensures var points := Replay(analyse, series, n).points;
            InOrder(points) && AllBy(points, series[n - 1].time)
  {
    hide Confidence, Reason;
    if n > 1 {
      ReplayIsInOrder(analyse, series, n - 1);
    }
  }

  lemma LastNKeepsOrder(points: seq<Point>, time: int, n: nat)
    requires InOrder(points) && AllBy(points, time)
    ensures InOrder(LastN(points, n)) && AllBy(LastN(points, n), time)
  {
  }

  lemma EndpointKeepsOrder(history: seq<Point>, p: Point)
    requires InOrder(history) && AllBy(history, p.time)
    ensures InOrder(Endpointed(history, p)) && AllBy(Endpointed(history, p), p.time)
  {
    var earlier := if history != [] && history[|history| - 1].time == p.time then history[..|history| - 1] else history;
    assert forall i :: 0 <= i < |earlier| ==> earlier[i].time < p.time;
    assert Endpointed(history, p) == earlier + [p];
  }

  lemma ShowingKeepsOrder(points: seq<Point>)
    requires InOrder(points)
    ensures InOrder(ShownAll(points)) && forall i :: 0 <= i < |points| ==> ShownAll(points)[i].state.None?
  {
  }

  lemma EndpointIsLive(history: seq<Point>, live: Confluence, lastTime: int)
    requires InOrder(history) && AllBy(history, lastTime)
    ensures IsRibbon(WithLiveEndpoint(history, live, lastTime), live, lastTime)
  {
    hide Confidence, Reason, InOrder, AllBy;
    var h := Endpointed(history, PointOf(lastTime, live));
    EndpointKeepsOrder(history, PointOf(lastTime, live));
    LastNKeepsOrder(h, lastTime, HISTORY_WINDOW);
    ShowingKeepsOrder(LastN(h, HISTORY_WINDOW));
  }

  /** The cached points run forward in time and none lies past the candle of the entry. */
  ghost predicate Dated(series: seq<Candle>, cached: Option<Entry>) {
    cached.Some? ==> exists n :: 0 < n <= |series| && DatedAt(series, n, cached.value)
  }

  predicate DatedAt(series: seq<Candle>, n: nat, e: Entry)
    requires 0 < n <= |series|
  {
    e.lastTime == series[n - 1].time && InOrder(e.history) && AllBy(e.history, e.lastTime)
  }

  lemma DatedAfterIncrement(series: seq<Candle>, n: nat, history: seq<Point>, p: Point)
    requires StrictlyOrdered(series) && 1 < n <= |series| && p.time == series[n - 1].time
    requires InOrder(history) && AllBy(history, series[n - 2].time)
    ensures InOrder(LastN(history + [p], HISTORY_WINDOW)) && AllBy(LastN(history + [p], HISTORY_WINDOW), p.time)
  {
    LastNKeepsOrder(history + [p], p.time, HISTORY_WINDOW);
  }

  lemma CallIsRibbon(analyse: Analyse, series: seq<Candle>, n: nat, cached: Option<Entry>, live: Confluence)
    requires StrictlyOrdered(series) && 0 < n <= |series| && Dated(series, cached)
    ensures match Call(analyse, cached, series[..n], live)
            case Raised => true
            case Returned(entry, shown) => Dated(series, entry) && IsRibbon(shown, live, series[n - 1].time)
  {
    hide IsRibbon, InOrder, AllBy, WithLiveEndpoint, Replay, Confidence, Reason;
    var candles, time := series[..n], series[n - 1].time;
    assert candles[n - 1] == series[n - 1];
    EmptyIsInOrder(time);
    EndpointIsLive([], live, time);
    if n >= MIN_CHART_CANDLES {
      assert candles[n - 2] == series[n - 2];
      if cached.Some? && cached.value.lastTime == time {
        EndpointIsLive(cached.value.history, live, time);
        assert DatedAt(series, n, Call(analyse, cached, candles, live).entry.value);
      } else if cached.Some? && CanIncrement(cached.value, candles) {
        var point := ReplayPoint(analyse, candles, cached.value.prior);
        if point.Some? {
          DatedAfterIncrement(series, n, cached.value.history, point.value);
          EndpointIsLive(LastN(cached.value.history + [point.value], HISTORY_WINDOW), live, time);
          assert DatedAt(series, n, Call(analyse, cached, candles, live).entry.value);
        }
      } else {
        ReplayReadsOnlyThePrefix(analyse, candles, series, n);
        ReplayIsInOrder(analyse, series, n);
        LastNKeepsOrder(Replay(analyse, series, n).points, time, HISTORY_WINDOW);
        EndpointIsLive(LastN(Replay(analyse, series, n).points, HISTORY_WINDOW), live, time);
        assert DatedAt(series, n, Call(analyse, cached, candles, live).entry.value);
      }
    }
  }

  lemma EmptyIsInOrder(time: int)
    ensures InOrder([]) && AllBy([], time)
  {
  }

  /** Whatever was requested before, in any order, with or without live states: what is shown ends
      with the live verdict at the last confirmed candle, runs strictly forward in time, fits the
      window and leaks no internal state. */
  lemma {:induction false} ShownRibbon(analyse: Analyse, series: seq<Candle>, requests: seq<Request>, i: nat)
    requires StrictlyOrdered(series) && Within(requests, series) && i < |requests| && requests[i].n > 0
    ensures var outcome := Answer(analyse, series, requests, i);
            outcome.Returned? ==> IsRibbon(outcome.shown, requests[i].live, series[requests[i].n - 1].time)
  {
    hide Call, IsRibbon, Dated;
    CacheIsDated(analyse, series, requests, i);
    CallIsRibbon(analyse, series, requests[i].n, CacheAfter(analyse, series, requests, i), requests[i].live);
  }

  lemma {:induction false} CacheIsDated(analyse: Analyse, series: seq<Candle>, requests: seq<Request>, i: nat)
    requires StrictlyOrdered(series) && Within(requests, series) && i <= |requests|
    ensures Dated(series, CacheAfter(analyse, series, requests, i))
  {
    hide Call;
    if i > 0 {
      CacheIsDated(analyse, series, requests, i - 1);
      var n, before := requests[i - 1].n, CacheAfter(analyse, series, requests, i - 1);
      if n > 0 {
        CallIsRibbon(analyse, series, n, before, requests[i - 1].live);
      } else {
        NoCandlesNoChange(analyse, before, series[..0], requests[i - 1].live);
      }
    }
  }

  lemma NoCandlesNoChange(analyse: Analyse, cached: Option<Entry>, candles: seq<Candle>, live: Confluence)
    requires |candles| < MIN_CHART_CANDLES
    ensures Call(analyse, cached, candles, live) == Returned(cached, LiveOnly(live, candles))
  {
  }
}
