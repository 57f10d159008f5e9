/**
 The directional stance engine's state machine: the instantaneous stance of one analysis,
 the hysteresis that decides which stance is held, and the two displays derived from it.
 Times are whole seconds.
*/
module Hysteresis {
  import opened Common
  import opened Rounding

  // ----- Entities -----

  datatype Stance = LongLeaning | ShortLeaning | Conflicted | Insufficient

  datatype Bias = Long | Short | Neutral

  datatype HtfContext = HtfContext(bias: Bias, strength: real, conflicting: bool)

  /** What one analysis offers the machine: its weighed evidence and its confirmed candle. */
  datatype Observation = Observation(
    longCount: nat, shortCount: nat, longScore: real, shortScore: real,
    htf: HtfContext, barAt: Option<int>, now: int)

  datatype Preview = Preview(rawStance: Stance, longScore: real, shortScore: real, asOf: int)

  datatype State = State(
    stance: Stance, previousStance: Option<Stance>, transitioning: bool, target: Option<Stance>,
    pending: Option<Stance>, pendingCount: int, since: int, lastFlipAt: Option<int>,
    lastBarAt: Option<int>, candlesInState: int, progress: real, flipped: bool,
    longEma: real, shortEma: real, preview: Preview)

  datatype Params = Params(
    emaSpan: real, flipMargin: real, enterMargin: real, exitMargin: real, flipPersist: real)

  datatype Overrides = Overrides(
    emaSpan: Option<real>, flipMargin: Option<real>, enterMargin: Option<real>,
    exitMargin: Option<real>, flipPersist: Option<real>)

  /** Everything fixed for a run: tuned parameters, candle length and the arithmetic in force. */
  datatype Setup = Setup(params: Params, barMinutes: real, arith: Arithmetic)

  // ----- Parameters -----

  const DEFAULTS := Params(2.0, 0.30, 0.25, 0.10, 2.0)

  function OverrideOr(o: Option<real>, default: real): real {
    if o.Some? then o.value else default
  }

  function Bounded(o: Option<real>, default: real, low: real, high: real): real {
    if o.Some? then Clamp(o.value, low, high) else default
  }

  function HysteresisParams(overrides: Option<Overrides>): Params {
    match overrides
    case None => DEFAULTS
    case Some(o) => Params(
      Bounded(o.emaSpan, DEFAULTS.emaSpan, 1.0, 10.0),
      Bounded(o.flipMargin, DEFAULTS.flipMargin, 0.25, 0.60),
      OverrideOr(o.enterMargin, DEFAULTS.enterMargin),
      OverrideOr(o.exitMargin, DEFAULTS.exitMargin),
      Bounded(o.flipPersist, DEFAULTS.flipPersist, 1.0, 5.0))
  }

  /** The thresholds are ordered and positive, which the dead zone relies on. */
  predicate Ordered(p: Params) {
    0.0 < p.exitMargin <= p.enterMargin <= p.flipMargin < 1.0
  }

  /** int() truncates toward zero; below one the outer maximum hides the difference from a floor. */
  function Required(p: Params): (k: int)
    ensures k >= 1
  {
    MaxInt(1, p.flipPersist.Floor)
  }

  function Alpha(p: Params): (a: real)
    ensures 0.0 < a <= 1.0
  {
    2.0 / (Max(p.emaSpan, 1.0) + 1.0)
  }

  // ----- The instantaneous stance -----

  predicate OpposesHtf(htf: HtfContext, leaning: Stance) {
    && htf.bias != Neutral
    && htf.strength >= 0.40
    && ((htf.bias == Long && leaning == ShortLeaning) || (htf.bias == Short && leaning == LongLeaning))
  }

  function RawStance(o: Observation): Stance {
    if o.longCount + o.shortCount < 3 then Insufficient
    else if o.longCount == 0 || o.shortCount == 0 then Insufficient
    else
      var stronger := Max(o.longScore, o.shortScore);
      if stronger <= 0.0 then Insufficient
      else
        var margin := Abs(o.longScore - o.shortScore) / stronger;
        if margin < 0.25 then Conflicted
        else
          var leaning := if o.longScore > o.shortScore then LongLeaning else ShortLeaning;
          if margin < 0.50 && (OpposesHtf(o.htf, leaning) || o.htf.conflicting) then Conflicted
          else leaning
  }

  // ----- The state machine -----

  /** The relative lead of the long side, in [-1, 1] for non-negative scores. */
  function Lead(longEma: real, shortEma: real): real {
    var stronger := Max(longEma, shortEma);
    if stronger > 0.0 then (longEma - shortEma) / stronger else 0.0
  }

  function Candidate(p: Params, held: Stance, rel: real): Stance {
    match held
    case LongLeaning =>
      if rel <= -p.flipMargin then ShortLeaning
      else if rel < p.exitMargin then Conflicted
      else LongLeaning
    case ShortLeaning =>
      if rel >= p.flipMargin then LongLeaning
      else if rel > -p.exitMargin then Conflicted
      else ShortLeaning
    case _ =>
      if rel >= p.enterMargin then LongLeaning
      else if rel <= -p.enterMargin then ShortLeaning
      else Conflicted
  }

  function Mix(alpha: real, current: real, prev: real): real {
    alpha * current + (1.0 - alpha) * prev
  }

  function Blend(arith: Arithmetic, alpha: real, prev: real, current: real): real {
    Round(arith, Mix(alpha, current, prev), 1000.0)
  }

  function Ema(arith: Arithmetic, alpha: real, prev: Option<real>, current: real): real {
    match prev
    case None => Round(arith, current, 1000.0)
    case Some(p) => Blend(arith, alpha, p, current)
  }

  /** A confirmed candle moves the state only when it is newer than the state's anchor. */
  predicate Newer(last: Option<int>, bar: Option<int>) {
    bar.Some? && (last.None? || bar.value > last.value)
  }

  function CandlesAdvanced(barMinutes: real, last: Option<int>, bar: Option<int>): (n: int)
    ensures n >= 1
  {
    if last.Some? && bar.Some? then
      MaxInt(1, RoundHalfEven((bar.value - last.value) as real / 60.0 / Max(barMinutes, 1.0)))
    else 1
  }

  predicate Directional(s: Stance) {
    s == LongLeaning || s == ShortLeaning
  }

  function PreviewOf(m: Setup, raw: Stance, o: Observation): Preview {
    Preview(raw, Round(m.arith, o.longScore, 100.0), Round(m.arith, o.shortScore, 100.0), o.now)
  }

  /** The step taken when no state is held: the instantaneous stance is adopted without inertia. */
  function Bootstrap(m: Setup, o: Observation): State {
    var raw := RawStance(o);
    State(raw, None, false, None, None, 0, o.now, None, o.barAt, 1, 0.0, false,
          Ema(m.arith, Alpha(m.params), None, o.longScore),
          Ema(m.arith, Alpha(m.params), None, o.shortScore),
          PreviewOf(m, raw, o))
  }

  /** What the machine proposes at this observation: the candidate, or the evidence gate. */
  function Proposal(m: Setup, s: State, o: Observation): Stance {
    if RawStance(o) == Insufficient then Insufficient
    else Candidate(m.params, s.stance,
                   Lead(Ema(m.arith, Alpha(m.params), Some(s.longEma), o.longScore),
                        Ema(m.arith, Alpha(m.params), Some(s.shortEma), o.shortScore)))
  }

  /** The step taken on a newly confirmed candle. */
  function Advance(m: Setup, s: State, o: Observation): State {
    var raw := RawStance(o);
    var advanced := CandlesAdvanced(m.barMinutes, s.lastBarAt, o.barAt);
    var longEma := Ema(m.arith, Alpha(m.params), Some(s.longEma), o.longScore);
    var shortEma := Ema(m.arith, Alpha(m.params), Some(s.shortEma), o.shortScore);
    var next := State(s.stance, Some(s.stance), false, None, None, 0, s.since, s.lastFlipAt, o.barAt,
                      s.candlesInState + advanced, 0.0, false, longEma, shortEma, PreviewOf(m, raw, o));
    var proposed := Proposal(m, s, o);
    if raw == Insufficient then
      if s.stance == Insufficient then next
      else next.(stance := Insufficient, since := o.now, candlesInState := 1)
    else if proposed == s.stance then next
    else
      var count := if s.pending == Some(proposed) then s.pendingCount + 1 else 1;
      if count >= Required(m.params) then
        next.(stance := proposed, since := o.now, candlesInState := 1, progress := 1.0, flipped := true,
              lastFlipAt := if Directional(s.stance) && Directional(proposed) then Some(o.now) else s.lastFlipAt)
      else
        next.(transitioning := true, target := Some(proposed), pending := Some(proposed), pendingCount := count,
              progress := Round(m.arith, count as real / Required(m.params) as real, 100.0))
  }

  /** One call of the machine: bootstrap, freeze or advance. */
  function Resolve(m: Setup, prior: Option<State>, o: Observation): State {
    match prior
    case None => Bootstrap(m, o)
    case Some(s) =>
      if Newer(s.lastBarAt, o.barAt) then Advance(m, s, o)
      else s.(flipped := false, preview := PreviewOf(m, RawStance(o), o))
  }

  // ----- The confirmed-candle anchor -----

  function ConfirmedBar(lastCandle: Option<int>, barMinutes: int, now: int): Option<int> {
    match lastCandle
    case None => None
    case Some(open) =>
      if now - open >= 60 * barMinutes then Some(open) else Some(open - 60 * barMinutes)
  }

  /** The chart's flag for a still-forming last candle. */
  function Provisional(lastCandle: Option<int>, barMinutes: int, now: Option<int>): Option<bool> {
    if lastCandle.None? || now.None? then None
    else Some(now.value - lastCandle.value < 60 * barMinutes)
  }

  // ----- Displays -----

  function CompositeScore(arith: Arithmetic, stance: Stance, longEma: real, shortEma: real,
                          longScore: real, shortScore: real): real
  {
    var totalEma := longEma + shortEma;
    if stance == LongLeaning && totalEma > 0.0 then Round(arith, longEma / totalEma * 100.0, 10.0)
    else if stance == ShortLeaning && totalEma > 0.0 then Round(arith, shortEma / totalEma * 100.0, 10.0)
    else
      var total := longScore + shortScore;
      if total > 0.0 then Round(arith, Max(longScore, shortScore) / total * 100.0, 10.0) else 0.0
  }

  /** The reported composite: capped without a higher-timeframe bias, zero without evidence. */
  function ReportedComposite(arith: Arithmetic, s: State, o: Observation): real {
    var composite := CompositeScore(arith, s.stance, s.longEma, s.shortEma, o.longScore, o.shortScore);
    if s.stance == Insufficient then 0.0
    else if o.htf.bias == Neutral && Directional(s.stance) then Min(composite, 75.0)
    else composite
  }

  function Needle(arith: Arithmetic, s: State): real {
    var total := s.longEma + s.shortEma;
    if s.stance == Insufficient || total <= 0.0 then 0.0
    else Round(arith, (s.longEma - s.shortEma) / total, 1000.0)
  }
}
