/**
 Exactly which sustained leads get through: a lead that stays inside a band, and constant scores.
 Stated for the long side; the short side follows by mirroring.
*/
module StanceBands {
  import opened Common
  import opened RealArithmetic
  import opened Rounding
  import opened Hysteresis
  import opened StanceRuns
  import opened StanceInvariants
  import opened StanceLiveness
  import opened StanceScripts

  // ----- The smoothed lead, without the state machine -----

  function SmoothedLong(m: Setup, first: real, obs: seq<Observation>, i: nat): real
    requires i <= |obs|
  {
    if i == 0 then first else Blend(m.arith, Alpha(m.params), SmoothedLong(m, first, obs, i - 1), obs[i - 1].longScore)
  }

  function SmoothedShort(m: Setup, first: real, obs: seq<Observation>, i: nat): real
    requires i <= |obs|
  {
    if i == 0 then first else Blend(m.arith, Alpha(m.params), SmoothedShort(m, first, obs, i - 1), obs[i - 1].shortScore)
  }

  /** The smoothed relative lead of the long side after i candles. */
  function LeadAfter(m: Setup, start: State, obs: seq<Observation>, i: nat): real
    requires i <= |obs|
  {
    Lead(SmoothedLong(m, start.longEma, obs, i), SmoothedShort(m, start.shortEma, obs, i))
  }

  lemma {:induction false} MachineHoldsSmoothed(m: Setup, start: State, obs: seq<Observation>, i: nat)
    requires i <= |obs| && AllFresh(At(start.lastBarAt), obs)
    ensures var s := After(m, Some(start), obs, i).value;
            s.longEma == SmoothedLong(m, start.longEma, obs, i) && s.shortEma == SmoothedShort(m, start.shortEma, obs, i)
  {
    hide Resolve, Blend, Alpha;
    if i > 0 {
      MachineHoldsSmoothed(m, start, obs, i - 1);
      AnchorFollowsState(m, Some(start), obs, i - 1);
      assert FreshAt(At(start.lastBarAt), obs, i - 1);
      FreshEmas(m, After(m, Some(start), obs, i - 1).value, obs[i - 1]);
    }
  }

  // ----- How many candles are left until the long side is held -----

  /** Candles still needed to confirm c if it is proposed from here on. */
  function Left(m: Setup, s: State, c: Stance): int {
    MaxInt(1, Required(m.params) - if s.pending == Some(c) then s.pendingCount else 0)
  }

  /** Upper bound on the candles until the long side is held; from the short side either at once or by way of a conflict. */
  function Distance(m: Setup, s: State, direct: bool): int {
    match s.stance
    case LongLeaning => 0
    case ShortLeaning => if direct then Left(m, s, LongLeaning) else Required(m.params) + Left(m, s, Conflicted)
    case _ => Left(m, s, LongLeaning)
  }

  lemma DistanceBound(m: Setup, s: State, direct: bool)
    requires s.pendingCount >= 0
    ensures 0 <= Distance(m, s, direct) <= if direct then Required(m.params) else 2 * Required(m.params)
  {
  }

  /** A candle with the lead above the entry margin, at or above the flip margin on the direct way, and
      below it on the other unless a single proposal is enough anyway. */
  predicate Urges(m: Setup, o: Observation, rel: real, direct: bool) {
    RawStance(o) != Insufficient && rel >= m.params.enterMargin
    && if direct then rel >= m.params.flipMargin else Required(m.params) == 1 || rel < m.params.flipMargin
  }

  lemma UrgedStep(m: Setup, s: State, o: Observation, direct: bool)
    requires Ordered(m.params) && s.pendingCount >= 0 && Newer(s.lastBarAt, o.barAt)
    requires var t := Resolve(m, Some(s), o); Urges(m, o, Lead(t.longEma, t.shortEma), direct)
    ensures var t := Resolve(m, Some(s), o);
            t.pendingCount >= 0 && Distance(m, t, direct) <= MaxInt(0, Distance(m, s, direct) - 1)
  {
    hide Blend, Lead, RawStance, Alpha;
    FreshEmas(m, s, o);
  }

  /** From call n on every candle urges the same way. */
  ghost predicate Urged(m: Setup, start: State, obs: seq<Observation>, n: nat, i: nat, direct: bool)
    requires n <= i <= |obs|
  {
    forall j :: n <= j < i ==> Urges(m, obs[j], LeadAfter(m, start, obs, j + 1), direct)
  }

  lemma {:induction false} UrgedRun(m: Setup, start: State, obs: seq<Observation>, n: nat, i: nat, direct: bool)
    requires Ordered(m.params) && start.pendingCount >= 0 && AllFresh(At(start.lastBarAt), obs)
    requires n <= i <= |obs| && Urged(m, start, obs, n, i, direct)
    ensures var from, s := After(m, Some(start), obs, n).value, After(m, Some(start), obs, i).value;
            && from.pendingCount >= 0 && s.pendingCount >= 0
            && Distance(m, s, direct) <= MaxInt(0, Distance(m, from, direct) - (i - n))
    decreases i - n
  {
    hide Resolve, Urges, Distance, LeadAfter, RawStance;
    if i == n {
      ChangeBudget(m, Some(start), obs, n);
      DistanceBound(m, After(m, Some(start), obs, n).value, direct);
    } else {
      UrgedRun(m, start, obs, n, i - 1, direct);
      var was := After(m, Some(start), obs, i - 1).value;
      AnchorFollowsState(m, Some(start), obs, i - 1);
      assert FreshAt(At(start.lastBarAt), obs, i - 1);
      LeadIsHeld(m, start, obs, i);
      assert Urges(m, obs[i - 1], LeadAfter(m, start, obs, i - 1 + 1), direct);
      UrgedStep(m, was, obs[i - 1], direct);
    }
  }

  lemma LeadIsHeld(m: Setup, start: State, obs: seq<Observation>, i: nat)
    requires i <= |obs| && AllFresh(At(start.lastBarAt), obs)
    ensures var s := After(m, Some(start), obs, i).value; Lead(s.longEma, s.shortEma) == LeadAfter(m, start, obs, i)
  {
    hide Lead, After, SmoothedLong, SmoothedShort;
    MachineHoldsSmoothed(m, start, obs, i);
  }

  // ----- Bands -----

  /** New candles with evidence, whose smoothed lead stays in [lo, hi). */
  ghost predicate InBand(m: Setup, start: State, obs: seq<Observation>, lo: real, hi: real) {
    && AllFresh(At(start.lastBarAt), obs)
    && forall i :: 0 <= i < |obs| ==> BandAt(m, start, obs, lo, hi, i)
  }

  predicate BandAt(m: Setup, start: State, obs: seq<Observation>, lo: real, hi: real, i: nat)
    requires i < |obs|
  {
    RawStance(obs[i]) != Insufficient && lo <= LeadAfter(m, start, obs, i + 1) < hi
  }

  /** The band lies on one side of the flip margin, or one proposal is enough. */
  predicate Decided(m: Setup, lo: real, hi: real) {
    hi <= m.params.flipMargin || lo >= m.params.flipMargin || Required(m.params) == 1
  }

  /** Candles that always suffice: k proposals at or above the flip margin, twice as many by way of a conflict. */
  function Deadline(m: Setup, lo: real): int {
    if lo >= m.params.flipMargin then Required(m.params) else 2 * Required(m.params)
  }

  /** A lead that stays in a decided band above the entry margin is adopted by the deadline, and kept. */
  lemma BandGetsThrough(m: Setup, start: State, obs: seq<Observation>, lo: real, hi: real, i: nat)
    requires Ordered(m.params) && start.pendingCount >= 0
    requires m.params.enterMargin <= lo && InBand(m, start, obs, lo, hi) && Decided(m, lo, hi)
    requires Deadline(m, lo) <= i <= |obs|
    ensures After(m, Some(start), obs, i).value.stance == LongLeaning
  {
    hide RawStance, Resolve, LeadAfter;
    var direct := lo >= m.params.flipMargin;
    forall j | 0 <= j < i ensures Urges(m, obs[j], LeadAfter(m, start, obs, j + 1), direct) {
      assert BandAt(m, start, obs, lo, hi, j);
    }
    UrgedRun(m, start, obs, 0, i, direct);
    DistanceBound(m, start, direct);
    NoDistanceIsLong(m, After(m, Some(start), obs, i).value, direct);
  }

  /** The same for a lead of the short side, by symmetry. */
  lemma ShortBandGetsThrough(m: Setup, start: State, obs: seq<Observation>, lo: real, hi: real, i: nat)
    requires Ordered(m.params) && start.pendingCount >= 0
    requires m.params.enterMargin <= lo && InBand(m, MirrorState(start), MirrorAll(obs), lo, hi) && Decided(m, lo, hi)
    requires Deadline(m, lo) <= i <= |obs|
    ensures After(m, Some(start), obs, i).value.stance == ShortLeaning
  {
    hide InBand;
    BandGetsThrough(m, MirrorState(start), MirrorAll(obs), lo, hi, i);
    RunMirrors(m, Some(start), obs, i);
  }

  lemma NoDistanceIsLong(m: Setup, s: State, direct: bool)
    requires Distance(m, s, direct) <= 0
    ensures s.stance == LongLeaning
  {
  }

  // ----- Steering the smoothed scores -----

  /** The two-decimal score that brings a smoothed score closest to a target. */
  function Steer(alpha: real, current: real, target: real): real
    requires alpha > 0.0
  {
    RoundAt((target - (1.0 - alpha) * current) / alpha, 100.0)
  }

  lemma SteerLands(arith: Arithmetic, alpha: real, current: real, target: real)
    requires 0.0 < alpha <= 1.0 && (1.0 - alpha) * current + 0.01 <= target
    ensures var x := Steer(alpha, current, target);
            x > 0.0 && Hundredths(x) && target - 0.01 <= Blend(arith, alpha, current, x) <= target + 0.01
  {
    var y, x := (target - (1.0 - alpha) * current) / alpha, Steer(alpha, current, target);
    Ratio(target - (1.0 - alpha) * current, alpha, 0.01);
    var r := RoundHalfEven(y * 100.0);
    assert x * 100.0 == r as real;
    MixNear(alpha, current, target, x, y);
    hide Mix, Round, Steer;
    RoundThousandthsError(arith, Mix(alpha, x, current));
  }

  lemma MixNear(alpha: real, current: real, target: real, x: real, y: real)
    requires 0.0 < alpha <= 1.0 && y == (target - (1.0 - alpha) * current) / alpha && y - 0.005 <= x <= y + 0.005
    ensures target - 0.005 <= Mix(alpha, x, current) <= target + 0.005
  {
    assert alpha * y == target - (1.0 - alpha) * current;
    NonNegativeProduct(alpha, x - (y - 0.005));
    NonNegativeProduct(alpha, y + 0.005 - x);
  }

  /** Holds the long score at a size and leads the short one to goal(i) on candle i. */
  function Steering(m: Setup, size: real, goal: nat -> real): Script {
    (i: nat, s: Option<State>) =>
      Observation(2, 2, if s.None? then size else Steer(Alpha(m.params), s.value.longEma, size),
                  if s.None? then 0.0 else Steer(Alpha(m.params), s.value.shortEma, goal(i)),
                  HtfContext(Neutral, 0.0, false), Some(i), i)
  }

  /** Scores so large that every goal within two units of the lowest can be reached in one candle. */
  predicate Roomy(m: Setup, size: real, low: real) {
    Alpha(m.params) * size >= 3.0 && Alpha(m.params) * low >= 3.0
  }

  lemma WithinReach(alpha: real, low: real, current: real, goal: real)
    requires 0.0 < alpha <= 1.0 && alpha * low >= 3.0
    requires low <= goal && current <= low + 2.01
    ensures (1.0 - alpha) * current + 0.01 <= goal
  {
    NonNegativeProduct(1.0 - alpha, low + 2.01 - current);
    assert (1.0 - alpha) * (low + 2.01 - current) == low - alpha * low + (1.0 - alpha) * 2.01 - (1.0 - alpha) * current;
  }

  lemma Ample(alpha: real, x: real)
    requires 0.0 < alpha <= 1.0 && alpha * x >= 3.0
    ensures x >= 3.0
  {
    if x < 3.0 {
      if x >= 0.0 {
        NonNegativeProduct(1.0 - alpha, x);
      } else {
        NonNegativeProduct(alpha, -x);
      }
      assert false;
    }
  }

  predicate Near(x: real, y: real) {
    y - 0.01 <= x <= y + 0.01
  }

  lemma SteeredCandle(m: Setup, size: real, low: real, goal: nat -> real, s: State, i: nat)
    requires Roomy(m, size, low) && low <= goal(i) <= low + 2.0 && Newer(s.lastBarAt, Some(i))
    requires s.longEma <= size + 0.01 && s.shortEma <= low + 2.01
    ensures var o := Steering(m, size, goal)(i, Some(s));
            var t := Resolve(m, Some(s), o);
            && Scored(o) && RawStance(o) != Insufficient && o.barAt == t.lastBarAt == Some(i)
            && Near(t.longEma, size) && Near(t.shortEma, goal(i))
  {
    hide Steer, Hundredths, Blend, Alpha, RawStance;
    var o := Steering(m, size, goal)(i, Some(s));
    FreshEmas(m, s, o);
    hide Resolve;
    WithinReach(Alpha(m.params), size, s.longEma, size);
    WithinReach(Alpha(m.params), low, s.shortEma, goal(i));
    SteerLands(m.arith, Alpha(m.params), s.longEma, size);
    SteerLands(m.arith, Alpha(m.params), s.shortEma, goal(i));
    Heard(o);
    CandleStep(m, s, o);
  }

  lemma Heard(o: Observation)
    requires o.longCount == 2 && o.shortCount == 2 && o.longScore > 0.0
    ensures RawStance(o) != Insufficient
  {
  }

  /** The goal lies well inside the short scores that give a lead in [a, b). */
  predicate Aims(size: real, goal: real, a: real, b: real) {
    0.0 <= a < b <= 1.0 && (1.0 - b) * size + 1.0 <= goal <= (1.0 - a) * size - 1.0
  }

  lemma SteeredLead(size: real, goal: real, a: real, b: real, long: real, short: real)
    requires size >= 3.0 && goal >= 3.0 && Aims(size, goal, a, b) && Near(long, size) && Near(short, goal)
    ensures a <= Lead(long, short) < b
  {
    InsideShare(1.0 - a, size, long);
    InsideShare(1.0 - b, size, long);
    ShareIsLess(1.0 - a, size, goal);
    hide Lead;
    ShareOfLead(long, short, a);
    ShareOfLead(long, short, b);
  }

  lemma InsideShare(share: real, size: real, long: real)
    requires 0.0 <= share <= 1.0 && Near(long, size)
    ensures share * size - 0.01 <= share * long <= share * size + 0.01
  {
    NonNegativeProduct(share, long - (size - 0.01));
    NonNegativeProduct(share, size + 0.01 - long);
  }

  lemma ShareIsLess(share: real, size: real, goal: real)
    requires share <= 1.0 && size >= 0.0 && goal <= share * size - 1.0
    ensures goal <= size - 1.0
  {
    Scaled(share, 1.0, size);
  }

  lemma ShareOfLead(long: real, short: real, t: real)
    requires long > 0.0 && 0.0 <= short <= long
    ensures Lead(long, short) >= t <==> short <= (1.0 - t) * long
  {
    Ratio(long - short, long, t);
    assert (1.0 - t) * long == long - t * long;
  }

  // ----- Runs from nothing -----

  /** Some run over two-decimal scores, starting from no state, holds this state. */
  ghost predicate Reachable(m: Setup, s: State) {
    exists past: seq<Observation> :: |past| > 0 && AllScored(past) && After(m, None, past, |past|) == Some(s)
  }

  /** One candle of negligible scores, all on the short side. */
  const WHISPER := Observation(2, 2, 0.0, 1.0, HtfContext(Neutral, 0.0, false), Some(-1), 0)

  function Whispered(m: Setup): State {
    Resolve(m, None, WHISPER)
  }

  lemma WhisperedState(m: Setup)
    ensures var s := Whispered(m);
            && Reachable(m, s) && s.stance == ShortLeaning && s.pending.None? && s.pendingCount == 0
            && s.longEma == 0.0 && s.shortEma == 1.0 && s.lastBarAt == Some(-1)
  {
    assert Scored(WHISPER);
    BootstrapEmas(m, WHISPER);
    assert RawStance(WHISPER) == ShortLeaning;
    BootstrapIsQuiet(m, WHISPER);
    hide Resolve, Scored;
    assert After(m, None, [WHISPER], 0) == None;
    assert After(m, None, [WHISPER], |[WHISPER]|) == Some(Whispered(m));
  }

  lemma {:induction false} SteeredRun(m: Setup, size: real, low: real, goal: nat -> real, i: nat)
    requires Roomy(m, size, low) && forall j: nat :: low <= goal(j) <= low + 2.0
    ensures var s := Reached(m, Some(Whispered(m)), Steering(m, size, goal), i).value;
            s.longEma <= size + 0.01 && s.shortEma <= low + 2.01 && s.lastBarAt == Some(i - 1)
  {
    hide Resolve, Steering, Alpha, Whispered;
    if i == 0 {
      Ample(Alpha(m.params), size);
      Ample(Alpha(m.params), low);
      WhisperedState(m);
    } else {
      SteeredRun(m, size, low, goal, i - 1);
      SteeredCandle(m, size, low, goal, Reached(m, Some(Whispered(m)), Steering(m, size, goal), i - 1).value, i - 1);
    }
  }

  /** What candle i of a steered run brings, told from its goal. */
  lemma SteeredStep(m: Setup, size: real, low: real, goal: nat -> real, i: nat, a: real, b: real)
    requires Roomy(m, size, low) && forall j: nat :: low <= goal(j) <= low + 2.0
    requires Aims(size, goal(i), a, b)
    ensures var s := Reached(m, Some(Whispered(m)), Steering(m, size, goal), i).value;
            var o := Steering(m, size, goal)(i, Some(s));
            var t := Resolve(m, Some(s), o);
            && Newer(s.lastBarAt, o.barAt) && Scored(o) && RawStance(o) != Insufficient
            && a <= Lead(t.longEma, t.shortEma) < b
            && Reached(m, Some(Whispered(m)), Steering(m, size, goal), i + 1) == Some(t)
  {
    hide Resolve, Lead, Alpha, Scored, RawStance, Whispered, Steering, Near, Aims;
    SteeredRun(m, size, low, goal, i);
    var s := Reached(m, Some(Whispered(m)), Steering(m, size, goal), i).value;
    SteeredCandle(m, size, low, goal, s, i);
    Ample(Alpha(m.params), size);
    Ample(Alpha(m.params), low);
    var t := Resolve(m, Some(s), Steering(m, size, goal)(i, Some(s)));
    SteeredLead(size, goal(i), a, b, t.longEma, t.shortEma);
  }

  lemma SteeredBandAt(m: Setup, size: real, low: real, goal: nat -> real, n: nat, i: nat, lo: real, hi: real)
    requires Roomy(m, size, low) && (forall j: nat :: low <= goal(j) <= low + 2.0) && i < n && Aims(size, goal(i), lo, hi)
    requires AllFresh(At(Whispered(m).lastBarAt), Played(m, Some(Whispered(m)), Steering(m, size, goal), n))
    ensures var obs := Played(m, Some(Whispered(m)), Steering(m, size, goal), n);
            BandAt(m, Whispered(m), obs, lo, hi, i) && Scored(obs[i])
  {
    hide Resolve, Lead, Alpha, Scored, RawStance, Whispered, Steering, Roomy, Aims, LeadAfter, AllFresh, Reached, Newer;
    var start, script := Whispered(m), Steering(m, size, goal);
    SteeredStep(m, size, low, goal, i, lo, hi);
    PlayedReaches(m, Some(start), script, n, i);
    PlayedReaches(m, Some(start), script, n, i + 1);
    LeadIsHeld(m, start, Played(m, Some(start), script, n), i + 1);
  }

  /** A steered run over the given goals stays in the band. */
  lemma SteeredInBand(m: Setup, size: real, low: real, goal: nat -> real, n: nat, lo: real, hi: real)
    requires Roomy(m, size, low) && forall j: nat :: low <= goal(j) <= low + 2.0
    requires hi <= 1.0 && forall j: nat :: Aims(size, goal(j), lo, hi)
    ensures var obs := Played(m, Some(Whispered(m)), Steering(m, size, goal), n);
            InBand(m, Whispered(m), obs, lo, hi) && AllScored(obs)
  {
    var start, script := Whispered(m), Steering(m, size, goal);
    var obs := Played(m, Some(start), script, n);
    assert Numbered(script);
    WhisperedState(m);
    hide Resolve, Lead, Alpha, Scored, RawStance, Whispered, Steering, Roomy, Aims, LeadAfter;
    NumberedIsAllFresh(m, Some(start), script, n);
    forall i | 0 <= i < n ensures BandAt(m, start, obs, lo, hi, i) && Scored(obs[i]) {
      SteeredBandAt(m, size, low, goal, n, i, lo, hi);
    }
  }

  lemma Enlarged(w: real, least: real, size: real)
    requires w > 0.0 && size >= least / w
    ensures w * size >= least
  {
    var q := least / w;
    assert q * w == least;
    Scaled(q, size, w);
  }

  lemma SizeExists(alpha: real, share: real, v: real, w: real) returns (size: real)
    requires 0.0 < alpha <= 1.0 && 0.0 < share <= 1.0 && v > 0.0 && w > 0.0
    ensures size >= 0.0 && alpha * size >= 4.0 && alpha * (share * size) >= 4.0 && v * size >= 2.0 && w * size >= 2.0
  {
    PositiveProduct(alpha, share);
    var a, b, c := 4.0 / (alpha * share), 2.0 / v, 2.0 / w;
    Ratio(4.0, alpha * share, 0.0);
    size := Max(a, Max(b, c));
    Enlarged(alpha * share, 4.0, size);
    Enlarged(v, 2.0, size);
    Enlarged(w, 2.0, size);
    WholeIsLarger(alpha, share, size);
  }

  lemma WholeIsLarger(alpha: real, share: real, size: real)
    requires alpha >= 0.0 && 0.0 <= share <= 1.0 && size >= 0.0
    ensures alpha * (share * size) == alpha * share * size && alpha * size >= alpha * share * size
  {
    NonNegativeProduct(alpha, size);
    NonNegativeProduct(1.0 - share, alpha * size);
    assert (1.0 - share) * (alpha * size) == alpha * size - alpha * share * size;
  }

  /** The largest lead the band allows on the side of the flip margin where the band begins. */
  function Top(m: Setup, lo: real, hi: real): real {
    if lo >= m.params.flipMargin then Min(hi, 1.0) else Min(hi, m.params.flipMargin)
  }

  // ----- The slowest adoption inside a band -----

  /** After i candles too few have been counted for the long side to be held before the deadline. */
  predicate Slow(m: Setup, s: State, i: nat, direct: bool) {
    var k := Required(m.params);
    || (s.stance == ShortLeaning && 0 <= s.pendingCount <= i
        && (s.pending.Some? ==> s.pending == Some(if direct then LongLeaning else Conflicted)))
    || (!direct && s.stance == Conflicted && k <= i && 0 <= s.pendingCount <= i - k)
  }

  lemma SlowStep(m: Setup, s: State, o: Observation, i: nat, direct: bool)
    requires Ordered(m.params) && Slow(m, s, i, direct) && Newer(s.lastBarAt, o.barAt) && RawStance(o) != Insufficient
    requires var rel := Lead(Resolve(m, Some(s), o).longEma, Resolve(m, Some(s), o).shortEma);
             rel >= m.params.enterMargin && (rel >= m.params.flipMargin <==> direct)
    requires i + 1 < if direct then Required(m.params) else 2 * Required(m.params)
    ensures Slow(m, Resolve(m, Some(s), o), i + 1, direct)
  {
    hide Blend, Lead, RawStance, Alpha;
    FreshEmas(m, s, o);
  }

  lemma {:induction false} SlowRun(m: Setup, size: real, level: real, lo: real, hi: real, i: nat)
    requires Ordered(m.params) && m.params.enterMargin <= lo < hi && i < Deadline(m, lo)
    requires Roomy(m, size, level) && Aims(size, level, lo, Top(m, lo, hi))
    ensures Slow(m, Reached(m, Some(Whispered(m)), Steering(m, size, _ => level), i).value, i, lo >= m.params.flipMargin)
  {
    hide Resolve, Roomy, Steering, Slow, Whispered, Aims, Lead, RawStance;
    if i == 0 {
      WhisperIsSlow(m, lo >= m.params.flipMargin);
    } else {
      SlowRun(m, size, level, lo, hi, i - 1);
      SteeredStep(m, size, level, _ => level, i - 1, lo, Top(m, lo, hi));
      var s := Reached(m, Some(Whispered(m)), Steering(m, size, _ => level), i - 1).value;
      SlowStep(m, s, Steering(m, size, _ => level)(i - 1, Some(s)), i - 1, lo >= m.params.flipMargin);
    }
  }

  lemma WhisperIsSlow(m: Setup, direct: bool)
    ensures Slow(m, Whispered(m), 0, direct)
  {
    WhisperedState(m);
    hide Whispered;
  }

  /** No shorter deadline is met: inside every band there is a run from nothing, on two-decimal scores,
      that does not yet hold the long side one candle before the deadline, or any time before. */
  lemma DeadlineIsSharp(m: Setup, lo: real, hi: real, n: nat) returns (start: State, obs: seq<Observation>)
    requires Ordered(m.params) && m.params.enterMargin <= lo < hi && lo < 1.0 && n < Deadline(m, lo)
    ensures |obs| == n && Reachable(m, start) && AllScored(obs) && InBand(m, start, obs, lo, hi)
    ensures After(m, Some(start), obs, n).value.stance != LongLeaning
  {
    hide Resolve, Whispered, Steering, Reachable, Alpha, Scored, BandAt;
    var alpha, top := Alpha(m.params), Top(m, lo, hi);
    var size := SizeExists(alpha, 1.0 - lo, top - lo, 1.0);
    var level := (1.0 - lo) * size - 1.0;
    assert alpha * level == alpha * ((1.0 - lo) * size) - alpha;
    assert (1.0 - top) * size == (1.0 - lo) * size - (top - lo) * size;
    start, obs := Whispered(m), Played(m, Some(Whispered(m)), Steering(m, size, _ => level), n);
    WhisperedState(m);
    SteeredInBand(m, size, level, _ => level, n, lo, top);
    WiderBand(m, start, obs, lo, top, hi);
    SlowRun(m, size, level, lo, hi, n);
    PlayedReaches(m, Some(start), Steering(m, size, _ => level), n, n);
  }

  lemma WiderBand(m: Setup, start: State, obs: seq<Observation>, lo: real, top: real, hi: real)
    requires InBand(m, start, obs, lo, top) && top <= hi
    ensures InBand(m, start, obs, lo, hi)
  {
    hide LeadAfter, RawStance;
    forall i | 0 <= i < |obs| ensures BandAt(m, start, obs, lo, hi, i) {
      assert BandAt(m, start, obs, lo, top, i);
    }
  }

  // ----- A band across the flip margin -----

  /** Goals one unit above and one below the short score at which the lead is the flip margin. */
  function Alternating(point: real): nat -> real {
    (i: nat) => if i % 2 == 0 then point + 1.0 else point - 1.0
  }

  predicate Wavers(s: State, i: nat) {
    s.stance == ShortLeaning
    && (s.pending.Some? ==> s.pendingCount == 1 && s.pending == Some(if i % 2 == 0 then LongLeaning else Conflicted))
  }

  /** A proposal other than the pending one starts the count again. */
  lemma WaverStep(m: Setup, s: State, o: Observation, i: nat)
    requires Ordered(m.params) && Required(m.params) > 1 && Newer(s.lastBarAt, o.barAt) && RawStance(o) != Insufficient
    requires Wavers(s, i)
    requires var rel := Lead(Resolve(m, Some(s), o).longEma, Resolve(m, Some(s), o).shortEma);
             rel >= m.params.enterMargin && (rel >= m.params.flipMargin <==> i % 2 == 1)
    ensures Wavers(Resolve(m, Some(s), o), i + 1)
  {
    hide Blend, Lead, RawStance, Alpha;
    FreshEmas(m, s, o);
  }

  /** Everything the wavering run needs to know of its size and of the point where the lead is the flip margin. */
  predicate Straddles(m: Setup, size: real, point: real, lo: real, hi: real) {
    && Roomy(m, size, point - 1.0) && m.params.enterMargin <= lo
    && Aims(size, point + 1.0, lo, m.params.flipMargin) && Aims(size, point - 1.0, m.params.flipMargin, hi)
  }

  lemma WaverGoal(m: Setup, size: real, point: real, lo: real, hi: real, i: nat)
    requires Straddles(m, size, point, lo, hi)
    ensures point - 1.0 <= Alternating(point)(i) <= point + 1.0
    ensures if i % 2 == 0 then Aims(size, Alternating(point)(i), lo, m.params.flipMargin)
            else Aims(size, Alternating(point)(i), m.params.flipMargin, hi)
  {
    hide Aims, Roomy;
  }

  lemma {:induction false} WaverRun(m: Setup, size: real, point: real, lo: real, hi: real, i: nat)
    requires Ordered(m.params) && Required(m.params) > 1 && Straddles(m, size, point, lo, hi)
    ensures Wavers(Reached(m, Some(Whispered(m)), Steering(m, size, Alternating(point)), i).value, i)
  {
    hide Resolve, Roomy, Steering, Wavers, Whispered, Aims, Lead, RawStance, Required, Alternating;
    if i == 0 {
      WhisperWavers(m);
    } else {
      var goal := Alternating(point);
      WaverRun(m, size, point, lo, hi, i - 1);
      forall j: nat ensures point - 1.0 <= goal(j) <= point + 1.0 {
        WaverGoal(m, size, point, lo, hi, j);
      }
      WaverGoal(m, size, point, lo, hi, i - 1);
      if (i - 1) % 2 == 0 {
        SteeredStep(m, size, point - 1.0, goal, i - 1, lo, m.params.flipMargin);
      } else {
        SteeredStep(m, size, point - 1.0, goal, i - 1, m.params.flipMargin, hi);
      }
      var s := Reached(m, Some(Whispered(m)), Steering(m, size, goal), i - 1).value;
      WaverStep(m, s, Steering(m, size, goal)(i - 1, Some(s)), i - 1);
    }
  }

  lemma WhisperWavers(m: Setup)
    ensures Wavers(Whispered(m), 0)
  {
    WhisperedState(m);
    hide Whispered;
  }

  lemma AimsWider(size: real, goal: real, a: real, b: real, lo: real, hi: real)
    requires Aims(size, goal, a, b) && 0.0 <= lo <= a && b <= hi <= 1.0 && size >= 0.0
    ensures Aims(size, goal, lo, hi)
  {
    Scaled(1.0 - hi, 1.0 - b, size);
    Scaled(1.0 - a, 1.0 - lo, size);
  }

  lemma StraddleExists(m: Setup, lo: real, hi: real) returns (size: real, point: real)
    requires Ordered(m.params) && m.params.enterMargin <= lo < m.params.flipMargin < hi <= 1.0
    ensures size >= 0.0 && Straddles(m, size, point, lo, hi)
  {
    hide Alpha;
    var alpha, f := Alpha(m.params), m.params.flipMargin;
    size := SizeExists(alpha, 1.0 - f, f - lo, hi - f);
    point := (1.0 - f) * size;
    assert alpha * (point - 1.0) == alpha * point - alpha;
    assert (1.0 - lo) * size == point + (f - lo) * size;
    assert (1.0 - hi) * size == point - (hi - f) * size;
  }

  lemma WaveringInBand(m: Setup, size: real, point: real, lo: real, hi: real, n: nat)
    requires Ordered(m.params) && size >= 0.0 && Straddles(m, size, point, lo, hi)
    ensures var obs := Played(m, Some(Whispered(m)), Steering(m, size, Alternating(point)), n);
            InBand(m, Whispered(m), obs, lo, hi) && AllScored(obs)
  {
    assert lo < m.params.flipMargin < hi <= 1.0;
    hide Resolve, Whispered, Steering, Alpha, Scored, BandAt, Aims, Alternating, Roomy;
    var goal := Alternating(point);
    forall j: nat ensures Aims(size, goal(j), lo, hi) && point - 1.0 <= goal(j) <= point + 1.0 {
      WaverGoal(m, size, point, lo, hi, j);
      if j % 2 == 0 {
        AimsWider(size, goal(j), lo, m.params.flipMargin, lo, hi);
      } else {
        AimsWider(size, goal(j), m.params.flipMargin, hi, lo, hi);
      }
    }
    SteeredInBand(m, size, point - 1.0, goal, n, lo, hi);
  }

  /** Across the flip margin, with at least two confirmations, nothing is sure: from nothing, on two-decimal
      scores, a run of any length stays in the band and is never adopted. */
  lemma StraddlingBandIsIgnored(m: Setup, lo: real, hi: real, n: nat) returns (start: State, obs: seq<Observation>)
    requires Ordered(m.params) && m.params.enterMargin <= lo && !Decided(m, lo, hi)
    ensures |obs| == n && Reachable(m, start) && AllScored(obs) && InBand(m, start, obs, lo, hi)
    ensures forall i :: 0 <= i <= n ==> After(m, Some(start), obs, i).value.stance == ShortLeaning
  {
    hide Resolve, Whispered, Steering, Reachable, Alpha, Scored, BandAt, Aims, Roomy, Straddles, Alternating;
    var top := Min(hi, 1.0);
    var size, point := StraddleExists(m, lo, top);
    start, obs := Whispered(m), Played(m, Some(Whispered(m)), Steering(m, size, Alternating(point)), n);
    WhisperedState(m);
    WaveringInBand(m, size, point, lo, top, n);
    WiderBand(m, start, obs, lo, top, hi);
    forall i | 0 <= i <= n ensures After(m, Some(start), obs, i).value.stance == ShortLeaning {
      WaverRun(m, size, point, lo, top, i);
      PlayedReaches(m, Some(start), Steering(m, size, Alternating(point)), n, i);
    }
  }

  // ----- The exact condition for every deadline -----

  /** From every start, every run inside the band ends on the long side once it has w candles. */
  ghost predicate AdoptedWithin(m: Setup, lo: real, hi: real, w: nat) {
    forall start: State, obs: seq<Observation> ::
      start.pendingCount >= 0 && InBand(m, start, obs, lo, hi) && |obs| >= w
      ==> After(m, Some(start), obs, |obs|).value.stance == LongLeaning
  }

  /** The same, asked only of two-decimal scores and of starts that a run from nothing reaches. */
  ghost predicate AdoptedWithinOnceReached(m: Setup, lo: real, hi: real, w: nat) {
    forall start: State, obs: seq<Observation> ::
      Reachable(m, start) && AllScored(obs) && InBand(m, start, obs, lo, hi) && |obs| >= w
      ==> After(m, Some(start), obs, |obs|).value.stance == LongLeaning
  }

  /** A lead sustained in a band above the entry margin gets through within w candles exactly when the
      band lies at or above the flip margin and w is at least k, or it does not straddle the flip
      margin (or one confirmation is enough) and w is at least 2k; reachable starts are no better. */
  lemma BandGetsThroughExactly(m: Setup, lo: real, hi: real, w: nat)
    requires Ordered(m.params) && m.params.enterMargin <= lo < hi && lo < 1.0
    ensures var k := Required(m.params);
            AdoptedWithin(m, lo, hi, w)
            <==> (lo >= m.params.flipMargin && w >= k) || (Decided(m, lo, hi) && w >= 2 * k)
    ensures AdoptedWithinOnceReached(m, lo, hi, w) <==> AdoptedWithin(m, lo, hi, w)
  {
    hide InBand, Scored, After, Reachable;
    if Decided(m, lo, hi) && w >= Deadline(m, lo) {
      BandIsAdopted(m, lo, hi, w);
    } else {
      BandIsNotAdopted(m, lo, hi, w);
    }
  }

  lemma BandIsAdopted(m: Setup, lo: real, hi: real, w: nat)
    requires Ordered(m.params) && m.params.enterMargin <= lo && Decided(m, lo, hi) && w >= Deadline(m, lo)
    ensures AdoptedWithin(m, lo, hi, w) && AdoptedWithinOnceReached(m, lo, hi, w)
  {
    hide InBand, Scored, After, Reachable;
    forall start: State, obs: seq<Observation> | start.pendingCount >= 0 && InBand(m, start, obs, lo, hi) && |obs| >= w
      ensures After(m, Some(start), obs, |obs|).value.stance == LongLeaning
    {
      BandGetsThrough(m, start, obs, lo, hi, |obs|);
    }
    forall start: State | Reachable(m, start) ensures start.pendingCount >= 0 {
      ReachableIsCountable(m, start);
    }
  }

  lemma ReachableIsCountable(m: Setup, s: State)
    requires Reachable(m, s)
    ensures s.pendingCount >= 0
  {
    hide After, Scored;
    var past: seq<Observation> :| |past| > 0 && AllScored(past) && After(m, None, past, |past|) == Some(s);
    ChangeBudget(m, None, past, |past|);
  }

  lemma BandIsNotAdopted(m: Setup, lo: real, hi: real, w: nat)
    requires Ordered(m.params) && m.params.enterMargin <= lo < hi && lo < 1.0
    requires !Decided(m, lo, hi) || w < Deadline(m, lo)
    ensures !AdoptedWithin(m, lo, hi, w) && !AdoptedWithinOnceReached(m, lo, hi, w)
  {
    hide InBand, Scored, Resolve, Reachable;
    var start: State, obs: seq<Observation>;
    if !Decided(m, lo, hi) {
      start, obs := StraddlingBandIsIgnored(m, lo, hi, w);
      assert After(m, Some(start), obs, |obs|).value.stance == ShortLeaning;
    } else {
      start, obs := DeadlineIsSharp(m, lo, hi, w);
    }
    ReachableIsCountable(m, start);
    assert After(m, Some(start), obs, |obs|).value.stance != LongLeaning;
  }

  /** Three candles, with two confirmations, are enough exactly for leads that stay at or above the flip margin. */
  lemma ThreeCandlesSufficeExactly(m: Setup, lo: real, hi: real)
    requires Ordered(m.params) && m.params.enterMargin <= lo < hi && lo < 1.0 && Required(m.params) == 2
    ensures AdoptedWithinOnceReached(m, lo, hi, 3) <==> lo >= m.params.flipMargin
  {
    hide AdoptedWithin, AdoptedWithinOnceReached;
    BandGetsThroughExactly(m, lo, hi, 3);
  }
}
