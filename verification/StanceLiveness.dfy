/** A genuine reversal gets through: how soon the held stance follows a sustained lead. */
module StanceLiveness {
  import opened Common
  import opened RealArithmetic
  import opened Rounding
  import opened Hysteresis
  import opened StanceRuns
  import opened StanceAccuracy

  /** The share of the starting distance left after n steps of smoothing. */
  function Decay(alpha: real, n: nat): real {
    if n == 0 then 1.0 else (1.0 - alpha) * Decay(alpha, n - 1)
  }

  lemma {:induction false} DecayBound(alpha: real, n: nat)
    requires 0.0 < alpha <= 1.0
    ensures 0.0 <= Decay(alpha, n) && Decay(alpha, n) * (1.0 + n as real * alpha) <= 1.0
  {
    if n > 0 {
      DecayBound(alpha, n - 1);
      var d, w := Decay(alpha, n - 1), (n - 1) as real * alpha;
      NonNegativeProduct(1.0 - alpha, d);
      assert n as real * alpha == w + alpha;
      BernoulliStep(alpha, d, w);
    }
  }

  lemma BernoulliStep(alpha: real, d: real, w: real)
    requires 0.0 < alpha <= 1.0 && d >= 0.0 && w >= 0.0 && d * (1.0 + w) <= 1.0
    ensures (1.0 - alpha) * d * (1.0 + w + alpha) <= 1.0
  {
    NonNegativeProduct(alpha, w + alpha);
    NonNegativeProduct(d, alpha * (w + alpha));
    assert (1.0 - alpha) * d * (1.0 + w + alpha) == d * (1.0 + w) - d * (alpha * (w + alpha));
  }

  lemma {:induction false} DecayFalls(alpha: real, m: nat, n: nat)
    requires 0.0 < alpha <= 1.0 && m <= n
    ensures 0.0 <= Decay(alpha, n) <= Decay(alpha, m)
    decreases n - m
  {
    DecayBound(alpha, n);
    if m < n {
      DecayFalls(alpha, m, n - 1);
      NonNegativeProduct(alpha, Decay(alpha, n - 1));
    }
  }

  /** How far rounding alone can hold the smoothed scores back. */
  function Drag(m: Setup): real {
    if m.arith.Exact? then 0.0 else DriftLimit(m.params)
  }

  lemma DragBalancesRounding(m: Setup)
    ensures Alpha(m.params) * Drag(m) == HalfUnit(m.arith) && Drag(m) >= 0.0
  {
    DriftBalancesRounding(m.params);
  }

  /** From here on every candle has evidence, at least `long` for one side and at most `short` for the other. */
  ghost predicate Sustained(m: Setup, start: State, obs: seq<Observation>, long: real, short: real) {
    && AllFresh(At(start.lastBarAt), obs)
    && forall i :: 0 <= i < |obs| ==> Sustains(obs[i], long, short)
  }

  predicate Sustains(o: Observation, long: real, short: real) {
    RawStance(o) != Insufficient && o.longScore >= long && o.shortScore <= short
  }

  predicate Within(s: State, long: real, short: real, e: real) {
    long - s.longEma <= e && s.shortEma - short <= e
  }

  lemma FreshEmas(m: Setup, s: State, o: Observation)
    requires Newer(s.lastBarAt, o.barAt)
    ensures Resolve(m, Some(s), o).longEma == Blend(m.arith, Alpha(m.params), s.longEma, o.longScore)
    ensures Resolve(m, Some(s), o).shortEma == Blend(m.arith, Alpha(m.params), s.shortEma, o.shortScore)
  {
  }

  /** One exact smoothing step keeps only (1 - alpha) of a distance above the drag, from below... */
  lemma MixRises(alpha: real, x: real, prev: real, goal: real, d: real, drag: real, unit: real)
    requires 0.0 < alpha <= 1.0 && alpha * drag == unit
    requires x >= goal && goal - prev <= d + drag
    ensures goal - Mix(alpha, x, prev) + unit <= (1.0 - alpha) * d + drag
  {
    NonNegativeProduct(alpha, x - goal);
    NonNegativeProduct(1.0 - alpha, d + drag - (goal - prev));
  }

  /** ... and from above. */
  lemma MixFalls(alpha: real, x: real, prev: real, goal: real, d: real, drag: real, unit: real)
    requires 0.0 < alpha <= 1.0 && alpha * drag == unit
    requires x <= goal && prev - goal <= d + drag
    ensures Mix(alpha, x, prev) - goal + unit <= (1.0 - alpha) * d + drag
  {
    NonNegativeProduct(alpha, goal - x);
    NonNegativeProduct(1.0 - alpha, d + drag - (prev - goal));
  }

  lemma BlendError(arith: Arithmetic, alpha: real, prev: real, x: real)
    ensures -HalfUnit(arith) <= Blend(arith, alpha, prev, x) - Mix(alpha, x, prev) <= HalfUnit(arith)
  {
    hide Mix, Round;
    RoundThousandthsError(arith, Mix(alpha, x, prev));
  }

  lemma ApproachStep(m: Setup, s: State, o: Observation, long: real, short: real, left: real)
    requires Newer(s.lastBarAt, o.barAt) && Sustains(o, long, short)
    requires Within(s, long, short, left + Drag(m))
    ensures Within(Resolve(m, Some(s), o), long, short, (1.0 - Alpha(m.params)) * left + Drag(m))
  {
    hide Resolve, RawStance, Alpha, Drag, Blend, HalfUnit, Mix;
    DragBalancesRounding(m);
    FreshEmas(m, s, o);
    var alpha := Alpha(m.params);
    BlendError(m.arith, alpha, s.longEma, o.longScore);
    BlendError(m.arith, alpha, s.shortEma, o.shortScore);
    MixRises(alpha, o.longScore, s.longEma, long, left, Drag(m), HalfUnit(m.arith));
    MixFalls(alpha, o.shortScore, s.shortEma, short, left, Drag(m), HalfUnit(m.arith));
  }

  /** After i new candles the smoothed scores are within a decayed distance, plus the drag, of the sustained ones. */
  lemma {:induction false} Approach(m: Setup, start: State, obs: seq<Observation>, long: real, short: real, d: real, i: nat)
    requires i <= |obs| && Sustained(m, start, obs, long, short)
    requires d >= 0.0 && Within(start, long, short, d)
    ensures Within(After(m, Some(start), obs, i).value, long, short, Decay(Alpha(m.params), i) * d + Drag(m))
  {
    hide Resolve, RawStance, Alpha, Drag, Within, Sustains;
    if i == 0 {
      ApproachStart(m, start, long, short, d);
    } else {
      Approach(m, start, obs, long, short, d, i - 1);
      AnchorFollowsState(m, Some(start), obs, i - 1);
      assert FreshAt(At(start.lastBarAt), obs, i - 1);
      assert Sustains(obs[i - 1], long, short);
      var left := Decay(Alpha(m.params), i - 1) * d;
      assert Decay(Alpha(m.params), i) * d == (1.0 - Alpha(m.params)) * left;
      ApproachStep(m, After(m, Some(start), obs, i - 1).value, obs[i - 1], long, short, left);
    }
  }

  lemma ApproachStart(m: Setup, start: State, long: real, short: real, d: real)
    requires Within(start, long, short, d)
    ensures Within(start, long, short, Decay(Alpha(m.params), 0) * d + Drag(m))
  {
    DragBalancesRounding(m);
  }

  /** The distance from the sustained scores at which the lead already reaches the flip margin. */
  function Slack(p: Params, long: real, short: real): real
    requires p.flipMargin < 1.0
  {
    ((1.0 - p.flipMargin) * long - short) / (2.0 - p.flipMargin)
  }

  lemma CloseEnoughLeads(p: Params, s: State, long: real, short: real, e: real)
    requires Ordered(p) && short >= 0.0 && Slack(p, long, short) > 0.0
    requires e <= Slack(p, long, short) && Within(s, long, short, e)
    ensures Lead(s.longEma, s.shortEma) >= p.flipMargin
  {
    var f, l, t, slack := p.flipMargin, s.longEma, s.shortEma, Slack(p, long, short);
    assert (2.0 - f) * slack == (1.0 - f) * long - short;
    assert l >= long - slack && t <= short + slack;
    NonNegativeProduct(1.0 - f, l - (long - slack));
    assert (1.0 - f) * (l - (long - slack)) == (1.0 - f) * l - ((1.0 - f) * long - (1.0 - f) * slack);
    assert (1.0 - f) * l >= short + slack >= t;
    if l <= 0.0 {
      NonNegativeProduct(1.0 - f, -l);
      assert false;
    }
    NonNegativeProduct(f, l);
    assert (1.0 - f) * l == l - f * l;
    Ratio(l - t, l, f);
  }

  lemma LongLeadIsProposed(p: Params, held: Stance, rel: real)
    requires Ordered(p) && rel >= p.flipMargin
    ensures Candidate(p, held, rel) == LongLeaning
  {
  }

  predicate Following(s: State, j: int) {
    s.stance == LongLeaning || (s.pending == Some(LongLeaning) && s.pendingCount >= j)
  }

  /** While the long side is proposed on every candle, the counter climbs until it is adopted. */
  lemma ProposedLongClimbs(m: Setup, s: State, o: Observation, j: nat)
    requires Newer(s.lastBarAt, o.barAt) && RawStance(o) != Insufficient && Proposal(m, s, o) == LongLeaning
    requires s.pendingCount >= 0 && (j == 0 || Following(s, j))
    ensures var t := Resolve(m, Some(s), o);
            Following(t, j + 1) && 0 <= t.pendingCount < Required(m.params) && (s.stance == LongLeaning ==> t.stance == LongLeaning)
  {
  }

  lemma {:induction false} Climb(m: Setup, start: State, obs: seq<Observation>, n: nat, i: nat)
    requires n <= i <= |obs| && AllFresh(At(start.lastBarAt), obs) && start.pendingCount >= 0
    requires forall j :: n <= j < i ==> ProposesLong(m, start, obs, j)
    ensures var s := After(m, Some(start), obs, i).value;
            s.pendingCount >= 0
            && (i > n ==> s.pendingCount < Required(m.params) && Following(s, i - n))
  {
    hide Resolve, Proposal, RawStance;
    if i == n {
      ChangeBudget(m, Some(start), obs, i);
    } else {
      Climb(m, start, obs, n, i - 1);
      AnchorFollowsState(m, Some(start), obs, i - 1);
      assert FreshAt(At(start.lastBarAt), obs, i - 1);
      assert ProposesLong(m, start, obs, i - 1);
      ProposedLongClimbs(m, After(m, Some(start), obs, i - 1).value, obs[i - 1], i - 1 - n);
    }
  }

  predicate ProposesLong(m: Setup, start: State, obs: seq<Observation>, j: nat)
    requires j < |obs|
  {
    RawStance(obs[j]) != Insufficient && Proposal(m, After(m, Some(start), obs, j).value, obs[j]) == LongLeaning
  }

  /** Once the geometric decay has brought the start within the slack, k more candles suffice, and
      the stance never leaves the leading side again. */
  lemma ReversalIsAdopted(m: Setup, start: State, obs: seq<Observation>, long: real, short: real, d: real, n: nat, i: nat)
    requires Ordered(m.params) && start.pendingCount >= 0
    requires Sustained(m, start, obs, long, short) && short >= 0.0
    requires d >= 0.0 && Within(start, long, short, d)
    requires Slack(m.params, long, short) > 0.0
    requires Decay(Alpha(m.params), n) * d + Drag(m) <= Slack(m.params, long, short)
    requires n + Required(m.params) <= i <= |obs|
    ensures After(m, Some(start), obs, i).value.stance == LongLeaning
  {
    forall j | n <= j < i ensures ProposesLong(m, start, obs, j) {
      LeadIsReached(m, start, obs, long, short, d, n, j);
    }
    hide Resolve, Proposal, RawStance, Alpha, Drag, Slack, ProposesLong;
    Climb(m, start, obs, n, i);
  }

  lemma LeadIsReached(m: Setup, start: State, obs: seq<Observation>, long: real, short: real, d: real, n: nat, j: nat)
    requires Ordered(m.params) && n <= j < |obs|
    requires Sustained(m, start, obs, long, short) && short >= 0.0
    requires d >= 0.0 && Within(start, long, short, d)
    requires Slack(m.params, long, short) > 0.0
    requires Decay(Alpha(m.params), n) * d + Drag(m) <= Slack(m.params, long, short)
    ensures ProposesLong(m, start, obs, j)
  {
    hide Resolve, RawStance, Blend, Lead, Drag, Slack, Candidate, Alpha;
    var s, o, alpha := After(m, Some(start), obs, j).value, obs[j], Alpha(m.params);
    Approach(m, start, obs, long, short, d, j + 1);
    AnchorFollowsState(m, Some(start), obs, j);
    assert FreshAt(At(start.lastBarAt), obs, j);
    assert Sustains(o, long, short);
    FreshEmas(m, s, o);
    var next := After(m, Some(start), obs, j + 1).value;
    DecayFalls(alpha, n, j + 1);
    DecayTimes(Decay(alpha, j + 1), Decay(alpha, n), d);
    CloseEnoughLeads(m.params, next, long, short, Decay(alpha, j + 1) * d + Drag(m));
    LongLeadIsProposed(m.params, s.stance, Lead(next.longEma, next.shortEma));
  }

  lemma DecayTimes(x: real, y: real, d: real)
    requires x <= y && d >= 0.0
    ensures x * d <= y * d
  {
  }

  /** An explicit delay after which the decayed distance fits the room left beside the drag. */
  function Delay(alpha: real, d: real, room: real): nat
    requires 0.0 < alpha && d >= 0.0 && room > 0.0
  {
    PositiveProduct(alpha, room);
    Ratio(d, alpha * room, 0.0);
    (d / (alpha * room)).Floor + 1
  }

  lemma DelaySuffices(alpha: real, d: real, room: real)
    requires 0.0 < alpha <= 1.0 && d >= 0.0 && room > 0.0
    ensures Decay(alpha, Delay(alpha, d, room)) * d <= room
  {
    hide Delay, Decay;
    var n := Delay(alpha, d, room);
    DecayBound(alpha, n);
    DelayCovers(alpha, d, room);
    FitsRoom(Decay(alpha, n), d, n as real, alpha, room);
  }

  lemma DelayCovers(alpha: real, d: real, room: real)
    requires 0.0 < alpha <= 1.0 && d >= 0.0 && room > 0.0
    ensures d <= Delay(alpha, d, room) as real * alpha * room
  {
    var n, y := Delay(alpha, d, room) as real, alpha * room;
    PositiveProduct(alpha, room);
    Ratio(d, y, n);
    Reassociate(n, alpha, room);
  }

  lemma Reassociate(x: real, y: real, z: real)
    ensures x * (y * z) == x * y * z
  {
  }

  lemma FitsRoom(c: real, d: real, n: real, alpha: real, room: real)
    requires c >= 0.0 && room > 0.0 && d <= n * alpha * room
    requires c * (1.0 + n * alpha) <= 1.0
    ensures c * d <= room
  {
    NonNegativeProduct(c, n * alpha * room - d);
    NonNegativeProduct(1.0 - c * (1.0 + n * alpha), room);
    NonNegativeProduct(c, room);
  }

  /** Liveness: when one side's scores stay ahead by more than the flip margin, beyond what rounding
      can drag back, the held stance is that side after an explicit number of new candles, for good. */
  lemma ReversalGetsThrough(m: Setup, start: State, obs: seq<Observation>, long: real, short: real, d: real, i: nat)
    requires Ordered(m.params) && start.pendingCount >= 0
    requires Sustained(m, start, obs, long, short) && short >= 0.0
    requires d >= 0.0 && Within(start, long, short, d)
    requires Slack(m.params, long, short) > Drag(m)
    requires Delay(Alpha(m.params), d, Slack(m.params, long, short) - Drag(m)) + Required(m.params) <= i <= |obs|
    ensures After(m, Some(start), obs, i).value.stance == LongLeaning
  {
    hide Sustained, Within, Slack, Delay, Decay, After;
    DragBalancesRounding(m);
    hide Drag, Alpha;
    var room := Slack(m.params, long, short) - Drag(m);
    DelaySuffices(Alpha(m.params), d, room);
    ReversalIsAdopted(m, start, obs, long, short, d, Delay(Alpha(m.params), d, room), i);
  }

  /** However often the candles are polled: only the new ones among the calls have to sustain the lead. */
  lemma ReversalGetsThroughUnderPolling(m: Setup, start: State, polls: seq<Observation>, long: real, short: real, d: real)
    requires Ordered(m.params) && start.pendingCount >= 0 && short >= 0.0
    requires d >= 0.0 && Within(start, long, short, d) && Slack(m.params, long, short) > Drag(m)
    requires var candles := Kept(At(start.lastBarAt), polls, |polls|);
             && (forall i :: 0 <= i < |candles| ==> Sustains(candles[i], long, short))
             && Delay(Alpha(m.params), d, Slack(m.params, long, short) - Drag(m)) + Required(m.params) <= |candles|
    ensures After(m, Some(start), polls, |polls|).value.stance == LongLeaning
  {
    hide Sustains, Within, Slack, Drag, Delay, Alpha;
    KeptIsAllFresh(At(start.lastBarAt), polls, |polls|);
    var candles := Kept(At(start.lastBarAt), polls, |polls|);
    ReversalGetsThrough(m, start, candles, long, short, d, |candles|);
    Stuttering(m, Some(start), polls, |polls|);
  }

  /** The same for the short side, by symmetry. */
  lemma ShortReversalGetsThrough(m: Setup, start: State, obs: seq<Observation>, long: real, short: real, d: real, i: nat)
    requires Ordered(m.params) && start.pendingCount >= 0
    requires Sustained(m, MirrorState(start), MirrorAll(obs), short, long) && long >= 0.0
    requires d >= 0.0 && Within(MirrorState(start), short, long, d)
    requires Slack(m.params, short, long) > Drag(m)
    requires Delay(Alpha(m.params), d, Slack(m.params, short, long) - Drag(m)) + Required(m.params) <= i <= |obs|
    ensures After(m, Some(start), obs, i).value.stance == ShortLeaning
  {
    ReversalGetsThrough(m, MirrorState(start), MirrorAll(obs), short, long, d, i);
    RunMirrors(m, Some(start), obs, i);
  }

  /** In exact arithmetic the condition is simply a lead strictly above the flip margin. */
  lemma SlackIsLead(p: Params, long: real, short: real)
    requires Ordered(p) && long > 0.0 && 0.0 <= short <= long
    ensures Slack(p, long, short) > 0.0 <==> Lead(long, short) > p.flipMargin
  {
    var f := p.flipMargin;
    Ratio((1.0 - f) * long - short, 2.0 - f, 0.0);
    Ratio(long - short, long, f);
  }
}
