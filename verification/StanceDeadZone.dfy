/**
 What one new candle does, told from its smoothed scores without divisions, and the dead zone
 between the exit and the entry margin in which whatever is held stays held.
*/
module StanceDeadZone {
  import opened Common
  import opened RealArithmetic
  import opened Rounding
  import opened Hysteresis
  import opened StanceRuns
  import opened StanceInvariants
  import opened StanceAccuracy
  import opened StanceLiveness
  import opened StanceBands

  /** What smoothed scores argue for, given what is held: a direction is left below the exit margin,
      reversed at the flip margin, and entered from elsewhere at the entry margin. */
  predicate ArguesFor(p: Params, held: Stance, long: real, short: real, c: Stance) {
    match held
    case LongLeaning =>
      if Leads(short, long, p.flipMargin) then c == ShortLeaning
      else c == if Leads(long, short, p.exitMargin) then LongLeaning else Conflicted
    case ShortLeaning =>
      if Leads(long, short, p.flipMargin) then c == LongLeaning
      else c == if Leads(short, long, p.exitMargin) then ShortLeaning else Conflicted
    case _ =>
      c == if Leads(long, short, p.enterMargin) then LongLeaning
           else if Leads(short, long, p.enterMargin) then ShortLeaning
           else Conflicted
  }

  lemma ProposalExactly(m: Setup, s: State, o: Observation)
    requires Ordered(m.params) && RawStance(o) != Insufficient && Newer(s.lastBarAt, o.barAt)
    requires var t := Resolve(m, Some(s), o); t.longEma >= 0.0 && t.shortEma >= 0.0
    ensures var t := Resolve(m, Some(s), o); ArguesFor(m.params, s.stance, t.longEma, t.shortEma, Proposal(m, s, o))
  {
    hide Resolve, Blend, Alpha, RawStance, Lead, Leads;
    FreshEmas(m, s, o);
    var l, e, p := Resolve(m, Some(s), o).longEma, Resolve(m, Some(s), o).shortEma, m.params;
    LeadIsOdd(l, e);
    LeadAtLeast(l, e, p.exitMargin);
    LeadAtLeast(l, e, p.enterMargin);
    LeadAtLeast(l, e, p.flipMargin);
    LeadAtLeast(e, l, p.exitMargin);
    LeadAtLeast(e, l, p.enterMargin);
    LeadAtLeast(e, l, p.flipMargin);
  }

  /** Held with nothing under way. */
  predicate Quiet(s: State, held: Stance) {
    && s.stance == held && !s.transitioning && !s.flipped
    && s.pending.None? && s.target.None? && s.pendingCount == 0 && s.progress == 0.0
  }

  /** Adopted on this candle. */
  predicate Adopted(s: State, c: Stance) {
    && s.stance == c && !s.transitioning && s.flipped
    && s.pending.None? && s.target.None? && s.pendingCount == 0 && s.progress == 1.0
  }

  /** Still the held stance, with a count of n for another one. */
  predicate Waiting(m: Setup, s: State, held: Stance, c: Stance, n: int) {
    && s.stance == held && s.transitioning && !s.flipped
    && s.pending == Some(c) && s.target == Some(c) && s.pendingCount == n
    && s.progress == Round(m.arith, n as real / Required(m.params) as real, 100.0)
  }

  /** One new candle: without evidence the stance is lost at once; otherwise it is kept quietly if the
      scores argue for it, and else the count of the argued stance goes up by one, or starts again
      at one, until it is adopted at k. */
  lemma StepExactly(m: Setup, s: State, o: Observation, c: Stance)
    requires Ordered(m.params) && Newer(s.lastBarAt, o.barAt)
    requires var t := Resolve(m, Some(s), o); t.longEma >= 0.0 && t.shortEma >= 0.0
    requires var t := Resolve(m, Some(s), o); ArguesFor(m.params, s.stance, t.longEma, t.shortEma, c)
    ensures var t := Resolve(m, Some(s), o);
            var n := if s.pending == Some(c) then s.pendingCount + 1 else 1;
            if RawStance(o) == Insufficient then Quiet(t, Insufficient)
            else if c == s.stance then Quiet(t, s.stance)
            else if n >= Required(m.params) then Adopted(t, c)
            else Waiting(m, t, s.stance, c, n)
    ensures Resolve(m, Some(s), o).previousStance == Some(s.stance) && Resolve(m, Some(s), o).lastBarAt == o.barAt
  {
    hide Blend, Alpha, RawStance, Lead, Leads, Round, Required, CandlesAdvanced;
    if RawStance(o) != Insufficient {
      ProposalExactly(m, s, o);
    }
    hide Candidate;
  }

  /** The usual smoothing of a span of n: two parts of the new score to n - 1 parts of the old value. */
  function Weighed(span: real, x: real, prev: real): real
    requires span >= 1.0
  {
    (2.0 * x + (span - 1.0) * prev) / (span + 1.0)
  }

  /** Every new candle moves both smoothed scores, with evidence or without, each to the thousandth
      nearest to the weighed mean of the candle's own score and the value held. */
  lemma NextScoresExactly(m: Setup, s: State, o: Observation)
    requires m.arith == Decimal && Newer(s.lastBarAt, o.barAt)
    ensures var t, span := Resolve(m, Some(s), o), Max(m.params.emaSpan, 1.0);
            && IsNearest(t.longEma, Weighed(span, o.longScore, s.longEma), 1000.0)
            && IsNearest(t.shortEma, Weighed(span, o.shortScore, s.shortEma), 1000.0)
  {
    hide Resolve, Round, IsNearest, Alpha, Mix;
    FreshEmas(m, s, o);
    var t, span := Resolve(m, Some(s), o), Max(m.params.emaSpan, 1.0);
    SpanWeights(m.params, o.longScore, s.longEma);
    SpanWeights(m.params, o.shortScore, s.shortEma);
    assert Mix(Alpha(m.params), o.longScore, s.longEma) == Weighed(span, o.longScore, s.longEma);
    assert Mix(Alpha(m.params), o.shortScore, s.shortEma) == Weighed(span, o.shortScore, s.shortEma);
    RoundExactly(Mix(Alpha(m.params), o.longScore, s.longEma), t.longEma, 1000.0);
    RoundExactly(Mix(Alpha(m.params), o.shortScore, s.shortEma), t.shortEma, 1000.0);
  }

  /** The step taken from nothing: what the candle says by itself, quietly, with its own scores. */
  lemma FirstStateExactly(m: Setup, o: Observation)
    ensures var t := Resolve(m, None, o);
            && Quiet(t, RawStance(o)) && t.previousStance.None? && t.lastFlipAt.None?
            && t.since == o.now && t.lastBarAt == o.barAt && t.candlesInState == 1
            && t.longEma == Round(m.arith, o.longScore, 1000.0) && t.shortEma == Round(m.arith, o.shortScore, 1000.0)
  {
    hide Round, RawStance;
  }

  /** A call without a newer candle changes nothing but the preview and the flip signal, which it withdraws. */
  lemma FrozenStateExactly(m: Setup, s: State, o: Observation)
    requires !Newer(s.lastBarAt, o.barAt)
    ensures Resolve(m, Some(s), o) ==
              s.(flipped := false,
                 preview := Preview(RawStance(o), Round(m.arith, o.longScore, 100.0), Round(m.arith, o.shortScore, 100.0), o.now))
  {
    hide Round, RawStance;
  }

  /** A step counts the whole candles since the last one, to the nearest, and at least one; without a time
      on either side exactly one. */
  lemma CandlesAdvancedExactly(barMinutes: real, last: int, bar: int)
    requires barMinutes >= 1.0
    ensures var n, length := CandlesAdvanced(barMinutes, Some(last), Some(bar)), 60.0 * barMinutes;
            n >= 1 && (bar - last) as real <= (n as real + 0.5) * length
            && (n > 1 ==> (bar - last) as real >= (n as real - 0.5) * length)
    ensures CandlesAdvanced(barMinutes, None, Some(bar)) == CandlesAdvanced(barMinutes, Some(last), None) == 1
  {
    var gap := (bar - last) as real;
    var n := MaxInt(1, RoundHalfEven(gap / 60.0 / Max(barMinutes, 1.0)));
    var q := gap / 60.0 / barMinutes;
    QuotientOfMinutes(gap, barMinutes);
    AtMostTimes(q, n as real + 0.5, barMinutes, gap);
    if n > 1 {
      AtLeastTimes(q, n as real - 0.5, barMinutes, gap);
    }
  }

  lemma QuotientOfMinutes(gap: real, barMinutes: real)
    requires barMinutes >= 1.0
    ensures gap == gap / 60.0 / barMinutes * (60.0 * barMinutes)
  {
    var minutes := gap / 60.0;
    var q := minutes / barMinutes;
    assert q * barMinutes == minutes;
    assert q * (60.0 * barMinutes) == 60.0 * (q * barMinutes);
  }

  lemma AtMostTimes(q: real, top: real, barMinutes: real, gap: real)
    requires barMinutes >= 1.0 && gap == q * (60.0 * barMinutes) && q <= top
    ensures gap <= top * (60.0 * barMinutes)
  {
    Scaled(q, top, 60.0 * barMinutes);
  }

  lemma AtLeastTimes(q: real, bottom: real, barMinutes: real, gap: real)
    requires barMinutes >= 1.0 && gap == q * (60.0 * barMinutes) && bottom <= q
    ensures gap >= bottom * (60.0 * barMinutes)
  {
    Scaled(bottom, q, 60.0 * barMinutes);
  }

  /** A held direction stays held with nothing pending exactly when its side still leads by the exit margin. */
  lemma DirectionIsKeptExactly(m: Setup, s: State, o: Observation)
    requires Ordered(m.params) && Newer(s.lastBarAt, o.barAt) && RawStance(o) != Insufficient
    requires var t := Resolve(m, Some(s), o); t.longEma >= 0.0 && t.shortEma >= 0.0
    ensures var t := Resolve(m, Some(s), o);
            && (s.stance == LongLeaning ==> (Quiet(t, LongLeaning) <==> Leads(t.longEma, t.shortEma, m.params.exitMargin)))
            && (s.stance == ShortLeaning ==> (Quiet(t, ShortLeaning) <==> Leads(t.shortEma, t.longEma, m.params.exitMargin)))
  {
    hide Resolve, RawStance, Round, Required;
    var t, p := Resolve(m, Some(s), o), m.params;
    if s.stance == LongLeaning {
      var c := if Leads(t.shortEma, t.longEma, p.flipMargin) then ShortLeaning
               else if Leads(t.longEma, t.shortEma, p.exitMargin) then LongLeaning else Conflicted;
      StepExactly(m, s, o, c);
      NotBothLead(t.longEma, t.shortEma, p.exitMargin, p.flipMargin);
    } else if s.stance == ShortLeaning {
      var c := if Leads(t.longEma, t.shortEma, p.flipMargin) then LongLeaning
               else if Leads(t.shortEma, t.longEma, p.exitMargin) then ShortLeaning else Conflicted;
      StepExactly(m, s, o, c);
      NotBothLead(t.shortEma, t.longEma, p.exitMargin, p.flipMargin);
    }
  }

  lemma NotBothLead(x: real, y: real, a: real, b: real)
    requires 0.0 < a < 1.0 && 0.0 < b < 1.0 && x >= 0.0 && y >= 0.0
    ensures !(Leads(x, y, a) && Leads(y, x, b))
  {
    if Leads(x, y, a) && Leads(y, x, b) {
      StrictShare(a, x);
      StrictShare(b, y);
      assert false;
    }
  }

  lemma StrictShare(a: real, x: real)
    requires 0.0 < a && x > 0.0
    ensures (1.0 - a) * x < x
  {
    assert a * x > 0.0;
    assert (1.0 - a) * x == x - a * x;
  }

  // ----- Whole runs -----

  /** Where the relative lead of the long side leaves a stance alone. */
  predicate Stays(p: Params, held: Stance, rel: real) {
    match held
    case LongLeaning => rel >= p.exitMargin
    case ShortLeaning => rel <= -p.exitMargin
    case _ => -p.enterMargin < rel < p.enterMargin
  }

  lemma QuietExactly(m: Setup, s: State, o: Observation)
    requires Ordered(m.params) && Newer(s.lastBarAt, o.barAt) && RawStance(o) != Insufficient && s.stance != Insufficient
    ensures var t := Resolve(m, Some(s), o);
            Quiet(t, s.stance) <==> Stays(m.params, s.stance, Lead(t.longEma, t.shortEma))
  {
    hide Blend, Alpha, RawStance, Lead, Round, Required, CandlesAdvanced;
    FreshEmas(m, s, o);
  }

  /** New candles with evidence. */
  ghost predicate Evidenced(start: State, obs: seq<Observation>) {
    AllFresh(At(start.lastBarAt), obs) && forall i :: 0 <= i < |obs| ==> RawStance(obs[i]) != Insufficient
  }

  predicate QuietAfter(m: Setup, start: State, obs: seq<Observation>, i: nat)
    requires i <= |obs|
  {
    Quiet(After(m, Some(start), obs, i).value, start.stance)
  }

  predicate StaysAt(m: Setup, start: State, obs: seq<Observation>, i: nat)
    requires i <= |obs|
  {
    Stays(m.params, start.stance, LeadAfter(m, start, obs, i))
  }

  lemma {:induction false} HeldSoFar(m: Setup, start: State, obs: seq<Observation>, n: nat)
    requires Ordered(m.params) && Evidenced(start, obs) && start.stance != Insufficient && n <= |obs|
    ensures (forall i :: 0 < i <= n ==> QuietAfter(m, start, obs, i)) <==> (forall i :: 0 < i <= n ==> StaysAt(m, start, obs, i))
  {
    hide Resolve, RawStance, Lead, Stays, LeadAfter;
    if n > 0 {
      HeldSoFar(m, start, obs, n - 1);
      AnchorFollowsState(m, Some(start), obs, n - 1);
      assert FreshAt(At(start.lastBarAt), obs, n - 1);
      LeadIsHeld(m, start, obs, n);
      var s := After(m, Some(start), obs, n - 1).value;
      if forall i :: 0 < i <= n - 1 ==> QuietAfter(m, start, obs, i) {
        assert n > 1 ==> QuietAfter(m, start, obs, n - 1);
        QuietExactly(m, s, obs[n - 1]);
        assert QuietAfter(m, start, obs, n) <==> StaysAt(m, start, obs, n);
      }
    }
  }

  /** Over any run with evidence, a stance is held quietly throughout exactly when no smoothed lead
      leaves its zone: a direction from the exit margin up, a conflict strictly inside the entry margins. */
  lemma HeldThroughoutExactly(m: Setup, start: State, obs: seq<Observation>)
    requires Ordered(m.params) && Evidenced(start, obs) && start.stance != Insufficient
    ensures (forall i :: 0 < i <= |obs| ==> QuietAfter(m, start, obs, i))
            <==> forall i :: 0 < i <= |obs| ==> StaysAt(m, start, obs, i)
  {
    HeldSoFar(m, start, obs, |obs|);
  }

  /** In the dead zone between the exit and the entry margin history decides: a long run stays long and a
      conflict stays a conflict, quietly and for any length. */
  lemma DeadZone(m: Setup, start: State, obs: seq<Observation>, lo: real, hi: real, i: nat)
    requires Ordered(m.params) && InBand(m, start, obs, lo, hi)
    requires m.params.exitMargin <= lo && hi <= m.params.enterMargin && 0 < i <= |obs|
    ensures start.stance == LongLeaning || start.stance == Conflicted ==>
              Quiet(After(m, Some(start), obs, i).value, start.stance)
  {
    hide Resolve, RawStance, LeadAfter, Quiet, After;
    if start.stance == LongLeaning || start.stance == Conflicted {
      forall j | 0 <= j < |obs| ensures RawStance(obs[j]) != Insufficient {
        assert BandAt(m, start, obs, lo, hi, j);
      }
      forall j | 0 < j <= |obs| ensures StaysAt(m, start, obs, j) {
        assert BandAt(m, start, obs, lo, hi, j - 1);
      }
      HeldThroughoutExactly(m, start, obs);
      assert QuietAfter(m, start, obs, i);
    }
  }

  /** The same on the short side. */
  lemma ShortDeadZone(m: Setup, start: State, obs: seq<Observation>, lo: real, hi: real, i: nat)
    requires Ordered(m.params) && InBand(m, MirrorState(start), MirrorAll(obs), lo, hi)
    requires m.params.exitMargin <= lo && hi <= m.params.enterMargin && 0 < i <= |obs|
    ensures start.stance == ShortLeaning || start.stance == Conflicted ==>
              Quiet(After(m, Some(start), obs, i).value, start.stance)
  {
    hide InBand, Resolve;
    DeadZone(m, MirrorState(start), MirrorAll(obs), lo, hi, i);
    RunMirrors(m, Some(start), obs, i);
  }
}
