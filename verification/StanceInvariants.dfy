/** What every reachable state satisfies, and what the displays built on it therefore promise. */
module StanceInvariants {
  import opened Common
  import opened RealArithmetic
  import opened Rounding
  import opened Hysteresis
  import opened StanceRuns

  /** Scores are sums of non-negative two-decimal contributions. */
  predicate Scored(o: Observation) {
    && o.longScore >= 0.0 && o.shortScore >= 0.0
    && Hundredths(o.longScore) && Hundredths(o.shortScore)
  }

  ghost predicate AllScored(obs: seq<Observation>) {
    forall i :: 0 <= i < |obs| ==> Scored(obs[i])
  }

  /** `transitioning`, the pending stance, its target and its counter tell the same story. */
  predicate Bookkept(m: Setup, s: State) {
    && (s.transitioning <==> s.pending.Some?)
    && (s.pending.Some? <==> 0 < s.pendingCount)
    && 0 <= s.pendingCount < Required(m.params)
    && s.target == s.pending
    && s.pending != Some(s.stance) && s.pending != Some(Insufficient)
    && s.candlesInState >= 1
    && (s.flipped ==> !s.transitioning && s.candlesInState == 1 && s.stance != Insufficient)
    && (s.transitioning ==>
          s.progress == Round(m.arith, s.pendingCount as real / Required(m.params) as real, 100.0))
    && (!s.transitioning ==> s.progress == 0.0 || s.progress == 1.0)
  }

  predicate Leads(ahead: real, behind: real, margin: real) {
    ahead > 0.0 && behind <= (1.0 - margin) * ahead
  }

  /** A directional stance that is not in transition is backed by a lead of at least the exit margin. */
  predicate Backed(p: Params, s: State) {
    && s.longEma >= 0.0 && s.shortEma >= 0.0
    && (s.stance == LongLeaning && !s.transitioning ==> Leads(s.longEma, s.shortEma, p.exitMargin))
    && (s.stance == ShortLeaning && !s.transitioning ==> Leads(s.shortEma, s.longEma, p.exitMargin))
  }

  lemma LeadAtLeast(l: real, s: real, t: real)
    requires 0.0 < t < 1.0 && l >= 0.0 && s >= 0.0
    ensures Lead(l, s) >= t <==> Leads(l, s, t)
  {
    if l >= s && l > 0.0 {
      Ratio(l - s, l, t);
      assert (1.0 - t) * l == l - t * l;
    } else if s > 0.0 {
      Ratio(s - l, s, 0.0);
      QuotientNegates(s - l, s);
      Scaled(1.0 - t, 1.0, l);
    }
  }

  lemma WeakerMargin(l: real, s: real, t: real, u: real)
    requires Leads(l, s, t) && u <= t
    ensures Leads(l, s, u)
  {
    Scaled(1.0 - t, 1.0 - u, l);
  }

  lemma BlendNonNegative(arith: Arithmetic, alpha: real, prev: real, x: real)
    requires 0.0 < alpha <= 1.0 && prev >= 0.0 && x >= 0.0
    ensures Blend(arith, alpha, prev, x) >= 0.0
  {
    NonNegativeProduct(alpha, x);
    NonNegativeProduct(1.0 - alpha, prev);
    RoundMonotone(arith, 0.0, Mix(alpha, x, prev), 1000.0);
    HundredthsAreFixed(arith, 0.0);
  }

  /** What a raw directional stance says about the scores. */
  lemma RawLeads(o: Observation)
    requires Scored(o)
    ensures RawStance(o) == LongLeaning ==> Leads(o.longScore, o.shortScore, 0.25)
    ensures RawStance(o) == ShortLeaning ==> Leads(o.shortScore, o.longScore, 0.25)
  {
    var l, s := o.longScore, o.shortScore;
    if Directional(RawStance(o)) {
      if l > s {
        Ratio(l - s, l, 0.25);
      } else {
        Ratio(s - l, s, 0.25);
      }
    }
  }

  /** The instantaneous stance without its divisions: enough evidence on both sides, a lead of a
      quarter, and a lead of a half to go against a clear higher timeframe or a declared conflict. */
  lemma RawStanceExactly(o: Observation)
    requires o.longScore >= 0.0 && o.shortScore >= 0.0
    ensures var l, s := o.longScore, o.shortScore;
            var heard := o.longCount + o.shortCount >= 3 && o.longCount > 0 && o.shortCount > 0 && (l > 0.0 || s > 0.0);
            var needsHalf := (against: Bias) => o.htf.conflicting || (o.htf.bias == against && o.htf.strength >= 0.40);
            && (RawStance(o) == Insufficient <==> !heard)
            && (RawStance(o) == LongLeaning <==>
                  heard && Leads(l, s, 0.25) && (needsHalf(Short) ==> Leads(l, s, 0.50)))
            && (RawStance(o) == ShortLeaning <==>
                  heard && Leads(s, l, 0.25) && (needsHalf(Long) ==> Leads(s, l, 0.50)))
  {
    var l, s := o.longScore, o.shortScore;
    if l > s {
      Ratio(l - s, l, 0.25);
      Ratio(l - s, l, 0.50);
    } else if s > 0.0 {
      Ratio(s - l, s, 0.25);
      Ratio(s - l, s, 0.50);
    }
  }

  lemma BootstrapBacked(m: Setup, o: Observation)
    requires m.params.exitMargin <= 0.25 && Scored(o)
    ensures Backed(m.params, Bootstrap(m, o))
  {
    hide RawStance, Round, Scored, Hundredths;
    BootstrapEmas(m, o);
    RawLeads(o);
    if RawStance(o) == LongLeaning {
      WeakerMargin(o.longScore, o.shortScore, 0.25, m.params.exitMargin);
    } else if RawStance(o) == ShortLeaning {
      WeakerMargin(o.shortScore, o.longScore, 0.25, m.params.exitMargin);
    }
  }

  lemma BootstrapEmas(m: Setup, o: Observation)
    requires Scored(o)
    ensures Bootstrap(m, o).longEma == o.longScore >= 0.0
    ensures Bootstrap(m, o).shortEma == o.shortScore >= 0.0
  {
    HundredthsAreFixed(m.arith, o.longScore);
    HundredthsAreFixed(m.arith, o.shortScore);
  }

  /** The first state is always backed exactly when the exit margin does not exceed the
      instantaneous conflict ratio: exit margins are not clamped, so this can be misconfigured. */
  lemma BootstrapBackedExactly(m: Setup)
    requires 0.0 < m.params.exitMargin < 1.0
    ensures (forall o :: Scored(o) ==> Backed(m.params, Bootstrap(m, o))) <==> m.params.exitMargin <= 0.25
  {
    if m.params.exitMargin <= 0.25 {
      forall o | Scored(o) ensures Backed(m.params, Bootstrap(m, o)) {
        BootstrapBacked(m, o);
      }
    } else {
      var o := Observation(2, 2, 100.0, 75.0, HtfContext(Neutral, 0.0, false), None, 0);
      assert Scored(o);
      BootstrapEmas(m, o);
      assert RawStance(o) == LongLeaning;
      assert !Leads(100.0, 75.0, m.params.exitMargin);
      assert !Backed(m.params, Bootstrap(m, o));
    }
  }

  /** A candidate that keeps or enters a direction has the lead its threshold asks for. */
  lemma CandidateLeads(p: Params, held: Stance, l: real, s: real)
    requires Ordered(p) && l >= 0.0 && s >= 0.0
    ensures Candidate(p, held, Lead(l, s)) == LongLeaning ==> Leads(l, s, p.exitMargin)
    ensures Candidate(p, held, Lead(l, s)) == ShortLeaning ==> Leads(s, l, p.exitMargin)
  {
    LeadAtLeast(l, s, p.exitMargin);
    LeadAtLeast(s, l, p.exitMargin);
    LeadIsOdd(l, s);
  }

  lemma AdvanceBacked(m: Setup, s: State, o: Observation)
    requires Ordered(m.params) && Scored(o) && s.longEma >= 0.0 && s.shortEma >= 0.0
    ensures Backed(m.params, Advance(m, s, o))
  {
    hide Blend, Round, Candidate, RawStance, Leads, Lead, Required, Hundredths;
    var alpha := Alpha(m.params);
    var l, t := Blend(m.arith, alpha, s.longEma, o.longScore), Blend(m.arith, alpha, s.shortEma, o.shortScore);
    BlendNonNegative(m.arith, alpha, s.longEma, o.longScore);
    BlendNonNegative(m.arith, alpha, s.shortEma, o.shortScore);
    CandidateLeads(m.params, s.stance, l, t);
  }

  lemma AdvanceBookkept(m: Setup, s: State, o: Observation)
    requires Bookkept(m, s)
    ensures Bookkept(m, Advance(m, s, o))
  {
    hide Blend, Round, RawStance, Lead;
  }

  /** Every state the machine can reach from nothing is well kept and well backed. */
  lemma {:induction false} ReachableStates(m: Setup, obs: seq<Observation>, i: nat)
    requires Ordered(m.params) && m.params.exitMargin <= 0.25 && AllScored(obs) && 0 < i <= |obs|
    ensures Bookkept(m, After(m, None, obs, i).value) && Backed(m.params, After(m, None, obs, i).value)
  {
    hide Advance, RawStance, Round, Hundredths;
    var o := obs[i - 1];
    assert Scored(o);
    if i == 1 {
      BootstrapBacked(m, o);
    } else {
      ReachableStates(m, obs, i - 1);
      var s := After(m, None, obs, i - 1).value;
      AdvanceBacked(m, s, o);
      AdvanceBookkept(m, s, o);
    }
  }

  // ----- What the displays promise -----

  lemma ShareAtLeast(l: real, s: real, e: real)
    requires 0.0 < e < 1.0 && s >= 0.0 && Leads(l, s, e)
    ensures l + s > 0.0
    ensures (l - s) / (l + s) >= e / (2.0 - e)
    ensures l / (l + s) * 100.0 >= 100.0 / (2.0 - e)
  {
    var d := 2.0 - e;
    assert (1.0 - e) * l == l - e * l;
    assert d * (l - s) - e * (l + s) == 2.0 * (l - e * l - s);
    assert d * l - (l + s) == l - e * l - s;
    CrossMultiply(e, d, l - s, l + s);
    CrossMultiply(1.0, d, l, l + s);
    assert 100.0 / d == 1.0 / d * 100.0;
  }

  lemma CrossMultiply(a: real, b: real, x: real, y: real)
    requires b > 0.0 && y > 0.0 && a * y <= b * x
    ensures a / b <= x / y
  {
    var p, q := a / b, x / y;
    assert a == p * b && x == q * y;
    assert a * y == p * (b * y) && b * x == q * (b * y);
    if p > q {
      StrictlyScaled(q, p, b * y);
      assert false;
    }
  }

  /** Outside a transition the needle stands clear of zero on the held side, and the composite
      score clear of one half, whatever rounding is in force. */
  lemma DisplaysAgreeWithStance(m: Setup, s: State, o: Observation)
    requires Ordered(m.params) && Backed(m.params, s) && Directional(s.stance) && !s.transitioning
    ensures var e := m.params.exitMargin;
            var least := Round(m.arith, e / (2.0 - e), 1000.0);
            if s.stance == LongLeaning then Needle(m.arith, s) >= least else Needle(m.arith, s) <= -least
    ensures var e := m.params.exitMargin;
            ReportedComposite(m.arith, s, o) >= Min(75.0, Round(m.arith, 100.0 / (2.0 - e), 10.0))
  {
    hide Round;
    var e := m.params.exitMargin;
    if s.stance == LongLeaning {
      ShareAtLeast(s.longEma, s.shortEma, e);
      var total := s.longEma + s.shortEma;
      RoundMonotone(m.arith, e / (2.0 - e), (s.longEma - s.shortEma) / total, 1000.0);
      RoundMonotone(m.arith, 100.0 / (2.0 - e), s.longEma / total * 100.0, 10.0);
    } else {
      ShareAtLeast(s.shortEma, s.longEma, e);
      var total := s.longEma + s.shortEma;
      RoundMonotone(m.arith, e / (2.0 - e), (s.shortEma - s.longEma) / total, 1000.0);
      RoundMonotone(m.arith, 100.0 / (2.0 - e), s.shortEma / total * 100.0, 10.0);
      RoundOdd(m.arith, (s.longEma - s.shortEma) / total, 1000.0);
      QuotientNegates(s.longEma - s.shortEma, total);
    }
  }

  lemma ShareInRange(x: real, y: real)
    requires x >= 0.0 && y >= 0.0 && x + y > 0.0
    ensures 0.0 <= x / (x + y) * 100.0 <= 100.0
    ensures -1.0 <= (x - y) / (x + y) <= 1.0
    ensures x / (x + y) * 100.0 == 50.0 * (1.0 + (x - y) / (x + y))
  {
    var t := x + y;
    QuotientAdds(x, y, t);
    Divided(x + y, t, 1.0);
    QuotientSubtracts(x, y, t);
    Ratio(x, t, 0.0);
    Ratio(y, t, 0.0);
  }

  /** In exact arithmetic the composite score of a direction is the needle, read on a scale of 100. */
  lemma CompositeIsNeedle(s: State, o: Observation)
    requires s.longEma >= 0.0 && s.shortEma >= 0.0 && s.longEma + s.shortEma > 0.0
    ensures var composite := CompositeScore(Exact, s.stance, s.longEma, s.shortEma, o.longScore, o.shortScore);
            && (s.stance == LongLeaning ==> composite == 50.0 * (1.0 + Needle(Exact, s)))
            && (s.stance == ShortLeaning ==> composite == 50.0 * (1.0 - Needle(Exact, s)))
  {
    var l, t := s.longEma, s.shortEma;
    ShareInRange(l, t);
    ShareInRange(t, l);
    QuotientNegates(l - t, l + t);
  }

  /** The displays stay on their scales: the needle in [-1, 1], the composite in [0, 100], at most 75
      for a direction the higher timeframe does not support, at least 50 in a conflict. */
  lemma DisplaysInRange(m: Setup, s: State, o: Observation)
    requires s.longEma >= 0.0 && s.shortEma >= 0.0 && o.longScore >= 0.0 && o.shortScore >= 0.0
    ensures -1.0 <= Needle(m.arith, s) <= 1.0
    ensures 0.0 <= ReportedComposite(m.arith, s, o) <= 100.0
    ensures o.htf.bias == Neutral && Directional(s.stance) ==> ReportedComposite(m.arith, s, o) <= 75.0
    ensures s.stance == Conflicted && o.longScore + o.shortScore > 0.0 ==> ReportedComposite(m.arith, s, o) >= 50.0
  {
    hide Round;
    RoundedEnds(m.arith);
    if s.longEma + s.shortEma > 0.0 {
      ShareInRange(s.longEma, s.shortEma);
      ShareInRange(s.shortEma, s.longEma);
      var r := (s.longEma - s.shortEma) / (s.longEma + s.shortEma);
      RoundMonotone(m.arith, -1.0, r, 1000.0);
      RoundMonotone(m.arith, r, 1.0, 1000.0);
      RoundedShare(m.arith, s.longEma / (s.longEma + s.shortEma) * 100.0);
      RoundedShare(m.arith, s.shortEma / (s.longEma + s.shortEma) * 100.0);
    }
    var l, t := Max(o.longScore, o.shortScore), Min(o.longScore, o.shortScore);
    if l + t > 0.0 {
      ShareInRange(l, t);
      Ratio(l - t, l + t, 0.0);
      RoundedShare(m.arith, l / (l + t) * 100.0);
      RoundMonotone(m.arith, 50.0, l / (l + t) * 100.0, 10.0);
    }
  }

  lemma RoundedEnds(arith: Arithmetic)
    ensures Round(arith, -1.0, 1000.0) == -1.0 && Round(arith, 1.0, 1000.0) == 1.0
    ensures Round(arith, 0.0, 10.0) == 0.0 && Round(arith, 50.0, 10.0) == 50.0 && Round(arith, 100.0, 10.0) == 100.0
  {
    assert (500.0).Floor == 500;
    assert (-1000.0).Floor == -1000 && (1000.0).Floor == 1000 && (0.0).Floor == 0;
  }

  lemma RoundedShare(arith: Arithmetic, x: real)
    requires 0.0 <= x <= 100.0
    ensures 0.0 <= Round(arith, x, 10.0) <= 100.0
  {
    hide Round;
    RoundedEnds(arith);
    RoundMonotone(arith, 0.0, x, 10.0);
    RoundMonotone(arith, x, 100.0, 10.0);
  }

  /** What is reported: the rounded share of the held side, capped at 75 only under a neutral higher timeframe;
      in a conflict the share of the stronger instantaneous score; nothing without evidence. */
  lemma CompositeExactly(m: Setup, s: State, o: Observation)
    requires s.longEma >= 0.0 && s.shortEma >= 0.0 && s.longEma + s.shortEma > 0.0
    requires o.longScore >= 0.0 && o.shortScore >= 0.0
    ensures var total, reported := s.longEma + s.shortEma, ReportedComposite(m.arith, s, o);
            var share := Round(m.arith, (if s.stance == LongLeaning then s.longEma else s.shortEma) / total * 100.0, 10.0);
            && (s.stance == Insufficient ==> reported == 0.0)
            && (Directional(s.stance) && o.htf.bias != Neutral ==> reported == share)
            && (Directional(s.stance) && o.htf.bias == Neutral ==> reported == if share <= 75.0 then share else 75.0)
            && (s.stance == Conflicted && o.longScore + o.shortScore == 0.0 ==> reported == 0.0)
            && (s.stance == Conflicted && o.longScore >= o.shortScore && o.longScore > 0.0 ==>
                  reported == Round(m.arith, o.longScore / (o.longScore + o.shortScore) * 100.0, 10.0))
            && (s.stance == Conflicted && o.shortScore >= o.longScore && o.shortScore > 0.0 ==>
                  reported == Round(m.arith, o.shortScore / (o.longScore + o.shortScore) * 100.0, 10.0))
  {
    hide Round;
  }

  /** The needle is the lead relative to both smoothed scores together, to the nearest thousandth, in a
      conflict as much as in a direction; it rests without evidence or without any score. */
  lemma NeedleExactly(s: State, r: real)
    requires s.longEma >= 0.0 && s.shortEma >= 0.0
    ensures s.stance == Insufficient || (s.longEma == 0.0 && s.shortEma == 0.0) ==> Needle(Decimal, s) == 0.0
    ensures s.stance != Insufficient && (s.longEma > 0.0 || s.shortEma > 0.0) ==>
              (Needle(Decimal, s) == r <==> IsNearest(r, (s.longEma - s.shortEma) / (s.longEma + s.shortEma), 1000.0))
  {
    hide Round, IsNearest;
    if s.stance != Insufficient && (s.longEma > 0.0 || s.shortEma > 0.0) {
      RoundExactly((s.longEma - s.shortEma) / (s.longEma + s.shortEma), r, 1000.0);
    }
  }

  // ----- The anchor is a closed candle -----

  /** The anchor is a closed candle exactly when the last candle did not open in the future, and
      it is the last candle itself exactly when the chart does not flag that candle provisional. */
  lemma AnchorIsClosed(open: int, barMinutes: int, now: int)
    requires barMinutes > 0
    ensures var anchor := ConfirmedBar(Some(open), barMinutes, now);
            && anchor.Some?
            && (anchor.value + 60 * barMinutes <= now <==> open <= now)
            && (anchor.value == open <==> Provisional(Some(open), barMinutes, Some(now)) == Some(false))
  {
  }

  /** The start of the candle j places before the last one. */
  function CandleStart(open: int, barMinutes: int, j: nat): int {
    open - j * (60 * barMinutes)
  }

  /** Of all candles on the grid of the last one, up to that one, the anchor is the latest closed one. */
  lemma AnchorIsLatestClosed(open: int, barMinutes: int, now: int)
    requires barMinutes > 0 && open <= now
    ensures var anchor := ConfirmedBar(Some(open), barMinutes, now).value;
            && (anchor == CandleStart(open, barMinutes, 0) || anchor == CandleStart(open, barMinutes, 1))
            && anchor + 60 * barMinutes <= now
            && forall j: nat :: CandleStart(open, barMinutes, j) + 60 * barMinutes <= now ==> CandleStart(open, barMinutes, j) <= anchor
  {
    var length := 60 * barMinutes;
    forall j: nat | CandleStart(open, barMinutes, j) + length <= now
      ensures CandleStart(open, barMinutes, j) <= ConfirmedBar(Some(open), barMinutes, now).value
    {
      if j > 0 {
        assert j * length >= length by {
          Scale(length, 1, j);
        }
      }
    }
  }

  /** Without a last candle there is no anchor and no flag. */
  lemma NoCandleNoAnchor(barMinutes: int, now: int)
    ensures ConfirmedBar(None, barMinutes, now).None?
    ensures Provisional(None, barMinutes, Some(now)).None? && forall open :: Provisional(Some(open), barMinutes, None).None?
  {
  }

  // ----- Tuning -----

  /** The value of an interval that is nearest to the one asked for. */
  ghost predicate Nearest(v: real, asked: real, low: real, high: real) {
    low <= v <= high && forall w :: low <= w <= high ==> Apart(v, asked) <= Apart(w, asked)
  }

  function Apart(x: real, y: real): real {
    Abs(x - y)
  }

  /** The three clamped parameters take the nearest value their bounds allow and the two others whatever
      is asked; so the thresholds are ordered exactly when the two unclamped margins fit under the third. */
  lemma TunedParams(overrides: Option<Overrides>)
    ensures var p := HysteresisParams(overrides);
            && 1 <= Required(p) <= 5 && Required(p) as real <= p.flipPersist < Required(p) as real + 1.0
            && (overrides.None? ==> p == Params(2.0, 0.30, 0.25, 0.10, 2.0))
            && (overrides.Some? ==>
                  var o := overrides.value;
                  && Nearest(p.emaSpan, OverrideOr(o.emaSpan, 2.0), 1.0, 10.0)
                  && Nearest(p.flipMargin, OverrideOr(o.flipMargin, 0.30), 0.25, 0.60)
                  && Nearest(p.flipPersist, OverrideOr(o.flipPersist, 2.0), 1.0, 5.0)
                  && p.enterMargin == OverrideOr(o.enterMargin, 0.25)
                  && p.exitMargin == OverrideOr(o.exitMargin, 0.10))
            && (Ordered(p) <==> 0.0 < p.exitMargin <= p.enterMargin <= p.flipMargin)
            && (overrides.None? || (overrides.value.enterMargin.None? && overrides.value.exitMargin.None?) ==>
                  Ordered(p) && p.exitMargin <= 0.25)
  {
    if overrides.Some? {
      var o := overrides.value;
      BoundedIsNearest(o.emaSpan, DEFAULTS.emaSpan, 1.0, 10.0);
      BoundedIsNearest(o.flipMargin, DEFAULTS.flipMargin, 0.25, 0.60);
      BoundedIsNearest(o.flipPersist, DEFAULTS.flipPersist, 1.0, 5.0);
    }
  }

  lemma BoundedIsNearest(o: Option<real>, default: real, low: real, high: real)
    requires low <= default <= high
    ensures Nearest(Bounded(o, default, low, high), OverrideOr(o, default), low, high)
  {
  }
}
