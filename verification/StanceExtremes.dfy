/**
 Runs that show how sharp the guarantees are: a sustained lead across the flip margin that never gets
 through at the default tuning, and, under every ordered tuning and for every length, a run that
 adopts and one that changes its stance exactly as often as the bounds allow.
*/
module StanceExtremes {
  import opened Common
  import opened RealArithmetic
  import opened Rounding
  import opened Hysteresis
  import opened StanceRuns
  import opened StanceInvariants
  import opened StanceLiveness
  import opened StanceScripts
  import opened StanceBands

  // ----- A sustained lead that never gets through -----

  /** Four-hour candles at the default tuning, as the code runs it. */
  const LIVE := Setup(DEFAULTS, 240.0, Decimal)

  /** Candle i of the run: one candle of short lead, then the long side ahead on every candle. */
  function StubbornObservation(i: nat): Observation {
    var shortScore := if i == 0 then 141.0 else if i == 1 then 36.0 else if i % 2 == 0 then 68.0 else 72.0;
    Observation(2, 2, 100.0, shortScore, HtfContext(Neutral, 0.0, false), Some(i * 14400), (i + 1) * 14400)
  }

  function StubbornRun(n: nat): seq<Observation> {
    seq(n, i requires 0 <= i < n => StubbornObservation(i))
  }

  lemma StubbornStep(s: State, i: nat)
    requires i > 0 && Newer(s.lastBarAt, Some(i * 14400))
    requires s.stance == ShortLeaning && s.longEma == 100.0
    requires s.shortEma == if i == 1 then 141.0 else if i % 2 == 0 then 71.0 else 69.0
    requires i == 1 ==> s.pending.None?
    requires i > 1 ==> s.pending == Some(if i % 2 == 0 then Conflicted else LongLeaning)
    ensures RawStance(StubbornObservation(i)) == LongLeaning
    ensures var t := Resolve(LIVE, Some(s), StubbornObservation(i));
            && t.stance == ShortLeaning && t.longEma == 100.0
            && t.shortEma == (if i % 2 == 0 then 69.0 else 71.0)
            && t.pending == Some(if i % 2 == 0 then LongLeaning else Conflicted)
            && t.lastBarAt == Some(i * 14400)
  {
    StubbornEmas(s.shortEma, i);
  }

  lemma StubbornStart()
    ensures var s := Resolve(LIVE, None, StubbornObservation(0));
            && s.stance == ShortLeaning && s.longEma == 100.0 && s.shortEma == 141.0
            && s.lastBarAt == Some(0) && s.pending.None?
  {
    HundredthsAreFixed(Decimal, 141.0);
    HundredthsAreFixed(Decimal, 100.0);
  }

  lemma StubbornEmas(prev: real, i: nat)
    requires i > 0 && prev == if i == 1 then 141.0 else if i % 2 == 0 then 71.0 else 69.0
    ensures Blend(Decimal, Alpha(DEFAULTS), prev, StubbornObservation(i).shortScore) == if i % 2 == 0 then 69.0 else 71.0
    ensures Blend(Decimal, Alpha(DEFAULTS), 100.0, 100.0) == 100.0
  {
    assert Alpha(DEFAULTS) == 2.0 / 3.0;
    HundredthsAreFixed(Decimal, 69.0);
    HundredthsAreFixed(Decimal, 71.0);
    HundredthsAreFixed(Decimal, 100.0);
  }

  /** Between the entry and the flip margin a sustained lead need not get through at all: here every
      candle after the first leans long by itself, yet the held stance stays short for as long as
      the run lasts, because the proposals alternate and neither is ever confirmed twice running. */
  lemma {:induction false} SustainedLeadCanBeIgnored(n: nat, i: nat)
    requires 0 < i <= n
    ensures var s := After(LIVE, None, StubbornRun(n), i).value;
            && s.stance == ShortLeaning && s.longEma == 100.0
            && s.shortEma == (if i == 1 then 141.0 else if i % 2 == 0 then 71.0 else 69.0)
            && s.lastBarAt == Some((i - 1) * 14400)
            && (i == 1 ==> s.pending.None?)
            && (i > 1 ==> s.pending == Some(if i % 2 == 0 then Conflicted else LongLeaning))
    ensures i > 1 ==> RawStance(StubbornRun(n)[i - 1]) == LongLeaning
  {
    hide Resolve, RawStance;
    if i == 1 {
      StubbornStart();
    } else {
      SustainedLeadCanBeIgnored(n, i - 1);
      StubbornStep(After(LIVE, None, StubbornRun(n), i - 1).value, i - 1);
    }
  }

  // ----- Three candles are not enough -----

  /** Long scores of 100 throughout, against these short ones: a smoothed lead of 0.27 from candle 1 on. */
  const PATIENT_RUN := [Patient(141.0, 0), Patient(39.0, 1), Patient(73.0, 2), Patient(73.0, 3), Patient(73.0, 4)]

  function Patient(shortScore: real, i: nat): Observation {
    Observation(2, 2, 100.0, shortScore, HtfContext(Neutral, 0.0, false), Some(i * 14400), (i + 1) * 14400)
  }

  lemma PatientStep(s: State, o: Observation)
    requires Newer(s.lastBarAt, o.barAt) && s.longEma == 100.0 && o.longCount == 2 && o.shortCount == 2 && o.longScore == 100.0
    requires o.htf == HtfContext(Neutral, 0.0, false)
    requires (s.shortEma == 141.0 && o.shortScore == 39.0) || (s.shortEma == 73.0 && o.shortScore == 73.0)
    ensures var t := Resolve(LIVE, Some(s), o);
            && RawStance(o) == LongLeaning && t.longEma == 100.0 && t.shortEma == 73.0 && t.lastBarAt == o.barAt
            && Proposal(LIVE, s, o) == if s.stance == ShortLeaning then Conflicted else LongLeaning
  {
    assert Alpha(DEFAULTS) == 2.0 / 3.0;
    HundredthsAreFixed(Decimal, 73.0);
    HundredthsAreFixed(Decimal, 100.0);
  }

  /** After candle i: two proposals adopt a conflict, two more the long side. */
  predicate PatientState(s: State, i: nat) {
    && s.lastBarAt == Some(i * 14400) && s.longEma == 100.0 && s.shortEma == (if i == 0 then 141.0 else 73.0)
    && s.stance == (if i < 2 then ShortLeaning else if i < 4 then Conflicted else LongLeaning)
    && if i % 2 == 0 then s.pending.None? && s.pendingCount == 0
       else s.pending == Some(if i == 1 then Conflicted else LongLeaning) && s.pendingCount == 1
  }

  lemma PatientStart()
    ensures PatientState(Resolve(LIVE, None, PATIENT_RUN[0]), 0)
  {
    hide Resolve;
    StubbornStart();
    assert PATIENT_RUN[0] == StubbornObservation(0);
    BootstrapIsQuiet(LIVE, PATIENT_RUN[0]);
  }

  lemma PatientCandle(s: State, i: nat)
    requires 1 <= i <= 4 && PatientState(s, i - 1)
    ensures PatientState(Resolve(LIVE, Some(s), PATIENT_RUN[i]), i) && RawStance(PATIENT_RUN[i]) == LongLeaning
  {
    hide Resolve, Proposal, RawStance, Alpha;
    var o := Patient(if i == 1 then 39.0 else 73.0, i);
    assert PATIENT_RUN[i] == o;
    hide PATIENT_RUN;
    PatientStep(s, o);
    RefusedIsPending(LIVE, s, o);
    PendingStep(LIVE, s, o);
    TwoConfirmations();
  }

  lemma TwoConfirmations()
    ensures Required(LIVE.params) == 2
  {
    assert (2.0).Floor == 2;
  }

  lemma {:induction false} PatientRunState(i: nat)
    requires i <= 4
    ensures PatientState(After(LIVE, None, PATIENT_RUN, i + 1).value, i)
    ensures i > 0 ==> RawStance(PATIENT_RUN[i]) == LongLeaning
  {
    hide Resolve, RawStance, PatientState;
    if i == 0 {
      PatientStart();
    } else {
      PatientRunState(i - 1);
      PatientCandle(After(LIVE, None, PATIENT_RUN, i).value, i);
    }
  }

  /** Candle i leans long by itself, and the smoothed lead after it is 0.27. */
  predicate LeansLong(i: nat)
    requires i < |PATIENT_RUN|
  {
    var s := After(LIVE, None, PATIENT_RUN, i + 1).value;
    RawStance(PATIENT_RUN[i]) == LongLeaning && Lead(s.longEma, s.shortEma) == 0.27
  }

  /** At the default tuning a sustained lead of 0.27, in a band that does not straddle the flip margin and on
      candles that all lean long by themselves, is held after four candles and not after three. */
  lemma ThreeCandlesAreNotEnough()
    ensures After(LIVE, None, PATIENT_RUN, 1).value.stance == ShortLeaning
    ensures forall i :: 1 <= i <= 4 ==> LeansLong(i)
    ensures After(LIVE, None, PATIENT_RUN, 4).value.stance == Conflicted
    ensures After(LIVE, None, PATIENT_RUN, 5).value.stance == LongLeaning
  {
    hide After, RawStance;
    PatientRunState(0);
    forall i | 1 <= i <= 4 ensures LeansLong(i) {
      PatientRunState(i);
    }
    PatientRunState(3);
    PatientRunState(4);
  }

  // ----- As many changes as the bounds allow -----

  /** Whole-numbered scores that make the machine propose what is wanted, whatever it holds. */
  function Force(m: Setup, s: Option<State>, want: Stance, i: nat): Observation
    requires Ordered(m.params)
  {
    var long, short := if s.None? then 0.0 else s.value.longEma, if s.None? then 0.0 else s.value.shortEma;
    Observation(if want == Insufficient then 0 else 2, 2,
                if want == ShortLeaning then 0.0 else Outweighs(m, short),
                if want == ShortLeaning then Outweighs(m, long) else 0.0,
                HtfContext(Neutral, 0.0, false), Some(i), i)
  }

  /** A whole number of at least q. */
  function Ceiling(q: real): (n: int)
    ensures n as real >= q
  {
    q.Floor + 1
  }

  lemma WholeIsHundredths(n: int)
    ensures Hundredths(n as real)
  {
    assert n as real * 100.0 == (n * 100) as real;
  }

  /** A score that, smoothed in, leads any smoothed score of the other side by the flip margin. */
  function Outweighs(m: Setup, other: real): (x: real)
    requires Ordered(m.params)
  {
    PositiveProduct(Alpha(m.params), 1.0 - m.params.flipMargin);
    WholeQuotient(other + 2.0, Alpha(m.params) * (1.0 - m.params.flipMargin))
  }

  /** A positive whole number that, scaled by w, makes up at least the given amount. */
  function WholeQuotient(least: real, w: real): (x: real)
    requires w > 0.0
    ensures x > 0.0 && Hundredths(x) && w * x >= least
  {
    var n := MaxInt(1, Ceiling(least / w));
    WholeIsHundredths(n);
    Enlarged(w, least, n as real);
    n as real
  }

  lemma OutweighsLeads(m: Setup, own: real, other: real)
    requires Ordered(m.params) && own >= 0.0 && other >= 0.0
    ensures var x := Outweighs(m, other);
            var l, s := Blend(m.arith, Alpha(m.params), own, x), Blend(m.arith, Alpha(m.params), other, 0.0);
            x > 0.0 && Hundredths(x) && l >= 0.0 && s >= 0.0 && Lead(l, s) >= m.params.flipMargin
  {
    hide Blend, Alpha, Hundredths, Lead, HalfUnit, Mix, WholeQuotient;
    var alpha, f, x := Alpha(m.params), m.params.flipMargin, Outweighs(m, other);
    PositiveProduct(alpha, 1.0 - f);
    BlendNonNegative(m.arith, alpha, own, x);
    BlendNonNegative(m.arith, alpha, other, 0.0);
    BlendError(m.arith, alpha, own, x);
    BlendError(m.arith, alpha, other, 0.0);
    RoundingIsSmall(m.arith);
    OutweighedMix(alpha, f, x, own, other);
    var l, s := Blend(m.arith, alpha, own, x), Blend(m.arith, alpha, other, 0.0);
    LeadsOnceRounded(f, Mix(alpha, x, own), Mix(alpha, 0.0, other), l, s);
    LeadAtLeast(l, s, f);
  }

  lemma RoundingIsSmall(arith: Arithmetic)
    ensures 0.0 <= HalfUnit(arith) <= 0.0005
  {
  }

  lemma LeadsOnceRounded(f: real, mixedLong: real, mixedShort: real, long: real, short: real)
    requires 0.0 < f < 1.0 && mixedLong >= 2.0 && (1.0 - f) * mixedLong >= mixedShort + 2.0
    requires long >= mixedLong - 0.0005 && short <= mixedShort + 0.0005
    ensures Leads(long, short, f)
  {
    Enough(1.0 - f, mixedLong, long, mixedShort, short);
  }

  lemma Enough(share: real, mixedLong: real, long: real, mixedShort: real, short: real)
    requires 0.0 < share < 1.0 && share * mixedLong >= mixedShort + 2.0
    requires long >= mixedLong - 0.0005 && short <= mixedShort + 0.0005
    ensures short <= share * long
  {
    var more := long - mixedLong + 0.0005;
    NonNegativeProduct(share, more);
    assert long == mixedLong - 0.0005 + more;
    assert share * long == share * mixedLong - share * 0.0005 + share * more;
  }

  lemma OutweighedMix(alpha: real, f: real, x: real, own: real, other: real)
    requires 0.0 < alpha <= 1.0 && 0.0 < f < 1.0 && own >= 0.0 && other >= 0.0
    requires alpha * (1.0 - f) * x >= other + 2.0
    ensures (1.0 - f) * Mix(alpha, x, own) >= Mix(alpha, 0.0, other) + 2.0
    ensures Mix(alpha, x, own) >= 2.0
  {
    NonNegativeProduct(1.0 - alpha, own);
    NonNegativeProduct(1.0 - f, (1.0 - alpha) * own);
    NonNegativeProduct(alpha, other);
    assert (1.0 - f) * Mix(alpha, x, own) == alpha * (1.0 - f) * x + (1.0 - f) * ((1.0 - alpha) * own);
    assert Mix(alpha, 0.0, other) == other - alpha * other;
    if Mix(alpha, x, own) < 2.0 {
      Scaled(Mix(alpha, x, own), 2.0, 1.0 - f);
    }
  }

  /** The forced candle proposes exactly what is wanted and keeps the scores non-negative. */
  lemma ForcedStep(m: Setup, s: State, want: Stance, i: nat)
    requires Ordered(m.params) && s.longEma >= 0.0 && s.shortEma >= 0.0 && want != Conflicted
    requires Newer(s.lastBarAt, Some(i))
    ensures var o := Force(m, Some(s), want, i);
            var t := Resolve(m, Some(s), o);
            && Scored(o) && (RawStance(o) == Insufficient <==> want == Insufficient) && Proposal(m, s, o) == want
            && t.longEma >= 0.0 && t.shortEma >= 0.0
  {
    hide Resolve, Outweighs, Alpha, Lead, Blend, Hundredths;
    var o := Force(m, Some(s), want, i);
    FreshEmas(m, s, o);
    NoScoreIsHundredths();
    if want == ShortLeaning {
      OutweighsLeads(m, s.shortEma, s.longEma);
      var l, r := Blend(m.arith, Alpha(m.params), s.longEma, o.longScore), Blend(m.arith, Alpha(m.params), s.shortEma, o.shortScore);
      LeadIsOdd(r, l);
      ShortLeadIsProposed(m.params, s.stance, Lead(l, r));
    } else {
      OutweighsLeads(m, s.longEma, s.shortEma);
      LongLeadIsProposed(m.params, s.stance, Lead(Blend(m.arith, Alpha(m.params), s.longEma, o.longScore),
                                                  Blend(m.arith, Alpha(m.params), s.shortEma, o.shortScore)));
    }
  }

  lemma NoScoreIsHundredths()
    ensures Hundredths(0.0)
  {
    WholeIsHundredths(0);
  }

  lemma ShortLeadIsProposed(p: Params, held: Stance, rel: real)
    requires Ordered(p) && rel <= -p.flipMargin
    ensures Candidate(p, held, rel) == ShortLeaning
  {
  }

  lemma ForcedStart(m: Setup)
    requires Ordered(m.params)
    ensures var o := Force(m, None, LongLeaning, 0);
            var s := Resolve(m, None, o);
            && Scored(o) && s.stance == LongLeaning && s.longEma >= 0.0 && s.shortEma >= 0.0
  {
    hide Hundredths, Outweighs, Alpha, Blend, Lead;
    NoScoreIsHundredths();
    var o := Force(m, None, LongLeaning, 0);
    OutweighsLeads(m, 0.0, 0.0);
    Divided(o.longScore, o.longScore, 1.0);
    BootstrapEmas(m, o);
  }

  /** A run that wants stance want(i) on candle i. */
  function Wanting(m: Setup, want: nat -> Stance): Script
    requires Ordered(m.params)
  {
    (i: nat, s: Option<State>) => Force(m, s, want(i), i)
  }

  lemma Quotient(n: int, k: int, q: int, r: int)
    requires k >= 1 && n == k * q + r && 0 <= r < k
    ensures n / k == q && n % k == r
  {
    var d := n / k - q;
    assert k * (n / k) + n % k == n;
    assert k * d == k * (n / k) - k * q == r - n % k;
    if d >= 1 {
      Scale(k, 1, d);
      assert false;
    } else if d <= -1 {
      Scale(k, d, -1);
      assert false;
    }
  }

  lemma NextQuotient(j: nat, k: int)
    requires k >= 1
    ensures if j % k == k - 1 then (j + 1) / k == j / k + 1 && (j + 1) % k == 0
            else (j + 1) / k == j / k && (j + 1) % k == j % k + 1
  {
    var q, r := j / k, j % k;
    assert j == k * q + r;
    if r == k - 1 {
      OneMore(k, q);
      Quotient(j + 1, k, q + 1, 0);
    } else {
      Quotient(j + 1, k, q, r + 1);
    }
  }

  lemma FirstQuotient(k: int)
    requires k >= 1
    ensures 0 / k == 0 && 0 % k == 0
  {
    Quotient(0, k, 0, 0);
  }

  lemma {:induction false} KeptOfFresh(a: Anchor, obs: seq<Observation>, i: nat)
    requires AllFresh(a, obs) && i <= |obs|
    ensures |Kept(a, obs, i)| == i
  {
    if i > 0 {
      KeptOfFresh(a, obs, i - 1);
      assert FreshAt(a, obs, i - 1);
    }
  }

  // ----- Adoptions -----

  function Side(b: int): Stance {
    if b % 2 == 0 then LongLeaning else ShortLeaning
  }

  /** Candle 0 starts on the long side; then each side is wanted for k candles in turn. */
  function Alternating(m: Setup): nat -> Stance {
    (i: nat) => if i == 0 then LongLeaning else Side((i - 1) / Required(m.params) + 1)
  }

  /** After j candles beyond the first, j / k sides have been adopted and j % k candles counted towards the next. */
  predicate Swings(m: Setup, s: State, j: nat) {
    var k := Required(m.params);
    && s.longEma >= 0.0 && s.shortEma >= 0.0 && s.lastBarAt == Some(j)
    && s.stance == Side(j / k) && s.pendingCount == j % k
    && (s.pending.None? <==> j % k == 0) && (s.pending.Some? ==> s.pending == Some(Side(j / k + 1)))
    && (s.flipped <==> j > 0 && j % k == 0)
  }

  lemma SwingStep(m: Setup, s: State, j: nat)
    requires Ordered(m.params) && Swings(m, s, j)
    ensures Swings(m, Resolve(m, Some(s), Wanting(m, Alternating(m))(j + 1, Some(s))), j + 1)
    ensures Scored(Wanting(m, Alternating(m))(j + 1, Some(s)))
  {
    hide Resolve, Scored, RawStance, Proposal;
    var k, want, o := Required(m.params), Side(j / Required(m.params) + 1), Wanting(m, Alternating(m))(j + 1, Some(s));
    assert Alternating(m)(j + 1) == want;
    ForcedStep(m, s, want, j + 1);
    RefusedIsPending(m, s, o);
    PendingStep(m, s, o);
    NewBar(m, s, o);
    NextQuotient(j, k);
  }

  lemma NewBar(m: Setup, s: State, o: Observation)
    requires Newer(s.lastBarAt, o.barAt)
    ensures Resolve(m, Some(s), o).lastBarAt == o.barAt
  {
    CandleStep(m, s, o);
  }

  lemma {:induction false} SwingRun(m: Setup, i: nat)
    requires Ordered(m.params)
    ensures Swings(m, Reached(m, None, Wanting(m, Alternating(m)), i + 1).value, i)
  {
    hide Resolve, Wanting, Alternating, Force, Swings;
    if i == 0 {
      SwingStart(m);
    } else {
      SwingRun(m, i - 1);
      SwingStep(m, Reached(m, None, Wanting(m, Alternating(m)), i).value, i - 1);
    }
  }

  lemma SwingStart(m: Setup)
    requires Ordered(m.params)
    ensures Swings(m, Reached(m, None, Wanting(m, Alternating(m)), 1).value, 0)
  {
    hide Resolve, RawStance, Scored, Required;
    var o := Force(m, None, LongLeaning, 0);
    assert Reached(m, None, Wanting(m, Alternating(m)), 1) == Some(Resolve(m, None, o));
    ForcedStart(m);
    BootstrapIsQuiet(m, o);
    FirstQuotient(Required(m.params));
  }

  lemma {:induction false} SwingingFlips(m: Setup, n: nat, i: nat)
    requires Ordered(m.params) && 0 < i <= n
    ensures Flips(m, None, Played(m, None, Wanting(m, Alternating(m)), n), i) == (i - 1) / Required(m.params)
  {
    hide Resolve, Wanting, Alternating;
    var script := Wanting(m, Alternating(m));
    PlayedReaches(m, None, script, n, i);
    SwingRun(m, i - 1);
    hide Played, Reached;
    if i == 1 {
      FirstQuotient(Required(m.params));
    } else {
      SwingingFlips(m, n, i - 1);
      NextQuotient(i - 2, Required(m.params));
    }
  }

  lemma WantingIsNumbered(m: Setup, want: nat -> Stance)
    requires Ordered(m.params)
    ensures Numbered(Wanting(m, want))
  {
    hide Outweighs;
    forall i: nat, s: Option<State> ensures Wanting(m, want)(i, s).barAt == Some(i) {
      assert Wanting(m, want)(i, s) == Force(m, s, want(i), i);
    }
  }

  lemma SwingingScored(m: Setup, i: nat)
    requires Ordered(m.params)
    ensures Scored(Wanting(m, Alternating(m))(i, Reached(m, None, Wanting(m, Alternating(m)), i)))
  {
    hide Resolve, Swings, Scored, Force;
    if i == 0 {
      ForcedStart(m);
    } else {
      SwingRun(m, i - 1);
      SwingStep(m, Reached(m, None, Wanting(m, Alternating(m)), i).value, i - 1);
    }
  }

  /** Under every ordered tuning and for every length there is a run of new candles and two-decimal
      scores that adopts exactly as many stances as the bound allows. */
  lemma FlipBoundIsAttained(m: Setup, n: nat) returns (obs: seq<Observation>)
    requires Ordered(m.params) && n > 0
    ensures |obs| == n && AllFresh(Unstarted, obs) && AllScored(obs) && Steps(None, obs, n) == n - 1
    ensures Flips(m, None, obs, n) == Steps(None, obs, n) / Required(m.params)
  {
    hide Alternating, Wanting, Scored, Resolve, Reached;
    var script := Wanting(m, Alternating(m));
    obs := Played(m, None, script, n);
    WantingIsNumbered(m, Alternating(m));
    NumberedIsAllFresh(m, None, script, n);
    KeptOfFresh(Unstarted, obs, n);
    SwingingFlips(m, n, n);
    forall i | 0 <= i < n ensures Scored(obs[i]) {
      SwingingScored(m, i);
    }
  }

  // ----- Changes -----

  /** Candle 0 starts on the long side; then evidence is lost for one candle and the long side wanted for k, over and over. */
  function Fading(m: Setup): nat -> Stance {
    (i: nat) => if i > 0 && (i - 1) % (Required(m.params) + 1) == 0 then Insufficient else LongLeaning
  }

  predicate Fades(m: Setup, s: State, j: nat) {
    var r := j % (Required(m.params) + 1);
    && s.longEma >= 0.0 && s.shortEma >= 0.0 && s.lastBarAt == Some(j)
    && (s.pending.None? <==> s.pendingCount == 0)
    && (if r == 0 then s.stance == LongLeaning && s.pendingCount == 0
        else s.stance == Insufficient && s.pendingCount == r - 1 && (s.pending.Some? ==> s.pending == Some(LongLeaning)))
  }

  lemma GateStep(m: Setup, s: State, o: Observation)
    requires Newer(s.lastBarAt, o.barAt) && RawStance(o) == Insufficient
    ensures var t := Resolve(m, Some(s), o); t.stance == Insufficient && t.pending.None? && t.pendingCount == 0
  {
    hide Blend, Lead, Alpha;
  }

  lemma FadeStep(m: Setup, s: State, j: nat)
    requires Ordered(m.params) && Fades(m, s, j)
    ensures var o := Wanting(m, Fading(m))(j + 1, Some(s)); Fades(m, Resolve(m, Some(s), o), j + 1) && Scored(o)
  {
    hide Resolve, Scored, RawStance, Proposal;
    var k, o := Required(m.params), Wanting(m, Fading(m))(j + 1, Some(s));
    var want := if j % (k + 1) == 0 then Insufficient else LongLeaning;
    assert Fading(m)(j + 1) == want;
    ForcedStep(m, s, want, j + 1);
    if want == Insufficient {
      GateStep(m, s, o);
    } else {
      RefusedIsPending(m, s, o);
      PendingStep(m, s, o);
    }
    NewBar(m, s, o);
    NextQuotient(j, k + 1);
  }

  lemma FadeStart(m: Setup)
    requires Ordered(m.params)
    ensures Fades(m, Reached(m, None, Wanting(m, Fading(m)), 1).value, 0)
  {
    hide Resolve, RawStance, Scored, Required;
    var o := Force(m, None, LongLeaning, 0);
    assert Reached(m, None, Wanting(m, Fading(m)), 1) == Some(Resolve(m, None, o));
    ForcedStart(m);
    BootstrapIsQuiet(m, o);
    FirstQuotient(Required(m.params) + 1);
  }

  lemma {:induction false} FadeRun(m: Setup, i: nat)
    requires Ordered(m.params)
    ensures Fades(m, Reached(m, None, Wanting(m, Fading(m)), i + 1).value, i)
  {
    hide Resolve, Wanting, Fading, Force, Fades;
    if i == 0 {
      FadeStart(m);
    } else {
      FadeRun(m, i - 1);
      FadeStep(m, Reached(m, None, Wanting(m, Fading(m)), i).value, i - 1);
    }
  }

  lemma FadingScored(m: Setup, i: nat)
    requires Ordered(m.params)
    ensures Scored(Wanting(m, Fading(m))(i, Reached(m, None, Wanting(m, Fading(m)), i)))
  {
    hide Resolve, Fades, Scored, Force;
    if i == 0 {
      ForcedStart(m);
    } else {
      FadeRun(m, i - 1);
      FadeStep(m, Reached(m, None, Wanting(m, Fading(m)), i).value, i - 1);
    }
  }

  lemma {:induction false} FadingChanges(m: Setup, n: nat, i: nat)
    requires Ordered(m.params) && 0 < i <= n
    ensures Changes(m, None, Played(m, None, Wanting(m, Fading(m)), n), i) == MostChanges(i - 1, Required(m.params))
  {
    hide Resolve, Wanting, Fading;
    var script := Wanting(m, Fading(m));
    PlayedReaches(m, None, script, n, i);
    PlayedReaches(m, None, script, n, i - 1);
    FadeRun(m, i - 1);
    if i == 1 {
      FirstQuotient(Required(m.params) + 1);
    } else {
      FadeRun(m, i - 2);
      FadingChanges(m, n, i - 1);
      NextQuotient(i - 2, Required(m.params) + 1);
    }
    hide Played, Reached;
  }

  /** And one that changes its stance exactly as often as the bound allows. */
  lemma ChangeBoundIsAttained(m: Setup, n: nat) returns (obs: seq<Observation>)
    requires Ordered(m.params) && n > 0
    ensures |obs| == n && AllFresh(Unstarted, obs) && AllScored(obs) && Steps(None, obs, n) == n - 1
    ensures Changes(m, None, obs, n) == MostChanges(Steps(None, obs, n), Required(m.params))
  {
    hide Fading, Wanting, Scored, Resolve, Reached;
    var script := Wanting(m, Fading(m));
    obs := Played(m, None, script, n);
    WantingIsNumbered(m, Fading(m));
    NumberedIsAllFresh(m, None, script, n);
    KeptOfFresh(Unstarted, obs, n);
    FadingChanges(m, n, n);
    forall i | 0 <= i < n ensures Scored(obs[i]) {
      FadingScored(m, i);
    }
  }
}
