/**
 Constant scores in exact arithmetic: the smoothed lead then moves monotonically past every margin,
 so which side wins depends on the scores alone, and not on the state the run starts from.
*/
module SteadyScores {
  import opened Common
  import opened RealArithmetic
  import opened Rounding
  import opened Hysteresis
  import opened StanceRuns
  import opened StanceInvariants
  import opened StanceLiveness
  import opened StanceScripts
  import opened StanceBands

  predicate Repeats(o: Observation, long: real, short: real) {
    RawStance(o) != Insufficient && o.longScore == long && o.shortScore == short
  }

  /** New candles with evidence and always the same two scores. */
  ghost predicate Steady(start: State, obs: seq<Observation>, long: real, short: real) {
    AllFresh(At(start.lastBarAt), obs) && forall i :: 0 <= i < |obs| ==> Repeats(obs[i], long, short)
  }

  predicate Sane(start: State) {
    start.pendingCount >= 0 && start.longEma >= 0.0 && start.shortEma >= 0.0
  }

  // ----- The room above a margin -----

  /** By how much the long score exceeds what a lead of f needs. */
  function Room(f: real, long: real, short: real): real {
    (1.0 - f) * long - short
  }

  function RoomAfter(m: Setup, start: State, obs: seq<Observation>, f: real, i: nat): real
    requires i <= |obs|
  {
    Room(f, SmoothedLong(m, start.longEma, obs, i), SmoothedShort(m, start.shortEma, obs, i))
  }

  lemma RoomMixes(f: real, alpha: real, long: real, short: real, l: real, s: real)
    ensures Room(f, Mix(alpha, long, l), Mix(alpha, short, s)) == Mix(alpha, Room(f, long, short), Room(f, l, s))
  {
    assert (1.0 - f) * (alpha * long) == alpha * ((1.0 - f) * long);
    assert (1.0 - f) * ((1.0 - alpha) * l) == (1.0 - alpha) * ((1.0 - f) * l);
  }

  /** The distance of the room from its limit decays geometrically. */
  lemma {:induction false} RoomDecays(m: Setup, start: State, obs: seq<Observation>, long: real, short: real, f: real, i: nat)
    requires m.arith == Exact && Steady(start, obs, long, short) && i <= |obs|
    ensures var goal := Room(f, long, short);
            RoomAfter(m, start, obs, f, i) == goal + Decay(Alpha(m.params), i) * (Room(f, start.longEma, start.shortEma) - goal)
  {
    hide Alpha, Room, Mix, RawStance;
    if i > 0 {
      RoomDecays(m, start, obs, long, short, f, i - 1);
      assert Repeats(obs[i - 1], long, short);
      var alpha, goal, first := Alpha(m.params), Room(f, long, short), Room(f, start.longEma, start.shortEma);
      RoomMixes(f, alpha, long, short, SmoothedLong(m, start.longEma, obs, i - 1), SmoothedShort(m, start.shortEma, obs, i - 1));
      assert RoomAfter(m, start, obs, f, i) == Mix(alpha, goal, RoomAfter(m, start, obs, f, i - 1));
      MixOfDecayed(alpha, goal, first, Decay(alpha, i - 1), RoomAfter(m, start, obs, f, i - 1), Decay(alpha, i));
    }
  }

  lemma MixOfDecayed(alpha: real, goal: real, first: real, left: real, was: real, next: real)
    requires was == goal + left * (first - goal) && next == (1.0 - alpha) * left
    ensures Mix(alpha, goal, was) == goal + next * (first - goal)
  {
    assert next * (first - goal) == (1.0 - alpha) * (left * (first - goal));
  }

  /** A lead of at least f means room at f, once there is any score at all. */
  lemma RoomIsLead(f: real, l: real, s: real)
    requires 0.0 < f < 1.0 && l >= 0.0 && s >= 0.0 && l + s > 0.0
    ensures Lead(l, s) >= f <==> Room(f, l, s) >= 0.0
  {
    LeadAtLeast(l, s, f);
  }

  lemma {:induction false} ScoresStayPositive(m: Setup, start: State, obs: seq<Observation>, long: real, short: real, i: nat)
    requires m.arith == Exact && Steady(start, obs, long, short) && Sane(start) && i <= |obs|
    requires long >= 0.0 && short >= 0.0 && long + short > 0.0
    ensures var l, s := SmoothedLong(m, start.longEma, obs, i), SmoothedShort(m, start.shortEma, obs, i);
            l >= 0.0 && s >= 0.0 && (i > 0 ==> l + s > 0.0)
  {
    hide Alpha, RawStance;
    if i > 0 {
      ScoresStayPositive(m, start, obs, long, short, i - 1);
      assert Repeats(obs[i - 1], long, short);
      MixPositive(Alpha(m.params), long, short, SmoothedLong(m, start.longEma, obs, i - 1), SmoothedShort(m, start.shortEma, obs, i - 1));
    }
  }

  lemma MixPositive(alpha: real, long: real, short: real, l: real, s: real)
    requires 0.0 < alpha <= 1.0 && long >= 0.0 && short >= 0.0 && long + short > 0.0 && l >= 0.0 && s >= 0.0
    ensures Mix(alpha, long, l) >= 0.0 && Mix(alpha, short, s) >= 0.0 && Mix(alpha, long, l) + Mix(alpha, short, s) > 0.0
  {
    MixAtLeast(alpha, long, l);
    MixAtLeast(alpha, short, s);
    hide Mix;
    if long > 0.0 {
      PositiveProduct(alpha, long);
    } else {
      PositiveProduct(alpha, short);
    }
  }

  lemma MixAtLeast(alpha: real, x: real, y: real)
    requires 0.0 < alpha <= 1.0 && x >= 0.0 && y >= 0.0
    ensures Mix(alpha, x, y) >= alpha * x >= 0.0
  {
    NonNegativeProduct(alpha, x);
    NonNegativeProduct(1.0 - alpha, y);
  }

  lemma LeadIsRoom(m: Setup, start: State, obs: seq<Observation>, long: real, short: real, f: real, i: nat)
    requires m.arith == Exact && Steady(start, obs, long, short) && Sane(start) && 0 < i <= |obs|
    requires long >= 0.0 && short >= 0.0 && long + short > 0.0 && 0.0 < f < 1.0
    ensures LeadAfter(m, start, obs, i) >= f <==> RoomAfter(m, start, obs, f, i) >= 0.0
  {
    ScoresStayPositive(m, start, obs, long, short, i);
    hide Lead, Room, SmoothedLong, SmoothedShort;
    RoomIsLead(f, SmoothedLong(m, start.longEma, obs, i), SmoothedShort(m, start.shortEma, obs, i));
  }

  // ----- Crossing a margin at most once -----

  /** With room in the limit, a margin once reached stays reached; without, once lost it stays lost. */
  lemma CrossesOnce(m: Setup, start: State, obs: seq<Observation>, long: real, short: real, f: real, i: nat, j: nat)
    requires m.arith == Exact && Steady(start, obs, long, short) && i <= j <= |obs|
    ensures Room(f, long, short) >= 0.0 && RoomAfter(m, start, obs, f, i) >= 0.0 ==> RoomAfter(m, start, obs, f, j) >= 0.0
    ensures Room(f, long, short) < 0.0 && RoomAfter(m, start, obs, f, i) < 0.0 ==> RoomAfter(m, start, obs, f, j) < 0.0
  {
    hide RoomAfter, Room, Alpha, RawStance;
    RoomDecays(m, start, obs, long, short, f, i);
    RoomDecays(m, start, obs, long, short, f, j);
    DecayFalls(Alpha(m.params), i, j);
    StaysOnItsSide(Room(f, long, short), Room(f, start.longEma, start.shortEma) - Room(f, long, short),
                   Decay(Alpha(m.params), i), Decay(Alpha(m.params), j));
  }

  lemma StaysOnItsSide(goal: real, d: real, more: real, less: real)
    requires 0.0 <= less <= more
    ensures goal >= 0.0 && goal + more * d >= 0.0 ==> goal + less * d >= 0.0
    ensures goal < 0.0 && goal + more * d < 0.0 ==> goal + less * d < 0.0
  {
    if d >= 0.0 {
      NonNegativeProduct(less, d);
      Scaled(less, more, d);
    } else {
      NonNegativeProduct(less, -d);
      Scaled(less, more, -d);
    }
  }

  // ----- The entry margin is reached in time -----

  /** Candles after which the lead has reached the entry margin for good. */
  function Reach(m: Setup, start: State, long: real, short: real): nat
    requires Alpha(m.params) == 1.0 || Room(m.params.enterMargin, long, short) > 0.0
  {
    var goal := Room(m.params.enterMargin, long, short);
    if Alpha(m.params) == 1.0 then 0
    else Delay(Alpha(m.params), Max(0.0, goal - Room(m.params.enterMargin, start.longEma, start.shortEma)), goal)
  }

  lemma EntryIsReached(m: Setup, start: State, obs: seq<Observation>, long: real, short: real, i: nat)
    requires m.arith == Exact && Steady(start, obs, long, short) && 0 < i <= |obs|
    requires var goal := Room(m.params.enterMargin, long, short); goal > 0.0 || (goal == 0.0 && Alpha(m.params) == 1.0)
    requires Reach(m, start, long, short) <= i
    ensures RoomAfter(m, start, obs, m.params.enterMargin, i) >= 0.0
  {
    hide RoomAfter, Room, Alpha, Delay, Steady, Decay;
    var f, alpha := m.params.enterMargin, Alpha(m.params);
    var goal, first := Room(f, long, short), Room(f, start.longEma, start.shortEma);
    RoomDecays(m, start, obs, long, short, f, i);
    if alpha == 1.0 {
      NothingIsLeft(i);
    } else {
      DecayedEnough(alpha, Max(0.0, goal - first), goal, i);
      WithinGoal(goal, first, Decay(alpha, i), RoomAfter(m, start, obs, f, i));
    }
  }

  lemma DecayedEnough(alpha: real, d: real, goal: real, i: nat)
    requires 0.0 < alpha <= 1.0 && d >= 0.0 && goal > 0.0 && Delay(alpha, d, goal) <= i
    ensures 0.0 <= Decay(alpha, i) && Decay(alpha, i) * d <= goal
  {
    hide Decay, Delay;
    DelaySuffices(alpha, d, goal);
    DecayFalls(alpha, Delay(alpha, d, goal), i);
    DecayTimes(Decay(alpha, i), Decay(alpha, Delay(alpha, d, goal)), d);
  }

  lemma NothingIsLeft(i: nat)
    requires i > 0
    ensures Decay(1.0, i) == 0.0
  {
  }

  lemma WithinGoal(goal: real, first: real, left: real, room: real)
    requires room == goal + left * (first - goal) && left >= 0.0 && goal >= 0.0
    requires left * Max(0.0, goal - first) <= goal
    ensures room >= 0.0
  {
    if first >= goal {
      NonNegativeProduct(left, first - goal);
    } else {
      assert left * (first - goal) == -(left * (goal - first));
    }
  }

  // ----- The leading side wins -----

  lemma {:induction false} StaysPut(m: Setup, start: State, obs: seq<Observation>, n: nat, i: nat, held: Stance)
    requires n <= i <= |obs| && AllFresh(At(start.lastBarAt), obs)
    requires After(m, Some(start), obs, n).value.stance == held
    requires forall j :: n <= j < i ==> Keeps(m, start, obs, j, held)
    ensures After(m, Some(start), obs, i).value.stance == held
    decreases i - n
  {
    hide Resolve, Candidate, RawStance;
    if n < i {
      StaysPut(m, start, obs, n, i - 1, held);
      AnchorFollowsState(m, Some(start), obs, i - 1);
      assert FreshAt(At(start.lastBarAt), obs, i - 1);
      assert Keeps(m, start, obs, i - 1, held);
      LeadIsHeld(m, start, obs, i);
      KeptStance(m, After(m, Some(start), obs, i - 1).value, obs[i - 1]);
    }
  }

  /** The candle proposes the stance already held. */
  predicate Keeps(m: Setup, start: State, obs: seq<Observation>, j: nat, held: Stance)
    requires j < |obs|
  {
    RawStance(obs[j]) != Insufficient && Candidate(m.params, held, LeadAfter(m, start, obs, j + 1)) == held
  }

  lemma KeptStance(m: Setup, s: State, o: Observation)
    requires Newer(s.lastBarAt, o.barAt) && RawStance(o) != Insufficient
    requires var t := Resolve(m, Some(s), o); Candidate(m.params, s.stance, Lead(t.longEma, t.shortEma)) == s.stance
    ensures Resolve(m, Some(s), o).stance == s.stance
  {
    hide Blend, Lead, RawStance, Alpha, Candidate;
    FreshEmas(m, s, o);
  }

  lemma Entered(m: Setup, start: State, obs: seq<Observation>, long: real, short: real, i: nat)
    requires m.arith == Exact && Ordered(m.params) && Steady(start, obs, long, short) && Sane(start) && 0 < i <= |obs|
    requires long >= 0.0 && short >= 0.0 && long + short > 0.0
    requires var goal := Room(m.params.enterMargin, long, short); goal > 0.0 || (goal == 0.0 && Alpha(m.params) == 1.0)
    requires Reach(m, start, long, short) <= i
    ensures LeadAfter(m, start, obs, i) >= m.params.enterMargin
  {
    hide Reach, LeadAfter, RoomAfter, Room, Alpha;
    EntryIsReached(m, start, obs, long, short, i);
    LeadIsRoom(m, start, obs, long, short, m.params.enterMargin, i);
  }

  /** On one side of the flip margin for 2k candles, the long side is held by then, and from then on. */
  lemma OneSideSuffices(m: Setup, start: State, obs: seq<Observation>, long: real, short: real, n: nat, mid: nat, i: nat, direct: bool)
    requires m.arith == Exact && Ordered(m.params) && Steady(start, obs, long, short) && Sane(start)
    requires long >= 0.0 && short >= 0.0 && long + short > 0.0
    requires var goal := Room(m.params.enterMargin, long, short); goal > 0.0 || (goal == 0.0 && Alpha(m.params) == 1.0)
    requires Reach(m, start, long, short) <= n && n + 2 * Required(m.params) <= mid <= i <= |obs|
    requires Required(m.params) == 1 ==> !direct
    requires Required(m.params) > 1 ==>
               forall j :: n < j <= mid ==> (LeadAfter(m, start, obs, j) >= m.params.flipMargin <==> direct)
    ensures After(m, Some(start), obs, i).value.stance == LongLeaning
  {
    hide RawStance, Resolve, LeadAfter, Room, Reach, Alpha;
    forall j | n <= j < i ensures RawStance(obs[j]) != Insufficient && LeadAfter(m, start, obs, j + 1) >= m.params.enterMargin {
      assert Repeats(obs[j], long, short);
      Entered(m, start, obs, long, short, j + 1);
    }
    forall j | n <= j < mid ensures Urges(m, obs[j], LeadAfter(m, start, obs, j + 1), direct) {
      assert Required(m.params) > 1 ==> (LeadAfter(m, start, obs, j + 1) >= m.params.flipMargin <==> direct);
    }
    UrgedRun(m, start, obs, n, mid, direct);
    DistanceBound(m, After(m, Some(start), obs, n).value, direct);
    NoDistanceIsLong(m, After(m, Some(start), obs, mid).value, direct);
    forall j | mid <= j < i ensures Keeps(m, start, obs, j, LongLeaning) {
    }
    StaysPut(m, start, obs, mid, i, LongLeaning);
  }

  /** An explicit number of candles after which the long side is held for good. */
  function Patience(m: Setup, start: State, long: real, short: real): nat
    requires Alpha(m.params) == 1.0 || Room(m.params.enterMargin, long, short) > 0.0
  {
    Reach(m, start, long, short) + 4 * Required(m.params)
  }

  lemma SteadyLeadGetsThrough(m: Setup, start: State, obs: seq<Observation>, long: real, short: real, i: nat)
    requires m.arith == Exact && Ordered(m.params) && Steady(start, obs, long, short) && Sane(start)
    requires long >= 0.0 && short >= 0.0 && long + short > 0.0
    requires var goal := Room(m.params.enterMargin, long, short); goal > 0.0 || (goal == 0.0 && Alpha(m.params) == 1.0)
    requires Patience(m, start, long, short) <= i <= |obs|
    ensures After(m, Some(start), obs, i).value.stance == LongLeaning
  {
    hide LeadAfter, RoomAfter, Room, Reach, Alpha, Steady, After, Sane;
    var k, f, n := Required(m.params), m.params.flipMargin, Reach(m, start, long, short);
    var mid := n + 2 * k;
    var above := LeadAfter(m, start, obs, mid) >= f;
    forall j | n < j <= i
      ensures LeadAfter(m, start, obs, j) >= f <==> RoomAfter(m, start, obs, f, j) >= 0.0
      ensures Room(f, long, short) >= 0.0 && j <= mid && LeadAfter(m, start, obs, j) >= f ==> above
      ensures Room(f, long, short) >= 0.0 && j >= mid && above ==> LeadAfter(m, start, obs, j) >= f
      ensures Room(f, long, short) < 0.0 && j <= mid && LeadAfter(m, start, obs, j) < f ==> !above
      ensures Room(f, long, short) < 0.0 && j >= mid && !above ==> LeadAfter(m, start, obs, j) < f
    {
      LeadIsRoom(m, start, obs, long, short, f, j);
      LeadIsRoom(m, start, obs, long, short, f, mid);
      CrossesOnce(m, start, obs, long, short, f, MinInt(j, mid), MaxInt(j, mid));
    }
    if k == 1 {
      OneSideSuffices(m, start, obs, long, short, n, mid, i, false);
    } else if above == (Room(f, long, short) >= 0.0) {
      OneSideSuffices(m, start, obs, long, short, mid, i, i, above);
    } else {
      OneSideSuffices(m, start, obs, long, short, n, mid, i, above);
    }
  }

  function MinInt(x: int, y: int): int {
    if x <= y then x else y
  }

  // ----- Nothing less does -----

  function SteadyScript(long: real, short: real): Script {
    (i: nat, s: Option<State>) => Observation(2, 2, long, short, HtfContext(Neutral, 0.0, false), Some(i), i)
  }

  lemma SteadyExists(m: Setup, start: State, long: real, short: real, n: nat)
    requires long >= 0.0 && short >= 0.0 && long + short > 0.0 && start.lastBarAt == None
    ensures Steady(start, Played(m, Some(start), SteadyScript(long, short), n), long, short)
  {
    var script := SteadyScript(long, short);
    assert Numbered(script);
    NumberedIsAllFresh(m, Some(start), script, n);
  }

  function Settled(stance: Stance, longEma: real, shortEma: real): State {
    State(stance, None, false, None, None, 0, 0, None, None, 1, 0.0, false, longEma, shortEma,
          Preview(stance, 0.0, 0.0, 0))
  }

  /** The state that a lead short of the entry margin leaves alone: at the same scores it already is
      where they lead to, and at the margin itself it comes from below. */
  function Stubborn(m: Setup, long: real, short: real): State {
    if Lead(long, short) == m.params.enterMargin then Settled(Conflicted, long, long)
    else Settled(Candidate(m.params, Conflicted, Lead(long, short)), long, short)
  }

  lemma {:induction false} ShortBetween(m: Setup, start: State, obs: seq<Observation>, long: real, short: real, i: nat)
    requires m.arith == Exact && Steady(start, obs, long, short) && i <= |obs|
    requires start.longEma == long && short <= start.shortEma
    ensures SmoothedLong(m, start.longEma, obs, i) == long
    ensures short <= SmoothedShort(m, start.shortEma, obs, i) <= start.shortEma
  {
    hide Alpha, RawStance;
    if i > 0 {
      ShortBetween(m, start, obs, long, short, i - 1);
      assert Repeats(obs[i - 1], long, short);
      var alpha, s := Alpha(m.params), SmoothedShort(m, start.shortEma, obs, i - 1);
      assert Mix(alpha, long, long) == long;
      NonNegativeProduct(alpha, s - short);
      NonNegativeProduct(1.0 - alpha, s - short);
    }
  }

  lemma {:induction false} DecayIsPositive(alpha: real, n: nat)
    requires 0.0 < alpha < 1.0
    ensures Decay(alpha, n) > 0.0
  {
    if n > 0 {
      DecayIsPositive(alpha, n - 1);
      PositiveProduct(1.0 - alpha, Decay(alpha, n - 1));
    }
  }

  lemma NeverEntered(m: Setup, start: State, obs: seq<Observation>, long: real, short: real, i: nat)
    requires m.arith == Exact && Ordered(m.params) && Steady(start, obs, long, short) && 0 < i <= |obs|
    requires long >= 0.0 && short >= 0.0 && long + short > 0.0
    requires Lead(long, short) == m.params.enterMargin && Alpha(m.params) < 1.0
    requires Sane(start) && start.longEma == start.shortEma == long
    ensures 0.0 <= LeadAfter(m, start, obs, i) < m.params.enterMargin
  {
    hide RoomAfter, Alpha, Decay, Steady, LeadAfter, Room, Lead;
    var f := m.params.enterMargin;
    ExactLead(long, short, f);
    RoomDecays(m, start, obs, long, short, f, i);
    DecayIsPositive(Alpha(m.params), i);
    LeadIsRoom(m, start, obs, long, short, f, i);
    BelowGoal(f, long, Decay(Alpha(m.params), i), Room(f, long, short), RoomAfter(m, start, obs, f, i));
    NeverBehind(m, start, obs, long, short, i);
  }

  lemma BelowGoal(f: real, long: real, left: real, goal: real, room: real)
    requires f > 0.0 && long > 0.0 && left > 0.0 && goal == 0.0 && room == goal + left * (Room(f, long, long) - goal)
    ensures room < 0.0
  {
    PositiveProduct(f, long);
    PositiveProduct(left, f * long);
    assert Room(f, long, long) == -(f * long);
    assert left * -(f * long) == -(left * (f * long));
  }

  lemma NeverBehind(m: Setup, start: State, obs: seq<Observation>, long: real, short: real, i: nat)
    requires m.arith == Exact && Steady(start, obs, long, short) && i <= |obs|
    requires long > 0.0 && start.longEma == start.shortEma == long && short <= long
    ensures LeadAfter(m, start, obs, i) >= 0.0
  {
    ShortBetween(m, start, obs, long, short, i);
    Ratio(long - SmoothedShort(m, start.shortEma, obs, i), long, 0.0);
  }

  lemma ExactLead(long: real, short: real, f: real)
    requires 0.0 < f < 1.0 && long >= 0.0 && short >= 0.0 && Lead(long, short) == f
    ensures long > 0.0 && short <= long && Room(f, long, short) == 0.0
  {
    assert long > short;
    assert (long - short) / long * long == long - short;
  }

  lemma StubbornStays(m: Setup, obs: seq<Observation>, long: real, short: real)
    requires m.arith == Exact && Ordered(m.params) && long >= 0.0 && short >= 0.0 && long + short > 0.0
    requires Lead(long, short) < m.params.enterMargin || (Lead(long, short) == m.params.enterMargin && Alpha(m.params) < 1.0)
    requires Steady(Stubborn(m, long, short), obs, long, short)
    ensures Sane(Stubborn(m, long, short)) && Stubborn(m, long, short).stance != LongLeaning
    ensures After(m, Some(Stubborn(m, long, short)), obs, |obs|).value.stance == Stubborn(m, long, short).stance
  {
    hide RawStance, Alpha, Lead;
    var start := Stubborn(m, long, short);
    forall j | 0 <= j < |obs| ensures Keeps(m, start, obs, j, start.stance) {
      assert Repeats(obs[j], long, short);
      if Lead(long, short) == m.params.enterMargin {
        NeverEntered(m, start, obs, long, short, j + 1);
      } else {
        ShortBetween(m, start, obs, long, short, j + 1);
        assert LeadAfter(m, start, obs, j + 1) == Lead(long, short);
      }
    }
    StaysPut(m, start, obs, 0, |obs|, start.stance);
  }

  /** From some number of candles on, the long side is held whatever else the candles bring. */
  ghost predicate AdoptedFrom(m: Setup, start: State, long: real, short: real, n: nat) {
    forall obs: seq<Observation> :: Steady(start, obs, long, short) && |obs| >= n ==>
      After(m, Some(start), obs, |obs|).value.stance == LongLeaning
  }

  ghost predicate Prevails(m: Setup, long: real, short: real) {
    forall start: State :: Sane(start) ==> exists n: nat :: AdoptedFrom(m, start, long, short, n)
  }

  /** Constant scores: every start ends on the long side, for good, exactly when the lead exceeds the
      entry margin; with smoothing switched off, reaching it is enough. */
  lemma SteadyLeadGetsThroughExactly(m: Setup, long: real, short: real)
    requires m.arith == Exact && Ordered(m.params) && long >= 0.0 && short >= 0.0 && long + short > 0.0
    ensures Prevails(m, long, short) <==>
              || Lead(long, short) > m.params.enterMargin
              || (Lead(long, short) == m.params.enterMargin && Alpha(m.params) == 1.0)
  {
    hide RawStance, Alpha, After, Steady;
    LeadIsRoomAtGoal(m.params.enterMargin, long, short);
    hide Lead, Room;
    var goal := Room(m.params.enterMargin, long, short);
    if goal > 0.0 || (goal == 0.0 && Alpha(m.params) == 1.0) {
      forall start | Sane(start) ensures exists n: nat :: AdoptedFrom(m, start, long, short, n) {
        var n := Patience(m, start, long, short);
        forall obs: seq<Observation> | Steady(start, obs, long, short) && |obs| >= n
          ensures After(m, Some(start), obs, |obs|).value.stance == LongLeaning
        {
          SteadyLeadGetsThrough(m, start, obs, long, short, |obs|);
        }
        assert AdoptedFrom(m, start, long, short, n);
      }
    } else {
      StubbornIsNeverAdopted(m, long, short);
    }
  }

  lemma StubbornIsNeverAdopted(m: Setup, long: real, short: real)
    requires m.arith == Exact && Ordered(m.params) && long >= 0.0 && short >= 0.0 && long + short > 0.0
    requires Lead(long, short) < m.params.enterMargin || (Lead(long, short) == m.params.enterMargin && Alpha(m.params) < 1.0)
    ensures Sane(Stubborn(m, long, short))
    ensures forall n: nat :: !AdoptedFrom(m, Stubborn(m, long, short), long, short, n)
  {
    hide RawStance, Alpha, After, Steady, Lead;
    var start := Stubborn(m, long, short);
    forall n: nat ensures Sane(start) && !AdoptedFrom(m, start, long, short, n) {
      var obs := Played(m, Some(start), SteadyScript(long, short), n);
      SteadyExists(m, start, long, short, n);
      StubbornStays(m, obs, long, short);
    }
    assert !AdoptedFrom(m, start, long, short, 0);
  }

  lemma LeadIsRoomAtGoal(f: real, long: real, short: real)
    requires 0.0 < f < 1.0 && long >= 0.0 && short >= 0.0 && long + short > 0.0
    ensures Lead(long, short) > f <==> Room(f, long, short) > 0.0
    ensures Lead(long, short) == f <==> Room(f, long, short) == 0.0
  {
    RoomIsLead(f, long, short);
    if Lead(long, short) == f {
      ExactLead(long, short, f);
    }
    if Room(f, long, short) == 0.0 {
      assert long > 0.0;
      Ratio(long - short, long, f);
      Divided(long - short, long, f);
      Scaled(1.0 - f, 1.0, long);
    }
  }
}
