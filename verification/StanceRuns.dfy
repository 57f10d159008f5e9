/**
 Whole runs of the hysteresis machine: polling frequency, reachable states, the number of
 stance changes, the count of candles held, and long/short symmetry.
*/
module StanceRuns {
  import opened Common
  import opened RealArithmetic
  import opened Rounding
  import opened Hysteresis

  /** The state held after the first i calls. */
  function After(m: Setup, prior: Option<State>, obs: seq<Observation>, i: nat): (r: Option<State>)
    requires i <= |obs|
    ensures i > 0 ==> r.Some?
  {
    if i == 0 then prior else Some(Resolve(m, After(m, prior, obs, i - 1), obs[i - 1]))
  }

  // ----- Candle anchors, independent of the machine -----

  datatype Anchor = Unstarted | At(bar: Option<int>)

  function AnchorOf(prior: Option<State>): Anchor {
    if prior.None? then Unstarted else At(prior.value.lastBarAt)
  }

  predicate Fresh(a: Anchor, o: Observation) {
    a.Unstarted? || Newer(a.bar, o.barAt)
  }

  function Tick(a: Anchor, o: Observation): Anchor {
    if Fresh(a, o) then At(o.barAt) else a
  }

  function AnchorAfter(a: Anchor, obs: seq<Observation>, i: nat): Anchor
    requires i <= |obs|
  {
    if i == 0 then a else Tick(AnchorAfter(a, obs, i - 1), obs[i - 1])
  }

  /** The calls among the first i that bring a newly confirmed candle. */
  function Kept(a: Anchor, obs: seq<Observation>, i: nat): (k: seq<Observation>)
    requires i <= |obs|
    ensures |k| <= i
  {
    if i == 0 then []
    else if FreshAt(a, obs, i - 1) then Kept(a, obs, i - 1) + [obs[i - 1]]
    else Kept(a, obs, i - 1)
  }

  /** Call i brings a newly confirmed candle. */
  predicate FreshAt(a: Anchor, obs: seq<Observation>, i: nat)
    requires i < |obs|
  {
    Fresh(AnchorAfter(a, obs, i), obs[i])
  }

  predicate AllFresh(a: Anchor, obs: seq<Observation>) {
    forall i :: 0 <= i < |obs| ==> FreshAt(a, obs, i)
  }

  lemma {:induction false} AnchorFollowsState(m: Setup, prior: Option<State>, obs: seq<Observation>, i: nat)
    requires i <= |obs|
    ensures AnchorOf(After(m, prior, obs, i)) == AnchorAfter(AnchorOf(prior), obs, i)
  {
    if i > 0 {
      AnchorFollowsState(m, prior, obs, i - 1);
    }
  }

  predicate Covers(bar: Option<int>, limit: int) {
    bar.Some? ==> bar.value < limit
  }

  /** The anchor of a started run is the newest bar seen so far. */
  lemma {:induction false} AnchorIsNewest(a: Anchor, obs: seq<Observation>, i: nat, limit: int)
    requires i <= |obs|
    ensures AnchorAfter(a, obs, i).At? <==> a.At? || i > 0
    ensures AnchorAfter(a, obs, i).At? ==>
              (Covers(AnchorAfter(a, obs, i).bar, limit) <==>
               (a.At? ==> Covers(a.bar, limit)) && forall j :: 0 <= j < i ==> Covers(obs[j].barAt, limit))
  {
    if i > 0 {
      AnchorIsNewest(a, obs, i - 1, limit);
    }
  }

  /** A call moves the state exactly when its confirmed candle is newer than all before it. */
  lemma FreshMeansNewerThanAllBefore(a: Anchor, obs: seq<Observation>, i: nat)
    requires i < |obs|
    requires a.At? || i > 0
    ensures FreshAt(a, obs, i) <==>
              obs[i].barAt.Some?
              && (a.At? ==> Covers(a.bar, obs[i].barAt.value))
              && forall j :: 0 <= j < i ==> Covers(obs[j].barAt, obs[i].barAt.value)
  {
    AnchorIsNewest(a, obs, i, if obs[i].barAt.Some? then obs[i].barAt.value else 0);
  }

  // ----- Stuttering refinement -----

  /** The persistent part of a state: everything but the preview and the one-call flip signal. */
  function Core(s: State): State {
    s.(flipped := false, preview := Preview(Insufficient, 0.0, 0.0, 0))
  }

  function CoreOf(s: Option<State>): Option<State> {
    if s.None? then None else Some(Core(s.value))
  }

  lemma CoreDecidesNext(m: Setup, a: Option<State>, b: Option<State>, o: Observation)
    requires CoreOf(a) == CoreOf(b)
    ensures Core(Resolve(m, a, o)) == Core(Resolve(m, b, o))
  {
    if a.Some? {
      assert Core(a.value) == Core(b.value);
      assert b.value.(flipped := a.value.flipped, preview := a.value.preview) == a.value;
    }
  }

  lemma {:induction false} AfterExtends(m: Setup, prior: Option<State>, obs: seq<Observation>, o: Observation, i: nat)
    requires i <= |obs|
    ensures After(m, prior, obs + [o], i) == After(m, prior, obs, i)
  {
    if i > 0 {
      AfterExtends(m, prior, obs, o, i - 1);
    }
  }

  lemma AfterAppends(m: Setup, prior: Option<State>, obs: seq<Observation>, o: Observation)
    ensures After(m, prior, obs + [o], |obs| + 1) == Some(Resolve(m, After(m, prior, obs, |obs|), o))
  {
    AfterExtends(m, prior, obs, o, |obs|);
  }

  lemma FreezeKeepsCore(m: Setup, s: State, o: Observation)
    requires !Newer(s.lastBarAt, o.barAt)
    ensures Core(Resolve(m, Some(s), o)) == Core(s)
  {
  }

  /** Running every poll leaves the same persistent state as running only the new candles. */
  lemma {:induction false} Stuttering(m: Setup, prior: Option<State>, obs: seq<Observation>, i: nat)
    requires i <= |obs|
    ensures var kept := Kept(AnchorOf(prior), obs, i);
            CoreOf(After(m, prior, obs, i)) == CoreOf(After(m, prior, kept, |kept|))
  {
    hide Resolve;
    if i > 0 {
      Stuttering(m, prior, obs, i - 1);
      AnchorFollowsState(m, prior, obs, i - 1);
      var before := Kept(AnchorOf(prior), obs, i - 1);
      var was, o := After(m, prior, obs, i - 1), obs[i - 1];
      if Fresh(AnchorOf(was), o) {
        AfterAppends(m, prior, before, o);
        CoreDecidesNext(m, was, After(m, prior, before, |before|), o);
      } else {
        FreezeKeepsCore(m, was.value, o);
      }
    }
  }

  /** Two pollers of any frequency that meet the same new candles hold the same persistent state. */
  lemma PollingFrequencyIsIrrelevant(m: Setup, prior: Option<State>, xs: seq<Observation>, ys: seq<Observation>)
    requires Kept(AnchorOf(prior), xs, |xs|) == Kept(AnchorOf(prior), ys, |ys|)
    ensures CoreOf(After(m, prior, xs, |xs|)) == CoreOf(After(m, prior, ys, |ys|))
  {
    Stuttering(m, prior, xs, |xs|);
    Stuttering(m, prior, ys, |ys|);
  }

  lemma {:induction false} AnchorExtends(a: Anchor, obs: seq<Observation>, o: Observation, i: nat)
    requires i <= |obs|
    ensures AnchorAfter(a, obs + [o], i) == AnchorAfter(a, obs, i)
  {
    if i > 0 {
      AnchorExtends(a, obs, o, i - 1);
    }
  }

  lemma AllFreshExtends(a: Anchor, obs: seq<Observation>, o: Observation)
    requires AllFresh(a, obs) && Fresh(AnchorAfter(a, obs, |obs|), o)
    ensures AllFresh(a, obs + [o])
  {
    var all := obs + [o];
    forall i | 0 <= i < |all| ensures FreshAt(a, all, i) {
      assert i < |obs| ==> FreshAt(a, obs, i);
      AnchorExtends(a, obs, o, i);
    }
  }

  lemma {:induction false} KeptIsAllFresh(a: Anchor, obs: seq<Observation>, i: nat)
    requires i <= |obs|
    ensures AllFresh(a, Kept(a, obs, i))
    ensures AnchorAfter(a, Kept(a, obs, i), |Kept(a, obs, i)|) == AnchorAfter(a, obs, i)
  {
    if i > 0 {
      KeptIsAllFresh(a, obs, i - 1);
      var before := Kept(a, obs, i - 1);
      if FreshAt(a, obs, i - 1) {
        AllFreshExtends(a, before, obs[i - 1]);
        AnchorExtends(a, before, obs[i - 1], |before|);
      }
    }
  }

  predicate IsNewerThan(o: Observation, earlier: Observation) {
    o.barAt.Some? && Covers(earlier.barAt, o.barAt.value)
  }

  predicate StrictlyNewer(obs: seq<Observation>) {
    forall i, j :: 0 <= i < j < |obs| ==> IsNewerThan(obs[j], obs[i])
  }

  /** The candles of a run without repeats are strictly increasing. */
  lemma FreshBarsIncrease(a: Anchor, obs: seq<Observation>)
    requires AllFresh(a, obs)
    ensures StrictlyNewer(obs)
  {
    forall i, j | 0 <= i < j < |obs| ensures IsNewerThan(obs[j], obs[i]) {
      assert FreshAt(a, obs, j);
      FreshMeansNewerThanAllBefore(a, obs, j);
    }
  }

  // ----- The number of stance changes -----

  function Flips(m: Setup, prior: Option<State>, obs: seq<Observation>, i: nat): nat
    requires i <= |obs|
  {
    if i == 0 then 0
    else Flips(m, prior, obs, i - 1) + if After(m, prior, obs, i).value.flipped then 1 else 0
  }

  /** Stance changes of a held state; the bootstrap itself is not a change. */
  function Changes(m: Setup, prior: Option<State>, obs: seq<Observation>, i: nat): nat
    requires i <= |obs|
  {
    if i == 0 then 0
    else
      var was := After(m, prior, obs, i - 1);
      Changes(m, prior, obs, i - 1)
      + if was.Some? && was.value.stance != After(m, prior, obs, i).value.stance then 1 else 0
  }

  /** New candles among the first i calls, the bootstrapping one not counted. */
  function Steps(prior: Option<State>, obs: seq<Observation>, i: nat): nat
    requires i <= |obs|
  {
    var n := |Kept(AnchorOf(prior), obs, i)|;
    if prior.None? && n > 0 then n - 1 else n
  }

  function PendingCount(s: Option<State>): int {
    if s.None? then 0 else s.value.pendingCount
  }

  /** A held state whose confirmation counter is a natural number, as every produced state has. */
  predicate Countable(s: Option<State>) {
    s.Some? ==> s.value.pendingCount >= 0
  }

  lemma {:induction false} KeptIsEmptyOnlyAtStart(obs: seq<Observation>, i: nat)
    requires 0 < i <= |obs|
    ensures |Kept(Unstarted, obs, i)| > 0
  {
    if i > 1 {
      KeptIsEmptyOnlyAtStart(obs, i - 1);
    }
  }

  /** A new candle pays one unit: it raises the counter by at most one, an adoption spends k, a loss
      of evidence one, and every adoption is a change. */
  lemma CounterStep(m: Setup, prior: Option<State>, o: Observation)
    requires Countable(prior)
    ensures var s := Resolve(m, prior, o);
            var earned := if prior.Some? && Fresh(AnchorOf(prior), o) then 1 else 0;
            var paid := (if s.flipped then Required(m.params) - 1 else 0)
                        + if prior.Some? && prior.value.stance != s.stance then 1 else 0;
            && s.pendingCount >= 0 && paid + s.pendingCount <= earned + PendingCount(prior)
            && (s.flipped ==> prior.Some? && prior.value.stance != s.stance)
  {
  }

  lemma StepsGrow(m: Setup, prior: Option<State>, obs: seq<Observation>, i: nat)
    requires 0 < i <= |obs|
    ensures var was := After(m, prior, obs, i - 1);
            Steps(prior, obs, i) == Steps(prior, obs, i - 1)
                                    + if was.Some? && Fresh(AnchorOf(was), obs[i - 1]) then 1 else 0
  {
    hide Resolve;
    AnchorFollowsState(m, prior, obs, i - 1);
    if prior.None? && i > 1 {
      KeptIsEmptyOnlyAtStart(obs, i - 1);
    }
  }

  lemma {:induction false} ChangeBudget(m: Setup, prior: Option<State>, obs: seq<Observation>, i: nat)
    requires i <= |obs| && Countable(prior)
    ensures Countable(After(m, prior, obs, i))
    ensures (Required(m.params) - 1) * Flips(m, prior, obs, i) + Changes(m, prior, obs, i)
              + PendingCount(After(m, prior, obs, i)) <= Steps(prior, obs, i) + PendingCount(prior)
    ensures Flips(m, prior, obs, i) <= Changes(m, prior, obs, i)
  {
    hide Resolve, Required, Fresh;
    if i > 0 {
      ChangeBudget(m, prior, obs, i - 1);
      StepsGrow(m, prior, obs, i);
      hide Steps, AnchorOf;
      CounterStep(m, After(m, prior, obs, i - 1), obs[i - 1]);
      OneMore(Required(m.params) - 1, Flips(m, prior, obs, i - 1));
    }
  }

  lemma OneMore(k: int, f: int)
    ensures k * (f + 1) == k * f + k
  {
  }

  predicate HoldsEvidence(s: Option<State>) {
    s.None? || s.value.stance != Insufficient
  }

  lemma {:induction false} ChangesByFlips(m: Setup, prior: Option<State>, obs: seq<Observation>, i: nat)
    requires i <= |obs|
    ensures Changes(m, prior, obs, i) + (if HoldsEvidence(After(m, prior, obs, i)) then 1 else 0)
              <= 2 * Flips(m, prior, obs, i) + 1
  {
    if i > 0 {
      ChangesByFlips(m, prior, obs, i - 1);
    }
  }

  lemma Scale(k: int, x: int, y: int)
    requires k >= 0 && x <= y
    ensures k * x <= k * y
  {
  }

  lemma AtMostQuotient(k: int, f: int, n: int)
    requires k >= 1 && k * f <= n
    ensures f <= n / k
  {
    assert k * (n / k + 1) == k * (n / k) + k > n;
    if f > n / k {
      Scale(k, n / k + 1, f);
      assert false;
    }
  }

  /** The most changes a budget of n candles buys: a loss of evidence costs one, winning it back k. */
  function MostChanges(n: int, k: int): int
    requires n >= 0 && k >= 1
  {
    2 * (n / (k + 1)) + if n % (k + 1) > 0 then 1 else 0
  }

  lemma BudgetBuys(n: int, k: int, flips: int, changes: int)
    requires n >= 0 && k >= 1 && flips >= 0
    requires (k - 1) * flips + changes <= n && changes <= 2 * flips + 1
    ensures changes <= MostChanges(n, k)
  {
    var q, r := n / (k + 1), n % (k + 1);
    assert n == (k + 1) * q + r == (k - 1) * q + 2 * q + r;
    if flips >= q + 1 {
      Scale(k - 1, q + 1, flips);
      assert (k - 1) * (q + 1) == (k - 1) * q + k - 1;
    } else if flips == q {
      assert changes <= 2 * q + r;
    }
  }

  /** With persistence k, any polling of n new candles adopts at most (n + c)/k stances, where c is
      what the held state has already counted towards a pending one, and changes the stance at most
      as often as that budget buys, however many polls there were. */
  lemma ChangeBound(m: Setup, prior: Option<State>, obs: seq<Observation>)
    requires Countable(prior)
    ensures var n, k := Steps(prior, obs, |obs|) + PendingCount(prior), Required(m.params);
            && Flips(m, prior, obs, |obs|) <= n / k
            && Changes(m, prior, obs, |obs|) <= MostChanges(n, k)
  {
    hide Flips, Changes, Steps, After, Required, MostChanges;
    var n, k := Steps(prior, obs, |obs|) + PendingCount(prior), Required(m.params);
    var flips, changes := Flips(m, prior, obs, |obs|), Changes(m, prior, obs, |obs|);
    ChangeBudget(m, prior, obs, |obs|);
    ChangesByFlips(m, prior, obs, |obs|);
    AtMostQuotient(k, flips, n) by {
      assert k * flips == (k - 1) * flips + flips;
    }
    BudgetBuys(n, k, flips, changes);
  }

  // ----- Every adoption is earned -----

  /** Call j met a held state with this stance and proposed that one. */
  predicate Proposed(m: Setup, prior: Option<State>, obs: seq<Observation>, j: nat, held: Stance, proposed: Stance)
    requires j < |obs|
  {
    var s := After(m, prior, obs, j);
    s.Some? && s.value.stance == held && Proposal(m, s.value, obs[j]) == proposed
  }

  lemma PendingStep(m: Setup, s: State, o: Observation)
    requires Newer(s.lastBarAt, o.barAt)
    requires s.pendingCount >= 0 && (s.pending.None? <==> s.pendingCount == 0)
    ensures var t := Resolve(m, Some(s), o);
            var count := if s.pending == Some(Proposal(m, s, o)) then s.pendingCount + 1 else 1;
            && (t.pending.None? <==> t.pendingCount == 0)
            && t.pendingCount >= 0
            && (t.pending.Some? ==> t.pending == Some(Proposal(m, s, o)) && t.stance == s.stance && t.pendingCount == count)
            && (t.flipped ==> t.stance == Proposal(m, s, o) && t.stance != s.stance && t.stance != Insufficient
                              && count >= Required(m.params))
  {
  }

  /** The last w calls before i each proposed c to the same held stance. */
  ghost predicate Window(m: Setup, prior: Option<State>, obs: seq<Observation>, i: nat, w: int, held: Stance, c: Stance)
    requires i <= |obs|
  {
    w <= i && forall j :: i - w <= j < i ==> 0 <= j && Proposed(m, prior, obs, j, held, c)
  }

  /** The counter and the pending stance of a held state agree, as in every produced state. */
  predicate Tallied(s: Option<State>) {
    Countable(s) && (s.Some? ==> (s.value.pending.None? <==> s.value.pendingCount == 0))
  }

  /** Every call so far continued the confirmation that the first state had under way. */
  ghost predicate Continues(m: Setup, prior: Option<State>, obs: seq<Observation>, i: nat, held: Stance, c: Stance)
    requires i <= |obs|
  {
    && prior.Some? && prior.value.stance == held && prior.value.pending == Some(c)
    && Window(m, prior, obs, i, i, held, c)
  }

  /** The counter of a pending stance counts the calls just before, all proposing it to the same
      held stance, and what the first state had counted if none of them broke off. */
  ghost predicate Earned(m: Setup, prior: Option<State>, obs: seq<Observation>, i: nat, s: State)
    requires i <= |obs|
  {
    && Tallied(Some(s))
    && (s.pending.Some? ==>
          || Window(m, prior, obs, i, s.pendingCount, s.stance, s.pending.value)
          || (Continues(m, prior, obs, i, s.stance, s.pending.value) && s.pendingCount == i + PendingCount(prior)))
  }

  lemma ProposedHere(m: Setup, prior: Option<State>, obs: seq<Observation>, j: nat)
    requires j < |obs| && After(m, prior, obs, j).Some?
    ensures var s := After(m, prior, obs, j).value; Proposed(m, prior, obs, j, s.stance, Proposal(m, s, obs[j]))
  {
    hide Resolve, Proposal;
  }

  lemma {:induction false} PendingIsEarned(m: Setup, prior: Option<State>, obs: seq<Observation>, i: nat)
    requires i <= |obs| && AllFresh(AnchorOf(prior), obs) && Tallied(prior)
    ensures After(m, prior, obs, i).Some? ==> Earned(m, prior, obs, i, After(m, prior, obs, i).value)
  {
    hide Resolve, Proposal, Proposed;
    if i > 0 {
      PendingIsEarned(m, prior, obs, i - 1);
      AnchorFollowsState(m, prior, obs, i - 1);
      assert FreshAt(AnchorOf(prior), obs, i - 1);
      var was, s := After(m, prior, obs, i - 1), After(m, prior, obs, i).value;
      if was.Some? {
        PendingStep(m, was.value, obs[i - 1]);
        ProposedHere(m, prior, obs, i - 1);
      } else {
        BootstrapIsQuiet(m, obs[i - 1]);
      }
    }
  }

  /** Conversely, consecutive proposals to a stance still held are all counted. */
  lemma {:induction false} WindowIsCounted(m: Setup, prior: Option<State>, obs: seq<Observation>, i: nat, w: nat,
                                           held: Stance, c: Stance)
    requires i < |obs| && AllFresh(AnchorOf(prior), obs) && Tallied(prior)
    requires c != held && c != Insufficient && Window(m, prior, obs, i, w, held, c)
    requires Proposed(m, prior, obs, i, held, c)
    ensures var s := After(m, prior, obs, i).value;
            && s.pendingCount >= w && (w > 0 ==> s.pending == Some(c))
            && (w == i && Continues(m, prior, obs, i, held, c) ==>
                  s.pending == Some(c) && s.pendingCount >= i + PendingCount(prior))
    decreases w
  {
    hide Resolve, Proposal;
    PendingIsEarned(m, prior, obs, i);
    if w > 0 {
      assert Proposed(m, prior, obs, i - 1, held, c);
      WindowIsCounted(m, prior, obs, i - 1, w - 1, held, c);
      PendingIsEarned(m, prior, obs, i - 1);
      AnchorFollowsState(m, prior, obs, i - 1);
      assert FreshAt(AnchorOf(prior), obs, i - 1);
      RefusedIsPending(m, After(m, prior, obs, i - 1).value, obs[i - 1]);
    }
  }

  lemma RefusedIsPending(m: Setup, s: State, o: Observation)
    requires Newer(s.lastBarAt, o.barAt) && s.pendingCount >= 0
    requires Proposal(m, s, o) != s.stance && Proposal(m, s, o) != Insufficient
    ensures var t := Resolve(m, Some(s), o);
            var count := if s.pending == Some(Proposal(m, s, o)) then s.pendingCount + 1 else 1;
            && t.flipped == (count >= Required(m.params))
            && (!t.flipped ==> t.pending == Some(Proposal(m, s, o)) && t.pendingCount == count)
            && (t.flipped ==> t.stance == Proposal(m, s, o))
  {
  }

  /** The last k calls up to i, those the first state had already counted included, all proposed c to the stance held. */
  ghost predicate Confirmed(m: Setup, prior: Option<State>, obs: seq<Observation>, i: nat, held: Stance, c: Stance)
    requires i <= |obs|
  {
    || Window(m, prior, obs, i, Required(m.params), held, c)
    || (Continues(m, prior, obs, i, held, c) && i + PendingCount(prior) >= Required(m.params))
  }

  lemma AdoptedWasConfirmed(m: Setup, prior: Option<State>, obs: seq<Observation>, i: nat, held: Stance, c: Stance)
    requires i < |obs| && AllFresh(AnchorOf(prior), obs) && Tallied(prior)
    requires After(m, prior, obs, i).Some? && After(m, prior, obs, i).value.stance == held
    requires After(m, prior, obs, i + 1).value.flipped && After(m, prior, obs, i + 1).value.stance == c
    ensures c != held && c != Insufficient && Confirmed(m, prior, obs, i + 1, held, c)
  {
    hide Resolve, Proposal, Required;
    PendingIsEarned(m, prior, obs, i);
    AnchorFollowsState(m, prior, obs, i);
    assert FreshAt(AnchorOf(prior), obs, i);
    PendingStep(m, After(m, prior, obs, i).value, obs[i]);
    assert Proposed(m, prior, obs, i, held, c);
  }

  lemma ConfirmedIsAdopted(m: Setup, prior: Option<State>, obs: seq<Observation>, i: nat, held: Stance, c: Stance)
    requires i < |obs| && AllFresh(AnchorOf(prior), obs) && Tallied(prior)
    requires After(m, prior, obs, i).Some? && After(m, prior, obs, i).value.stance == held
    requires c != held && c != Insufficient && Confirmed(m, prior, obs, i + 1, held, c)
    ensures After(m, prior, obs, i + 1).value.flipped && After(m, prior, obs, i + 1).value.stance == c
  {
    hide Resolve, Proposal, Required;
    PendingIsEarned(m, prior, obs, i);
    AnchorFollowsState(m, prior, obs, i);
    assert FreshAt(AnchorOf(prior), obs, i);
    assert Proposed(m, prior, obs, i, held, c);
    RefusedIsPending(m, After(m, prior, obs, i).value, obs[i]);
    if Window(m, prior, obs, i + 1, Required(m.params), held, c) {
      WindowIsCounted(m, prior, obs, i, Required(m.params) - 1, held, c);
    } else {
      WindowIsCounted(m, prior, obs, i, i, held, c);
    }
  }

  /** A stance is adopted exactly when it was proposed, against the one held, on k consecutive new
      candles, those the first state had already counted included; the evidence gate never counts. */
  lemma AdoptionIsEarned(m: Setup, prior: Option<State>, obs: seq<Observation>, i: nat, held: Stance, c: Stance)
    requires i < |obs| && AllFresh(AnchorOf(prior), obs) && Tallied(prior)
    requires After(m, prior, obs, i).Some? && After(m, prior, obs, i).value.stance == held
    ensures After(m, prior, obs, i + 1).value.flipped && After(m, prior, obs, i + 1).value.stance == c
            <==> c != held && c != Insufficient && Confirmed(m, prior, obs, i + 1, held, c)
  {
    hide Resolve, Confirmed, AllFresh;
    if c != held && c != Insufficient && Confirmed(m, prior, obs, i + 1, held, c) {
      ConfirmedIsAdopted(m, prior, obs, i, held, c);
    }
    if After(m, prior, obs, i + 1).value.flipped && After(m, prior, obs, i + 1).value.stance == c {
      AdoptedWasConfirmed(m, prior, obs, i, held, c);
    }
  }

  lemma BootstrapIsQuiet(m: Setup, o: Observation)
    ensures var s := Resolve(m, None, o);
            s.pendingCount == 0 && s.pending.None? && !s.flipped && s.candlesInState == 1 && s.lastBarAt == o.barAt
  {
  }

  // ----- What a state remembers of its run -----

  /** The call that adopted the stance held after i calls. */
  function AdoptingCall(m: Setup, obs: seq<Observation>, i: nat): (c: nat)
    requires 0 < i <= |obs|
    ensures c < i
  {
    if i == 1 || After(m, None, obs, i - 1).value.stance != After(m, None, obs, i).value.stance then i - 1
    else AdoptingCall(m, obs, i - 1)
  }

  /** The time of the latest adoption of one direction straight from the other. */
  function LatestReversal(m: Setup, obs: seq<Observation>, i: nat): Option<int>
    requires i <= |obs|
  {
    if i <= 1 then None
    else
      var was, now := After(m, None, obs, i - 1).value.stance, After(m, None, obs, i).value.stance;
      if was != now && Directional(was) && Directional(now) then Some(obs[i - 1].now)
      else LatestReversal(m, obs, i - 1)
  }

  lemma MemoryStep(m: Setup, s: State, o: Observation)
    ensures var t := Resolve(m, Some(s), o);
            && t.since == (if t.stance == s.stance then s.since else o.now)
            && t.lastFlipAt == (if t.stance != s.stance && Directional(s.stance) && Directional(t.stance)
                                then Some(o.now) else s.lastFlipAt)
            && t.preview == PreviewOf(m, RawStance(o), o)
            && t.previousStance == (if Newer(s.lastBarAt, o.barAt) then Some(s.stance) else s.previousStance)
            && (t.flipped <==> t.stance != s.stance && t.stance != Insufficient)
  {
  }

  /** Under any polling: `since` is when the held stance was adopted, and it was held ever since;
      `last_flip_at` is the latest direct reversal; the preview is always the latest call's own. */
  lemma {:induction false} StateRemembersItsRun(m: Setup, obs: seq<Observation>, i: nat)
    requires 0 < i <= |obs|
    ensures var s, c := After(m, None, obs, i).value, AdoptingCall(m, obs, i);
            && s.since == obs[c].now
            && (forall j :: c < j <= i ==> After(m, None, obs, j).value.stance == s.stance)
            && (c > 0 ==> After(m, None, obs, c).value.stance != s.stance)
            && s.lastFlipAt == LatestReversal(m, obs, i)
            && s.preview == Preview(RawStance(obs[i - 1]), Round(m.arith, obs[i - 1].longScore, 100.0),
                                    Round(m.arith, obs[i - 1].shortScore, 100.0), obs[i - 1].now)
  {
    hide Resolve, RawStance, Round;
    if i == 1 {
      FirstMemory(m, obs[0]);
    } else {
      StateRemembersItsRun(m, obs, i - 1);
      MemoryStep(m, After(m, None, obs, i - 1).value, obs[i - 1]);
    }
  }

  lemma FirstMemory(m: Setup, o: Observation)
    ensures var s := Resolve(m, None, o);
            s.since == o.now && s.lastFlipAt == None && s.preview == PreviewOf(m, RawStance(o), o)
  {
  }

  // ----- Candles held are conserved across gaps and polls -----

  /** The candle on which the stance held after i calls was adopted. */
  function AdoptedAt(m: Setup, obs: seq<Observation>, i: nat): Option<int>
    requires 0 < i <= |obs|
  {
    obs[AdoptingCall(m, obs, i)].barAt
  }

  /** Confirmed candles, where known, lie on one grid of the given length in seconds. */
  ghost predicate OnGrid(obs: seq<Observation>, length: int, origin: int)
    requires length > 0
  {
    && |obs| > 0 && obs[0].barAt.Some?
    && forall i :: 0 <= i < |obs| && obs[i].barAt.Some? ==> GridAligned(obs[i].barAt.value, length, origin)
  }

  ghost predicate GridAligned(t: int, length: int, origin: int)
    requires length > 0
  {
    exists n: int :: t == GridPoint(n, length, origin)
  }

  function GridPoint(n: int, length: int, origin: int): int {
    origin + n * length
  }

  lemma CandlesAdvancedOnGrid(barMinutes: real, length: int, origin: int, a: int, b: int)
    requires length >= 60 && barMinutes == length as real / 60.0
    requires GridAligned(a, length, origin) && GridAligned(b, length, origin) && a < b
    ensures CandlesAdvanced(barMinutes, Some(a), Some(b)) * length == b - a
  {
    var x: int :| a == GridPoint(x, length, origin);
    var y: int :| b == GridPoint(y, length, origin);
    var n := y - x;
    assert b - a == n * length;
    if n <= 0 {
      Scale(length, n, 0);
      assert false;
    }
    assert (b - a) as real == n as real * length as real;
    ExactQuotient((b - a) as real, n as real, length as real);
    assert RoundHalfEven(n as real) == n;
  }

  lemma ExactQuotient(d: real, n: real, length: real)
    requires length >= 60.0 && d == n * length
    ensures d / 60.0 / Max(length / 60.0, 1.0) == n
  {
    var minutes := length / 60.0;
    assert d / 60.0 == n * minutes;
  }

  lemma CandleStep(m: Setup, s: State, o: Observation)
    ensures var t := Resolve(m, Some(s), o);
            if Newer(s.lastBarAt, o.barAt) then
              t.lastBarAt == o.barAt
              && t.candlesInState == if t.stance == s.stance
                                     then s.candlesInState + CandlesAdvanced(m.barMinutes, s.lastBarAt, o.barAt) else 1
            else t.stance == s.stance && t.lastBarAt == s.lastBarAt && t.candlesInState == s.candlesInState
  {
  }

  lemma {:induction false} CandlesAreConserved(m: Setup, obs: seq<Observation>, length: int, origin: int, i: nat)
    requires length >= 60 && m.barMinutes == length as real / 60.0
    requires OnGrid(obs, length, origin) && 0 < i <= |obs|
    ensures var s := After(m, None, obs, i).value;
            && s.lastBarAt.Some? && AdoptedAt(m, obs, i).Some?
            && GridAligned(s.lastBarAt.value, length, origin)
            && s.candlesInState * length == length + s.lastBarAt.value - AdoptedAt(m, obs, i).value
  {
    hide Resolve;
    if i == 1 {
      BootstrapIsQuiet(m, obs[0]);
    } else {
      CandlesAreConserved(m, obs, length, origin, i - 1);
      var s, o := After(m, None, obs, i - 1).value, obs[i - 1];
      CandleStep(m, s, o);
      if Newer(s.lastBarAt, o.barAt) {
        var n := CandlesAdvanced(m.barMinutes, s.lastBarAt, o.barAt);
        CandlesAdvancedOnGrid(m.barMinutes, length, origin, s.lastBarAt.value, o.barAt.value);
        assert (s.candlesInState + n) * length == s.candlesInState * length + n * length;
      }
    }
  }

  // ----- Long/short symmetry -----

  function Mirror(s: Stance): Stance {
    match s
    case LongLeaning => ShortLeaning
    case ShortLeaning => LongLeaning
    case _ => s
  }

  function MirrorOption(s: Option<Stance>): Option<Stance> {
    if s.None? then None else Some(Mirror(s.value))
  }

  function MirrorObservation(o: Observation): Observation {
    Observation(o.shortCount, o.longCount, o.shortScore, o.longScore,
                o.htf.(bias := match o.htf.bias case Long => Short case Short => Long case Neutral => Neutral),
                o.barAt, o.now)
  }

  function MirrorState(s: State): State {
    s.(stance := Mirror(s.stance), previousStance := MirrorOption(s.previousStance), target := MirrorOption(s.target),
       pending := MirrorOption(s.pending), longEma := s.shortEma, shortEma := s.longEma,
       preview := Preview(Mirror(s.preview.rawStance), s.preview.shortScore, s.preview.longScore, s.preview.asOf))
  }

  function MirrorPrior(s: Option<State>): Option<State> {
    if s.None? then None else Some(MirrorState(s.value))
  }

  function MirrorAll(obs: seq<Observation>): seq<Observation> {
    seq(|obs|, i requires 0 <= i < |obs| => MirrorObservation(obs[i]))
  }

  lemma LeadIsOdd(l: real, s: real)
    ensures Lead(s, l) == -Lead(l, s)
  {
    var stronger := Max(l, s);
    if stronger > 0.0 {
      QuotientNegates(l - s, stronger);
    }
  }

  lemma RawStanceMirrors(o: Observation)
    ensures RawStance(MirrorObservation(o)) == Mirror(RawStance(o))
  {
    assert Abs(o.shortScore - o.longScore) == Abs(o.longScore - o.shortScore);
  }

  /** The Schmitt trigger treats both sides alike exactly when its entry threshold is positive. */
  lemma CandidateMirrors(p: Params)
    ensures (forall held, rel :: Candidate(p, Mirror(held), -rel) == Mirror(Candidate(p, held, rel)))
            <==> p.enterMargin > 0.0
  {
    if p.enterMargin <= 0.0 {
      assert Candidate(p, Mirror(Conflicted), -0.0) != Mirror(Candidate(p, Conflicted, 0.0));
    }
  }

  lemma ProposalMirrors(m: Setup, s: State, o: Observation)
    requires m.params.enterMargin > 0.0
    ensures Proposal(m, MirrorState(s), MirrorObservation(o)) == Mirror(Proposal(m, s, o))
  {
    RawStanceMirrors(o);
    var l := Ema(m.arith, Alpha(m.params), Some(s.longEma), o.longScore);
    var t := Ema(m.arith, Alpha(m.params), Some(s.shortEma), o.shortScore);
    LeadIsOdd(l, t);
    CandidateMirrors(m.params);
    assert Candidate(m.params, Mirror(s.stance), -Lead(l, t)) == Mirror(Candidate(m.params, s.stance, Lead(l, t)));
  }

  lemma AdvanceMirrors(m: Setup, s: State, o: Observation)
    requires m.params.enterMargin > 0.0
    ensures Advance(m, MirrorState(s), MirrorObservation(o)) == MirrorState(Advance(m, s, o))
  {
    hide Proposal, RawStance, Round, CandlesAdvanced, Ema, Required, Alpha;
    RawStanceMirrors(o);
    ProposalMirrors(m, s, o);
  }

  lemma ResolveMirrors(m: Setup, prior: Option<State>, o: Observation)
    requires m.params.enterMargin > 0.0
    ensures Resolve(m, MirrorPrior(prior), MirrorObservation(o)) == MirrorState(Resolve(m, prior, o))
  {
    hide Advance, RawStance, Round;
    RawStanceMirrors(o);
    if prior.Some? {
      AdvanceMirrors(m, prior.value, o);
    }
  }

  /** Swapping the two sides of every observation swaps the two sides of every state of the run. */
  lemma {:induction false} RunMirrors(m: Setup, prior: Option<State>, obs: seq<Observation>, i: nat)
    requires m.params.enterMargin > 0.0 && i <= |obs|
    ensures After(m, MirrorPrior(prior), MirrorAll(obs), i) == MirrorPrior(After(m, prior, obs, i))
  {
    if i > 0 {
      RunMirrors(m, prior, obs, i - 1);
      ResolveMirrors(m, After(m, prior, obs, i - 1), obs[i - 1]);
    }
  }

  lemma CompositeMirrors(arith: Arithmetic, s: State, o: Observation)
    ensures CompositeScore(arith, Mirror(s.stance), s.shortEma, s.longEma, o.shortScore, o.longScore)
              == CompositeScore(arith, s.stance, s.longEma, s.shortEma, o.longScore, o.shortScore)
  {
    hide Round;
    assert s.shortEma + s.longEma == s.longEma + s.shortEma && o.shortScore + o.longScore == o.longScore + o.shortScore;
    assert Max(o.shortScore, o.longScore) == Max(o.longScore, o.shortScore);
  }

  /** The displays mirror too: the same composite score and the opposite needle. */
  lemma DisplaysMirror(arith: Arithmetic, s: State, o: Observation)
    ensures ReportedComposite(arith, MirrorState(s), MirrorObservation(o)) == ReportedComposite(arith, s, o)
    ensures Needle(arith, MirrorState(s)) == -Needle(arith, s)
  {
    hide Round, CompositeScore;
    CompositeMirrors(arith, s, o);
    var total := s.longEma + s.shortEma;
    if total > 0.0 {
      RoundOdd(arith, (s.longEma - s.shortEma) / total, 1000.0);
      QuotientNegates(s.longEma - s.shortEma, total);
    }
  }
}
