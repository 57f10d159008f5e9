/** Runs in which the next observation may depend on the state reached so far. */
module StanceScripts {
  import opened Common
  import opened Hysteresis
  import opened StanceRuns

  /** Chooses observation i from the state held before it. */
  type Script = (nat, Option<State>) -> Observation

  function Reached(m: Setup, prior: Option<State>, script: Script, i: nat): (s: Option<State>)
    ensures i > 0 ==> s.Some?
  {
    if i == 0 then prior
    else
      var s := Reached(m, prior, script, i - 1);
      Some(Resolve(m, s, script(i - 1, s)))
  }

  function Played(m: Setup, prior: Option<State>, script: Script, n: nat): (obs: seq<Observation>)
    ensures |obs| == n
  {
    seq(n, i requires 0 <= i < n => script(i, Reached(m, prior, script, i)))
  }

  lemma {:induction false} PlayedReaches(m: Setup, prior: Option<State>, script: Script, n: nat, i: nat)
    requires i <= n
    ensures After(m, prior, Played(m, prior, script, n), i) == Reached(m, prior, script, i)
  {
    hide Resolve;
    if i > 0 {
      PlayedReaches(m, prior, script, n, i - 1);
    }
  }

  /** A script whose candles are numbered: candle i is the i-th to be confirmed. */
  ghost predicate Numbered(script: Script) {
    forall i: nat, s: Option<State> :: script(i, s).barAt == Some(i)
  }

  function BarOf(prior: Option<State>): Option<int> {
    if prior.None? then None else prior.value.lastBarAt
  }

  lemma {:induction false} NumberedBars(m: Setup, prior: Option<State>, script: Script, i: nat)
    requires Numbered(script) && (prior.Some? ==> Newer(prior.value.lastBarAt, Some(0)))
    ensures Reached(m, prior, script, i).Some? ==>
              Reached(m, prior, script, i).value.lastBarAt == if i == 0 then BarOf(prior) else Some(i - 1)
  {
    hide RawStance, Proposal, Ema;
    if i > 0 {
      NumberedBars(m, prior, script, i - 1);
    }
  }

  lemma NumberedIsAllFresh(m: Setup, prior: Option<State>, script: Script, n: nat)
    requires Numbered(script) && (prior.Some? ==> Newer(prior.value.lastBarAt, Some(0)))
    ensures AllFresh(AnchorOf(prior), Played(m, prior, script, n))
  {
    var obs := Played(m, prior, script, n);
    forall i | 0 <= i < n ensures FreshAt(AnchorOf(prior), obs, i) {
      AnchorFollowsState(m, prior, obs, i);
      PlayedReaches(m, prior, script, n, i);
      NumberedBars(m, prior, script, i);
    }
  }
}
