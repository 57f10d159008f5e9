/**
 The shared directional state: a repository row per symbol and timeframe, and the pollers that
 each load it, step the machine and write the result back if the repository accepts it.
*/
module DirectionalStore {
  import opened Common
  import opened Hysteresis
  import opened StanceRuns

  const SCORING_VERSION := "directional-v3"

  datatype Stored = Stored(state: State, version: string)

  type Key = (string, string)

  // ----- One load and one conditional write -----

  /** Only a state written under the same scoring semantics is inherited. */
  function LoadedPrior(row: Option<Stored>, version: string): Option<State> {
    if row.Some? && row.value.version == version then Some(row.value.state) else None
  }

  predicate SameDirectionalBar(current: Option<Stored>, candidate: Stored) {
    && current.Some?
    && current.value.state.lastBarAt.Some?
    && candidate.state.lastBarAt.Some?
    && current.value.state.lastBarAt == candidate.state.lastBarAt
    && current.value.version == candidate.version
  }

  /** Two unknown candles are never taken for one. */
  lemma UnknownBarIsNotTheSame(current: Option<Stored>, candidate: Stored)
    ensures candidate.state.lastBarAt.None? ==> !SameDirectionalBar(current, candidate)
    ensures current.None? || current.value.state.lastBarAt.None? ==> !SameDirectionalBar(current, candidate)
  {
  }

  predicate Accepts(current: Option<Stored>, candidate: Stored) {
    candidate.state.lastBarAt.Some? && !SameDirectionalBar(current, candidate)
  }

  function Upserted(current: Option<Stored>, candidate: Stored): Option<Stored> {
    if Accepts(current, candidate) then Some(candidate) else current
  }

  function UpperChar(c: char): char {
    if 'a' <= c <= 'z' then (c as int - 32) as char else c
  }

  function Upper(s: string): (u: string)
    ensures |u| == |s|
  {
    seq(|s|, i requires 0 <= i < |s| => UpperChar(s[i]))
  }

  function Find(states: map<Key, Stored>, symbol: string, timeframe: string): Option<Stored> {
    if (Upper(symbol), timeframe) in states then Some(states[(Upper(symbol), timeframe)]) else None
  }

  /** The two characters are one ASCII letter in either case, or the same character. */
  predicate SameLetter(c: char, d: char) {
    || c == d
    || ('a' <= c <= 'z' && c as int - d as int == 32)
    || ('a' <= d <= 'z' && d as int - c as int == 32)
  }

  predicate SameSymbol(a: string, b: string) {
    |a| == |b| && forall i :: 0 <= i < |a| ==> SameLetter(a[i], b[i])
  }

  /** Two requests meet the same row exactly when their symbols differ at most in case and their timeframes
      not at all, whatever is stored. */
  lemma RowsAreSharedExactly(a: string, b: string, x: string, y: string)
    ensures (forall states: map<Key, Stored> :: SameRow(states, a, x, b, y)) <==> SameSymbol(a, b) && x == y
  {
    if SameSymbol(a, b) && x == y {
      assert Upper(a) == Upper(b);
    } else {
      if |a| == |b| && !SameSymbol(a, b) {
        var i :| 0 <= i < |a| && !SameLetter(a[i], b[i]);
        assert Upper(a)[i] != Upper(b)[i];
      }
      var s := State(Insufficient, None, false, None, None, 0, 0, None, None, 1, 0.0, false, 0.0, 0.0, Preview(Insufficient, 0.0, 0.0, 0));
      assert !SameRow(map[(Upper(a), x) := Stored(s, SCORING_VERSION)], a, x, b, y);
    }
  }

  predicate SameRow(states: map<Key, Stored>, a: string, x: string, b: string, y: string) {
    Find(states, a, x) == Find(states, b, y)
  }

  class Repository {
    var states: map<Key, Stored>

    constructor ()
      ensures states == map[]
    {
      states := map[];
    }

    method GetDirectionalState(symbol: string, timeframe: string) returns (row: Option<Stored>)
      ensures row == Find(states, symbol, timeframe)
    {
      var key := (Upper(symbol), timeframe);
      if key in states {
        row := Some(states[key]);
      } else {
        row := None;
      }
    }

    method UpsertDirectionalState(symbol: string, timeframe: string, candidate: Stored) returns (written: bool)
      modifies this
      ensures written == !SameDirectionalBar(old(Find(states, symbol, timeframe)), candidate)
      ensures states == if written then old(states)[(Upper(symbol), timeframe) := candidate] else old(states)
    {
      var current := GetDirectionalState(symbol, timeframe);
      if SameDirectionalBar(current, candidate) {
        return false;
      }
      states := states[(Upper(symbol), timeframe) := candidate];
      return true;
    }

    method LoadDirectionalPrior(symbol: string, timeframe: string) returns (prior: Option<State>)
      ensures prior == LoadedPrior(Find(states, symbol, timeframe), SCORING_VERSION)
    {
      var row := GetDirectionalState(symbol, timeframe);
      if row.None? || row.value.version != SCORING_VERSION {
        return None;
      }
      return Some(row.value.state);
    }

    method PersistDirectionalState(symbol: string, timeframe: string, state: State) returns (written: bool)
      modifies this
      ensures written == Accepts(old(Find(states, symbol, timeframe)), Stored(state, SCORING_VERSION))
      ensures Find(states, symbol, timeframe)
                == Upserted(old(Find(states, symbol, timeframe)), Stored(state, SCORING_VERSION))
      ensures forall key :: key != (Upper(symbol), timeframe) ==>
                (key in states <==> key in old(states)) && (key in states ==> states[key] == old(states)[key])
    {
      if state.lastBarAt.None? {
        return false;
      }
      written := UpsertDirectionalState(symbol, timeframe, Stored(state, SCORING_VERSION));
    }

    /** One poll with nobody in between: load, step, write back. Within a candle it is read-only,
        and it writes exactly when the row is missing, foreign or strictly older. */
    method Poll(m: Setup, symbol: string, timeframe: string, o: Observation) returns (state: State, written: bool)
      modifies this
      ensures var row := old(Find(states, symbol, timeframe));
              var prior := LoadedPrior(row, SCORING_VERSION);
              && state == Resolve(m, prior, o)
              && (written <==> Accepts(row, Stored(state, SCORING_VERSION)))
              && (prior.Some? && prior.value.lastBarAt.Some? ==>
                    (written <==> Newer(prior.value.lastBarAt, o.barAt)))
              && (!written ==> states == old(states))
              && (written ==> states == old(states)[(Upper(symbol), timeframe) := Stored(state, SCORING_VERSION)])
    {
      var prior := LoadDirectionalPrior(symbol, timeframe);
      state := Resolve(m, prior, o);
      ResolvedBar(m, prior, o);
      if state.lastBarAt.None? {
        return state, false;
      }
      written := UpsertDirectionalState(symbol, timeframe, Stored(state, SCORING_VERSION));
    }
  }

  // ----- Interleaved pollers -----

  /** Pollers act in two steps: a load, and a step-and-write-back on what they loaded. */
  datatype Event =
    | Load(poller: nat, version: string)
    | WriteBack(poller: nat, version: string, observation: Observation)

  datatype World = World(row: Option<Stored>, loaded: map<nat, Option<State>>)

  const EMPTY := World(None, map[])

  function Held(w: World, poller: nat): Option<State> {
    if poller in w.loaded then w.loaded[poller] else None
  }

  function Step(m: Setup, w: World, e: Event): World {
    match e
    case Load(p, v) => w.(loaded := w.loaded[p := LoadedPrior(w.row, v)])
    case WriteBack(p, v, o) => w.(row := Upserted(w.row, Stored(Resolve(m, Held(w, p), o), v)))
  }

  function WorldAfter(m: Setup, events: seq<Event>, i: nat): World
    requires i <= |events|
  {
    if i == 0 then EMPTY else Step(m, WorldAfter(m, events, i - 1), events[i - 1])
  }

  // ----- Every stored state has its own history of candles -----

  /** The state is what a solitary run over some strictly newer and newer observed candles reaches. */
  ghost predicate HasHistory(m: Setup, s: State, seen: set<Observation>) {
    exists chain :: IsHistory(m, chain, s, seen)
  }

  ghost predicate IsHistory(m: Setup, chain: seq<Observation>, s: State, seen: set<Observation>) {
    && |chain| > 0 && AllFresh(Unstarted, chain)
    && (forall i :: 0 <= i < |chain| ==> chain[i] in seen)
    && Core(After(m, None, chain, |chain|).value) == Core(s)
  }

  function Seen(events: seq<Event>, i: nat): set<Observation>
    requires i <= |events|
  {
    if i == 0 then {}
    else Seen(events, i - 1) + match events[i - 1] { case Load(_, _) => {} case WriteBack(_, _, o) => {o} }
  }

  lemma HistoryGrows(m: Setup, s: State, a: set<Observation>, b: set<Observation>)
    requires HasHistory(m, s, a) && a <= b
    ensures HasHistory(m, s, b)
  {
    var chain :| IsHistory(m, chain, s, a);
    assert IsHistory(m, chain, s, b);
  }

  lemma StepHistory(m: Setup, prior: Option<State>, o: Observation, seen: set<Observation>)
    requires prior.Some? ==> HasHistory(m, prior.value, seen)
    ensures HasHistory(m, Resolve(m, prior, o), seen + {o})
  {
    hide Resolve, AllFresh, Core;
    if prior.None? {
      StartHistory(m, o, seen);
    } else {
      var chain :| IsHistory(m, chain, prior.value, seen);
      if Newer(prior.value.lastBarAt, o.barAt) {
        ExtendHistory(m, chain, prior.value, o, seen);
      } else {
        FreezeKeepsCore(m, prior.value, o);
        assert IsHistory(m, chain, Resolve(m, prior, o), seen + {o});
      }
    }
  }

  lemma StartHistory(m: Setup, o: Observation, seen: set<Observation>)
    ensures HasHistory(m, Resolve(m, None, o), seen + {o})
  {
    hide Resolve;
    assert FreshAt(Unstarted, [o], 0);
    assert After(m, None, [o], 0) == None;
    assert IsHistory(m, [o], Resolve(m, None, o), seen + {o});
  }

  lemma ExtendHistory(m: Setup, chain: seq<Observation>, s: State, o: Observation, seen: set<Observation>)
    requires IsHistory(m, chain, s, seen) && Newer(s.lastBarAt, o.barAt)
    ensures HasHistory(m, Resolve(m, Some(s), o), seen + {o})
  {
    hide Resolve;
    var reached := After(m, None, chain, |chain|);
    AnchorFollowsState(m, None, chain, |chain|);
    SameCore(reached.value, s);
    AllFreshExtends(Unstarted, chain, o);
    AfterAppends(m, None, chain, o);
    CoreDecidesNext(m, reached, Some(s), o);
    var longer := chain + [o];
    assert IsHistory(m, longer, Resolve(m, Some(s), o), seen + {o});
  }

  /** Under any interleaving, every stored or loaded state has a history of its own: its persistent
      part is what one undisturbed run over newer and newer observed candles would hold. */
  lemma {:induction false} EveryStateHasHistory(m: Setup, events: seq<Event>, i: nat)
    requires i <= |events|
    ensures var w := WorldAfter(m, events, i);
            && (w.row.Some? ==> HasHistory(m, w.row.value.state, Seen(events, i)))
            && forall p :: Held(w, p).Some? ==> HasHistory(m, Held(w, p).value, Seen(events, i))
  {
    hide Resolve, HasHistory;
    if i > 0 {
      EveryStateHasHistory(m, events, i - 1);
      var w, e := WorldAfter(m, events, i - 1), events[i - 1];
      if w.row.Some? {
        HistoryGrows(m, w.row.value.state, Seen(events, i - 1), Seen(events, i));
      }
      forall p | Held(w, p).Some? ensures HasHistory(m, Held(w, p).value, Seen(events, i)) {
        HistoryGrows(m, Held(w, p).value, Seen(events, i - 1), Seen(events, i));
      }
      var next := WorldAfter(m, events, i);
      match e {
        case Load(poller, version) =>
          assert forall p :: Held(next, p) == if p == poller then LoadedPrior(w.row, version) else Held(w, p);
        case WriteBack(poller, _, o) =>
          assert forall p :: Held(next, p) == Held(w, p);
          StepHistory(m, Held(w, poller), o, Seen(events, i - 1));
      }
    }
  }

  /** So a stance adopted anywhere was proposed on k distinct, strictly newer and newer observed
      candles of that state's own history. */
  lemma AdoptionHasWitnesses(m: Setup, s: State, o: Observation, seen: set<Observation>)
      returns (chain: seq<Observation>)
    requires HasHistory(m, s, seen) && Resolve(m, Some(s), o).flipped
    ensures var k, adopted := Required(m.params), Resolve(m, Some(s), o).stance;
            && AllFresh(Unstarted, chain)
            && (forall i :: 0 <= i < |chain| ==> chain[i] in seen + {o})
            && adopted != s.stance
            && Window(m, None, chain, |chain|, k, s.stance, adopted)
    ensures StrictlyNewer(chain)
  {
    hide Resolve, Proposal, Window;
    chain := Replayed(m, s, o, seen);
    AdoptionIsEarned(m, None, chain, |chain| - 1, s.stance, Resolve(m, Some(s), o).stance);
    FreshBarsIncrease(Unstarted, chain);
  }

  /** A state's history, extended by the candle that flips it, replays the flip. */
  lemma Replayed(m: Setup, s: State, o: Observation, seen: set<Observation>) returns (chain: seq<Observation>)
    requires HasHistory(m, s, seen) && Resolve(m, Some(s), o).flipped
    ensures |chain| > 0 && AllFresh(Unstarted, chain)
    ensures forall i :: 0 <= i < |chain| ==> chain[i] in seen + {o}
    ensures var reached, last := After(m, None, chain, |chain| - 1), After(m, None, chain, |chain|).value;
            && reached.Some? && reached.value.stance == s.stance
            && last.flipped && last.stance == Resolve(m, Some(s), o).stance
  {
    assert Newer(s.lastBarAt, o.barAt);
    hide Resolve;
    var past :| IsHistory(m, past, s, seen);
    var reached := After(m, None, past, |past|);
    AnchorFollowsState(m, None, past, |past|);
    SameCore(reached.value, s);
    AllFreshExtends(Unstarted, past, o);
    AfterAppends(m, None, past, o);
    AfterExtends(m, None, past, o, |past|);
    FlipSurvivesCore(m, reached.value, s, o);
    chain := past + [o];
  }

  lemma SameCore(a: State, b: State)
    requires Core(a) == Core(b)
    ensures a.lastBarAt == b.lastBarAt && a.stance == b.stance
  {
    assert a == b.(flipped := a.flipped, preview := a.preview);
  }

  lemma FlipSurvivesCore(m: Setup, a: State, b: State, o: Observation)
    requires Core(a) == Core(b) && Newer(b.lastBarAt, o.barAt)
    ensures Resolve(m, Some(a), o).flipped == Resolve(m, Some(b), o).flipped
    ensures Resolve(m, Some(a), o).stance == Resolve(m, Some(b), o).stance
  {
    assert a == b.(flipped := a.flipped, preview := a.preview);
  }

  // ----- The candles alone -----

  /** The newest candle a poller can vouch for: the one it inherited or the one it observed. */
  function NewestBar(inherited: Option<int>, observed: Option<int>): Option<int> {
    if Newer(inherited, observed) then observed else inherited
  }

  function BarOf(prior: Option<State>): Option<int> {
    if prior.None? then None else prior.value.lastBarAt
  }

  lemma ResolvedBar(m: Setup, prior: Option<State>, o: Observation)
    ensures Resolve(m, prior, o).lastBarAt == NewestBar(BarOf(prior), o.barAt)
  {
  }

  function StoredBar(w: World): Option<int> {
    if w.row.None? then None else w.row.value.state.lastBarAt
  }

  /** What the row and the loads say about candles and versions, without any state machine. */
  datatype Mark = Mark(bar: int, version: string)

  datatype Marks = Marks(row: Option<Mark>, inherited: map<nat, Option<int>>)

  function Inherited(c: Marks, poller: nat): Option<int> {
    if poller in c.inherited then c.inherited[poller] else None
  }

  function MarkStep(c: Marks, e: Event): Marks {
    match e
    case Load(p, v) =>
      var bar := if c.row.Some? && c.row.value.version == v then Some(c.row.value.bar) else None;
      c.(inherited := c.inherited[p := bar])
    case WriteBack(p, v, o) =>
      match NewestBar(Inherited(c, p), o.barAt)
      case None => c
      case Some(bar) => c.(row := Some(Mark(bar, v)))
  }

  function MarksAfter(events: seq<Event>, i: nat): Marks
    requires i <= |events|
  {
    if i == 0 then Marks(None, map[]) else MarkStep(MarksAfter(events, i - 1), events[i - 1])
  }

  /** The candle event i offers to the repository. */
  function Offered(events: seq<Event>, i: nat): Option<int>
    requires i < |events|
  {
    match events[i]
    case Load(_, _) => None
    case WriteBack(p, _, o) => NewestBar(Inherited(MarksAfter(events, i), p), o.barAt)
  }

  /** Event i changes the stored candle or its version. */
  predicate Writes(events: seq<Event>, i: nat)
    requires i < |events|
  {
    var bar := Offered(events, i);
    bar.Some? && MarksAfter(events, i).row != Some(Mark(bar.value, events[i].version))
  }

  predicate Shadows(w: World, c: Marks) {
    && (w.row.Some? <==> c.row.Some?)
    && (w.row.Some? ==> w.row.value.state.lastBarAt == Some(c.row.value.bar) && w.row.value.version == c.row.value.version)
  }

  /** Candles evolve on their own: which writes are accepted never depends on a stance or a score. */
  lemma {:induction false} CandlesDecideWrites(m: Setup, events: seq<Event>, i: nat)
    requires i <= |events|
    ensures Shadows(WorldAfter(m, events, i), MarksAfter(events, i))
    ensures forall p :: BarOf(Held(WorldAfter(m, events, i), p)) == Inherited(MarksAfter(events, i), p)
    ensures i < |events| ==> (IsWrite(m, events, i) <==> Writes(events, i))
  {
    hide Resolve;
    if i > 0 {
      CandlesDecideWrites(m, events, i - 1);
      var w, c := WorldAfter(m, events, i - 1), MarksAfter(events, i - 1);
      match events[i - 1] {
        case Load(poller, version) =>
          assert forall p :: Held(WorldAfter(m, events, i), p) == if p == poller then LoadedPrior(w.row, version) else Held(w, p);
        case WriteBack(poller, _, o) =>
          ResolvedBar(m, Held(w, poller), o);
          assert forall p :: Held(WorldAfter(m, events, i), p) == Held(w, p);
          assert forall p :: Inherited(MarksAfter(events, i), p) == Inherited(c, p);
      }
    }
    if i < |events| && events[i].WriteBack? {
      ResolvedBar(m, Held(WorldAfter(m, events, i), events[i].poller), events[i].observation);
    }
  }

  // ----- Accepted writes -----

  predicate IsWrite(m: Setup, events: seq<Event>, i: nat)
    requires i < |events|
  {
    var w := WorldAfter(m, events, i);
    events[i].WriteBack?
    && Accepts(w.row, Stored(Resolve(m, Held(w, events[i].poller), events[i].observation), events[i].version))
  }

  /** The latest write before event i. */
  function LatestWrite(events: seq<Event>, i: nat): (w: Option<nat>)
    requires i <= |events|
    ensures w.Some? ==> w.value < i && Writes(events, w.value)
    ensures forall j :: 0 <= j < i && Writes(events, j) ==> w.Some? && j <= w.value
  {
    if i == 0 then None else if Writes(events, i - 1) then Some(i - 1) else LatestWrite(events, i - 1)
  }

  lemma {:induction false} RowIsLatestWrite(events: seq<Event>, i: nat)
    requires i <= |events|
    ensures match LatestWrite(events, i)
            case None => MarksAfter(events, i).row == None
            case Some(w) => MarksAfter(events, i).row == Some(Mark(Offered(events, w).value, events[w].version))
  {
    hide Inherited, NewestBar;
    if i > 0 {
      RowIsLatestWrite(events, i - 1);
    }
  }

  /** A load inherits what the latest write stored, and only if both run under the same version. */
  lemma {:induction false} LoadInheritsLatestWrite(m: Setup, events: seq<Event>, i: nat, version: string)
    requires i <= |events|
    ensures LoadedPrior(WorldAfter(m, events, i).row, version) ==
              match LatestWrite(events, i)
              case None => None
              case Some(w) =>
                if events[w].version != version then None
                else Some(Resolve(m, Held(WorldAfter(m, events, w), events[w].poller), events[w].observation))
  {
    hide Resolve, Offered;
    if i > 0 {
      LoadInheritsLatestWrite(m, events, i - 1, version);
      CandlesDecideWrites(m, events, i - 1);
    }
  }

  // ----- When the stored candle can go back -----

  /** Write i stored a strictly newer candle than the one before it. */
  predicate Forward(m: Setup, events: seq<Event>, i: nat)
    requires i < |events|
  {
    var before := WorldAfter(m, events, i).row;
    var after := WorldAfter(m, events, i + 1).row;
    before.Some? ==> after.Some? && Newer(before.value.state.lastBarAt, after.value.state.lastBarAt)
  }

  ghost predicate AlwaysForward(m: Setup, events: seq<Event>) {
    forall i :: 0 <= i < |events| && IsWrite(m, events, i) ==> Forward(m, events, i)
  }

  /** The index of this poller's latest load before event i; -1 stands for the start of the run. */
  function LatestLoad(events: seq<Event>, i: nat, poller: nat): (j: int)
    requires i <= |events|
    ensures -1 <= j < i && (j >= 0 ==> events[j].Load? && events[j].poller == poller)
  {
    if i == 0 then -1
    else if events[i - 1].Load? && events[i - 1].poller == poller then i - 1
    else LatestLoad(events, i - 1, poller)
  }

  /** Write w lands inside the poll that event i concludes. */
  predicate Intervenes(events: seq<Event>, w: nat, i: nat)
    requires w < i < |events|
  {
    events[i].WriteBack? && LatestLoad(events, i, events[i].poller) < w && Writes(events, w)
  }

  /** The poll that event i concludes overlaps an accepted write. */
  ghost predicate Overlapped(events: seq<Event>, i: nat)
    requires i < |events|
  {
    exists w :: 0 <= w < i && Intervenes(events, w, i)
  }

  /** The latest write stored a newer candle than the poller can offer, or the same one under another version. */
  predicate Superseded(events: seq<Event>, i: nat)
    requires i < |events|
  {
    var w := LatestWrite(events, i);
    && w.Some? && Offered(events, i).Some?
    && var stored, offered := Offered(events, w.value).value, Offered(events, i).value;
       stored > offered || (stored == offered && events[w.value].version != events[i].version)
  }

  /** The poll that event i concludes loaded or writes under another version than the latest write before it. */
  predicate Rescored(events: seq<Event>, i: nat)
    requires i < |events|
  {
    var w := LatestWrite(events, i);
    && events[i].WriteBack? && w.Some?
    && var j := LatestLoad(events, i, events[i].poller);
       events[i].version != events[w.value].version || (j >= 0 && events[j].version != events[w.value].version)
  }

  ghost predicate OneVersion(events: seq<Event>, version: string) {
    forall i :: 0 <= i < |events| ==> events[i].version == version
  }

  /** Until the poller loads again it holds the candle of its latest load. */
  lemma {:induction false} InheritedSinceLoad(events: seq<Event>, i: nat, poller: nat)
    requires i <= |events|
    ensures var j := LatestLoad(events, i, poller);
            Inherited(MarksAfter(events, i), poller) ==
              if j < 0 then None
              else var row := MarksAfter(events, j).row;
                   if row.Some? && row.value.version == events[j].version then Some(row.value.bar) else None
  {
    if i > 0 {
      InheritedSinceLoad(events, i - 1, poller);
    }
  }

  /** Without a write in between, the row is the one that was loaded. */
  lemma RowSinceLoad(events: seq<Event>, i: nat, j: int)
    requires -1 <= j < i <= |events|
    requires LatestWrite(events, i).None? || LatestWrite(events, i).value <= j
    requires j >= 0 ==> events[j].Load?
    ensures MarksAfter(events, i).row == if j < 0 then None else MarksAfter(events, j).row
  {
    hide MarksAfter;
    RowIsLatestWrite(events, i);
    if j >= 0 {
      RowIsLatestWrite(events, j);
      assert !Writes(events, j);
    }
  }

  /** The repository compares candles for equality only, so an accepted write fails to move the
      stored candle forward exactly when the latest write had stored a newer one. That takes a write
      inside the poll, or a change of version. */
  lemma GoesBackExactly(m: Setup, events: seq<Event>, i: nat)
    requires i < |events|
    ensures IsWrite(m, events, i) && !Forward(m, events, i) <==> Superseded(events, i)
    ensures Superseded(events, i) ==> Intervenes(events, LatestWrite(events, i).value, i) || Rescored(events, i)
  {
    CandlesDecideWrites(m, events, i);
    CandlesDecideWrites(m, events, i + 1);
    RowIsLatestWrite(events, i);
    if events[i].WriteBack? {
      var poller := events[i].poller;
      var j := LatestLoad(events, i, poller);
      InheritedSinceLoad(events, i, poller);
      hide WorldAfter, Accepts, LatestWrite;
      assert MarksAfter(events, i + 1) == MarkStep(MarksAfter(events, i), events[i]);
      var w := LatestWrite(events, i);
      if w.None? || w.value <= j {
        RowSinceLoad(events, i, j);
      }
    }
  }

  /** Over whole runs: the stored candle only moves forward exactly when no poll was superseded, and
      in particular under one version when no poll overlaps a write. */
  lemma ForwardExactly(m: Setup, events: seq<Event>)
    ensures AlwaysForward(m, events) <==> forall i :: 0 <= i < |events| ==> !Superseded(events, i)
    ensures AlwaysForward(m, events) <== forall i :: 0 <= i < |events| ==> !Overlapped(events, i) && !Rescored(events, i)
  {
    hide IsWrite, Forward;
    forall i | 0 <= i < |events|
      ensures IsWrite(m, events, i) && !Forward(m, events, i) <==> Superseded(events, i)
      ensures Superseded(events, i) ==> Overlapped(events, i) || Rescored(events, i)
    {
      GoesBackExactly(m, events, i);
    }
    hide Superseded, Overlapped, Rescored;
  }

  /** The last write inside the poll stored a newer candle than the poller can offer. */
  predicate Overtaken(events: seq<Event>, i: nat)
    requires i < |events|
  {
    var w := LatestWrite(events, i);
    && w.Some? && Intervenes(events, w.value, i)
    && Offered(events, i).Some? && Offered(events, w.value).value > Offered(events, i).value
  }

  /** Under one version: an accepted write fails to move the stored candle forward exactly when the
      last write inside its own poll stored a newer candle. */
  lemma OvertakenExactly(m: Setup, events: seq<Event>, version: string, i: nat)
    requires OneVersion(events, version) && i < |events|
    ensures IsWrite(m, events, i) && !Forward(m, events, i) <==> Overtaken(events, i)
  {
    hide IsWrite, Forward, Offered, LatestWrite;
    GoesBackExactly(m, events, i);
  }

  lemma SerialRunsGoForward(m: Setup, events: seq<Event>, version: string)
    requires OneVersion(events, version) && forall i :: 0 <= i < |events| ==> !Overlapped(events, i)
    ensures AlwaysForward(m, events)
  {
    hide AlwaysForward, Overlapped;
    ForwardExactly(m, events);
  }

  lemma {:induction false} RowKeepsBar(m: Setup, events: seq<Event>, i: nat, j: nat)
    requires i <= j <= |events| && AlwaysForward(m, events)
    requires WorldAfter(m, events, i).row.Some? && WorldAfter(m, events, i).row.value.state.lastBarAt.Some?
    ensures var later := WorldAfter(m, events, j).row;
            && later.Some? && later.value.state.lastBarAt.Some?
            && WorldAfter(m, events, i).row.value.state.lastBarAt.value <= later.value.state.lastBarAt.value
    decreases j - i
  {
    hide Resolve;
    if i < j {
      RowKeepsBar(m, events, i, j - 1);
      assert IsWrite(m, events, j - 1) ==> Forward(m, events, j - 1);
    }
  }

  /** In such a run each candle is written at most once. */
  lemma EachCandleIsWrittenOnce(m: Setup, events: seq<Event>, i: nat, j: nat)
    requires i < j < |events| && AlwaysForward(m, events)
    requires IsWrite(m, events, i) && IsWrite(m, events, j)
    ensures var first, second := WorldAfter(m, events, i + 1).row.value.state, WorldAfter(m, events, j + 1).row.value.state;
            first.lastBarAt.Some? && second.lastBarAt.Some? && first.lastBarAt.value < second.lastBarAt.value
  {
    hide Resolve;
    RowKeepsBar(m, events, i + 1, j);
    assert Forward(m, events, j);
  }

  /** The stored candle does go back in a run of two pollers at the default tuning: the slower one
      loads, the faster one stores the next candle, and the slower one, with no new candle to
      offer, puts the old state back over it. */
  lemma StoredCandleCanGoBack(m: Setup)
    ensures var evidence := Observation(2, 2, 60.0, 30.0, HtfContext(Neutral, 0.0, false), Some(14400), 28800);
            var newer := evidence.(barAt := Some(28800), now := 43200);
            var v := SCORING_VERSION;
            var events := [Load(1, v), WriteBack(1, v, evidence), Load(2, v), Load(1, v),
                           WriteBack(1, v, newer), WriteBack(2, v, evidence)];
            && StoredBar(WorldAfter(m, events, 5)) == Some(28800)
            && IsWrite(m, events, 5)
            && StoredBar(WorldAfter(m, events, 6)) == Some(14400)
  {
    hide Resolve;
    var evidence := Observation(2, 2, 60.0, 30.0, HtfContext(Neutral, 0.0, false), Some(14400), 28800);
    var newer := evidence.(barAt := Some(28800), now := 43200);
    var v := SCORING_VERSION;
    var events := [Load(1, v), WriteBack(1, v, evidence), Load(2, v), Load(1, v),
                   WriteBack(1, v, newer), WriteBack(2, v, evidence)];
    var first := Resolve(m, None, evidence);
    ResolvedBar(m, None, evidence);
    ResolvedBar(m, Some(first), newer);
    ResolvedBar(m, Some(first), evidence);
    assert WorldAfter(m, events, 1) == World(None, map[1 := None]);
    assert WorldAfter(m, events, 2).row == Some(Stored(first, v));
    assert WorldAfter(m, events, 3).loaded[2] == Some(first);
    assert WorldAfter(m, events, 4).loaded[1] == Some(first) && WorldAfter(m, events, 4).loaded[2] == Some(first);
    assert WorldAfter(m, events, 5).row == Some(Stored(Resolve(m, Some(first), newer), v));
    assert WorldAfter(m, events, 5).loaded[2] == Some(first);
  }

  /** Under two scoring versions it goes back even if no poll overlaps another: the second poller
      inherits nothing, and its own older candle replaces the newer one. */
  lemma VersionChangeCanGoBack(m: Setup)
    ensures var o := Observation(2, 2, 60.0, 30.0, HtfContext(Neutral, 0.0, false), Some(28800), 43200);
            var older := o.(barAt := Some(14400));
            var events := [Load(1, "directional-v2"), WriteBack(1, "directional-v2", o),
                           Load(2, SCORING_VERSION), WriteBack(2, SCORING_VERSION, older)];
            && (forall i :: 0 <= i < 4 ==> !Overlapped(events, i))
            && IsWrite(m, events, 3)
            && StoredBar(WorldAfter(m, events, 3)) == Some(28800)
            && StoredBar(WorldAfter(m, events, 4)) == Some(14400)
  {
    hide Resolve;
    var o := Observation(2, 2, 60.0, 30.0, HtfContext(Neutral, 0.0, false), Some(28800), 43200);
    var older := o.(barAt := Some(14400));
    var events := [Load(1, "directional-v2"), WriteBack(1, "directional-v2", o),
                   Load(2, SCORING_VERSION), WriteBack(2, SCORING_VERSION, older)];
    ResolvedBar(m, None, o);
    ResolvedBar(m, None, older);
    assert WorldAfter(m, events, 1) == World(None, map[1 := None]);
    assert WorldAfter(m, events, 2).row == Some(Stored(Resolve(m, None, o), "directional-v2"));
    assert WorldAfter(m, events, 3).loaded[2] == None;
    assert WorldAfter(m, events, 3).row == WorldAfter(m, events, 2).row;
    assert LatestLoad(events, 1, 1) == 0 && LatestLoad(events, 3, 2) == 2;
    assert !Intervenes(events, 0, 1);
  }
}
