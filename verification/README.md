# Directional engine, verified

A Dafny model of the parts of the control engine whose behaviour cannot be read off one function:
the hysteresis machine that decides which market direction is held, the store that many pollers
share it through, the cached replay behind the stance ribbon, the import-cycle check, the EMA
ribbon, the sample-size search, and the suppression of overlapping evidence.

| file | subject |
|---|---|
| `RealArithmetic.dfy`, `Rounding.dfy`, `Common.dfy` | products and quotients of reals; Python's `round`; options |
| `Hysteresis.dfy` | parameters, the instantaneous stance, the state machine, the confirmed-candle anchor, the two displays |
| `StanceRuns.dfy` | whole runs: polling frequency, number of changes, earned adoptions, memory, candles held, long/short symmetry |
| `StanceInvariants.dfy` | what every reachable state satisfies and what the displays promise |
| `StanceAccuracy.dfy` | rounding drift of the smoothed scores |
| `StanceLiveness.dfy` | a lead sustained above the flip margin gets through, and when |
| `StanceBands.dfy`, `SteadyScores.dfy` | exactly which sustained leads get through: leads kept in a band, constant scores |
| `StanceDeadZone.dfy` | one step told from its smoothed scores, and the dead zone between exit and entry margin |
| `StanceScripts.dfy`, `StanceExtremes.dfy` | runs driven by the state they reach; runs that attain the bounds |
| `DirectionalStore.dfy` | the repository and interleaved pollers |
| `StanceHistory.dfy` | full replay, incremental cache, ribbon endpoint |
| `HistoryFidelity.dfy` | when the cache shows what a full replay would |
| `RibbonContents.dfy` | what the ribbon shows, point by point, in terms of the machine's run |
| `SlidingHistory.dfy` | what it shows when the candle window slides |
| `ModuleNames.dfy`, `ImportCycles.dfy` | dotted names, import graph, depth-first search |
| `EmaRibbon.dfy` | the ribbon of moving averages |
| `RequiredSample.dfy` | decision rules, power, required sample |
| `OverlapSuppression.dfy` | evidence of one root |

Floating-point numbers are reals, instants are whole seconds, and `round` is rounding half to even
of the real value. `Arithmetic` chooses between that rounding and none, so a theorem about a
`Setup` holds for the machine as coded and for its exact counterpart alike. Square roots never
occur: decision rules are stated on squares and proved equal to the rules with roots for any
numbers that square to the variances. The generator behind the power estimates is a stream of reals.

## Where the code and what it says differ

The model follows the code. Where a promise fails there is a concrete input, and the condition
under which it holds is stated exactly.

- **Stored candle.** `persist_directional_state` and `_same_directional_bar` describe a write that
  happens only when the confirmed candle advanced, but the comparison is for equality. A poller
  that was overtaken between its load and its write is not refused and puts the older state back
  (`StoredCandleCanGoBack`). An accepted write fails to move the stored candle forward exactly when
  the latest write before it stored a newer one, or the same one under another scoring version
  (`GoesBackExactly`, `ForwardExactly`). That takes a write inside the poll or a change of version;
  under one version it is exactly a newer candle written inside the poll (`OvertakenExactly`), so
  polls that overlap no write, under one scoring version, only ever move it forward
  (`SerialRunsGoForward`), while a change of version can move it back without any overlap
  (`VersionChangeCanGoBack`). Every stored state still has a proper history of its own, whatever
  the interleaving (`EveryStateHasHistory`).
- **Sustained reversals.** `docs/DirectionalEngine.md` promises that a sustained opposite lead flips
  the stance within two or three candles. At the default tuning a smoothed lead of 29% and 31%
  in turn, with every candle leaning long by itself, keeps the stance short for as long as it lasts
  (`SustainedLeadCanBeIgnored`), and a smoothed lead of 27% on every candle is held after four
  candles and not after three (`ThreeCandlesAreNotEnough`). A smoothed lead that stays in a band
  above the entry margin is adopted within w candles exactly when the band lies at or above the
  flip margin and w is at least k, or it does not straddle the flip margin (or k is 1) and w is at
  least 2k, whether all starts are meant or only those that a run from nothing reaches
  (`BandGetsThroughExactly`). Three candles with two confirmations are therefore enough exactly for
  leads at or above the flip margin (`ThreeCandlesSufficeExactly`). Constant scores in exact
  arithmetic prevail from every start exactly when their lead exceeds the entry margin, or reaches
  it with smoothing off (`SteadyLeadGetsThroughExactly`). Scores that merely stay ahead by more than
  the flip margin prevail after an explicit delay (`ReversalGetsThrough`), and a stance is adopted
  exactly when one proposal was repeated on k consecutive candles (`AdoptionIsEarned`).
- **Unclamped margins.** `enter_margin` and `exit_margin` can be overridden without bounds. The
  trigger treats both sides alike exactly when `enter_margin > 0` (`CandidateMirrors`), and a
  first state is backed by its own exit margin exactly when `exit_margin <= 0.25`
  (`BootstrapBackedExactly`).
- **Cached replay.** The full replay skips a refused window; the incremental step raises. With live
  states in step a request raises exactly when the cache stands for the candle before it and the
  replay skips its window (`CacheIsInvisible`); it keeps raising until the next candle's request
  recovers by a full replay (`NextCandleRecovers`). A call without a live state leaves the prior of
  an earlier candle behind. An increment from it draws a suspect point, which stays hidden behind
  the live endpoint until the next increment: all answers are those of uncached calls, under every
  analysis, exactly when no request steps over such a point (`FaithfulExactly`,
  `MissingLiveStateGoesStale`).
- **Sliding window.** A full replay starts at the first candle of its window. On charts of at least
  200 confirmed candles, which slide, the cached ribbon keeps the start of the latest full replay
  (`SlidingCacheKeepsItsOrigin`), so an empty cache can show another past for the same chart:
  every analysis draws the same ribbon from two starts only if they are one (`OriginShowsExactly`).
  Once the two replays meet in related states they draw the same points (`ReplaysMerge`), and 71
  drawn points later the ribbons agree (`MergedRibbonsAgree`).
- **Two confidences.** Gauge and ribbon each show a `confidence`. They are equal unless a smoothed
  score is exactly zero, which the ribbon replaces by the instantaneous score; then they are equal
  exactly when that rounds to the same (`ConfidencesAgreeExactly`, `ZeroScoreSplitsThem`). Either
  is the size of the needle while there is evidence; without it the needle is switched off and the
  confidences are not (`ConfidenceIsNeedleExactly`, `LostEvidenceSplitsThem`).
- **Required sample.** "Smallest N" is a local minimum: a smaller sample can be enough
  (`SearchCanMissTheSmallest`). The search finds the smallest under every cap up to a limit exactly
  when being enough is monotone up to it (`SmallestExactlyIfMonotone`). A cap below 5 is answered
  with 5 (`AnswerIsEnoughExactly`).
- **Stale documentation.** `docs/DirectionalEngine.md` still says that the prior is read from scout
  snapshots; the code reads the dedicated store, and so does the model.

## Model

| member | source | states |
|---|---|---|
| Rounding.RoundOdd | backend/app/analyst/confluence.py:836-840 | rounding to a fixed number of decimals has no bias between the two sides |
| Rounding.NearestIntegerExactly | backend/app/analyst/confluence.py:836-840 | round is the nearest whole number, and of two equally near ones the even one |
| Rounding.RoundExactly | backend/app/analyst/confluence.py:836-840 | a value is the rounded one iff it is a whole number of units, none is nearer, and of two equally near ones it is the even one |
| Rounding.RoundMonotone | backend/app/analyst/confluence.py:836-840 | rounding never reverses an order |
| Rounding.RoundThousandthsError | backend/app/analyst/confluence.py:836-840 | one rounding of a smoothed score moves it by at most 0.0005 |
| StanceRuns.FreshMeansNewerThanAllBefore | backend/app/analyst/confluence.py:633-642 | a call moves the state exactly when its confirmed candle is newer than all earlier ones |
| StanceRuns.Stuttering | backend/app/analyst/confluence.py:602-642 | any sequence of polls leaves the persistent state of the run over its new candles only |
| StanceRuns.PollingFrequencyIsIrrelevant | backend/app/analyst/confluence.py:616-621 | two polling sequences meeting the same new candles hold the same persistent state |
| StanceRuns.ChangeBound | backend/app/analyst/confluence.py:691-774 | n new candles adopt at most n/k stances and change the stance at most 2(n/(k+1)) times, once more if candles are left over, a count already under way included; under any polling |
| StanceRuns.AdoptionIsEarned | backend/app/analyst/confluence.py:743-774 | a stance is adopted iff the same proposal, never a lack of evidence, met the same held stance on k consecutive new candles, counting on from the stored state |
| StanceRuns.StateRemembersItsRun | backend/app/analyst/confluence.py:658-774 | since and last_flip_at are the adoption time and the latest direct reversal, and the preview is the latest call's own stance, rounded scores and time, under any polling; the stance was held since |
| StanceRuns.CandlesAreConserved | backend/app/analyst/confluence.py:644-650 | candles in state equal one plus the grid distance from the adopting candle, across gaps and frozen polls |
| StanceRuns.CandidateMirrors | backend/app/analyst/confluence.py:814-833 | the trigger is symmetric in the two sides iff the entry margin is positive |
| StanceRuns.RawStanceMirrors | backend/app/analyst/confluence.py:988-1019 | swapping evidence, scores and higher-timeframe bias swaps the instantaneous stance |
| StanceRuns.RunMirrors | backend/app/analyst/confluence.py:602-774 | swapping the sides of every observation swaps the sides of every state of the run |
| StanceRuns.DisplaysMirror | backend/app/analyst/confluence.py:843-852 | mirrored states show the same composite score and the opposite needle |
| StanceInvariants.RawStanceExactly | backend/app/analyst/confluence.py:988-1019 | the instantaneous stance without divisions: evidence on both sides, a quarter lead, a half lead against a clear higher timeframe or a declared conflict |
| StanceInvariants.ReachableStates | backend/app/analyst/confluence.py:658-774 | in every reachable state the transition flag, pending stance, target, counter and progress agree, and a settled direction leads by the exit margin |
| StanceInvariants.BootstrapBackedExactly | backend/app/analyst/confluence.py:710-724 | the first state always has the lead of its exit margin iff that margin is at most the conflict ratio |
| StanceInvariants.DisplaysAgreeWithStance | backend/app/analyst/gauges.py:104-135 | outside a transition the needle is at least e/(2-e) on the held side and the composite at least 100/(2-e), both as rounded, or the cap of 75 |
| StanceInvariants.CompositeIsNeedle | backend/app/analyst/confluence.py:843-852 | before rounding, the composite score of a direction is the needle read on a scale of 100 |
| StanceInvariants.DisplaysInRange | backend/app/analyst/confluence.py:161-179 | needle within [-1,1], composite within [0,100], capped at 75 without higher-timeframe bias, at least 50 in a conflict |
| StanceInvariants.CompositeExactly | backend/app/analyst/confluence.py:161-179 | the reported composite is the rounded share of the held side, capped at 75 only under a neutral higher timeframe; in a conflict the stronger instantaneous share; zero without evidence |
| StanceInvariants.NeedleExactly | backend/app/analyst/gauges.py:110-125 | the needle is the relative lead to the nearest thousandth, in a conflict as in a direction, and rests without evidence or scores |
| StanceInvariants.AnchorIsClosed | backend/app/analyst/confluence.py:777-790 | the anchor is a closed candle iff the last candle did not open in the future, and is that candle iff the chart does not flag it provisional |
| StanceInvariants.AnchorIsLatestClosed | backend/app/analyst/confluence.py:777-790 | of all candles on the grid up to the last one, the anchor is the latest closed one |
| StanceInvariants.TunedParams | backend/app/analyst/confluence.py:577-599 | defaults 2, 0.30, 0.25, 0.10 and 2; span, flip margin and persistence take the value within their bounds nearest to the override, the other margins the override itself; the thresholds are ordered iff those two fit under the flip margin; k is the persistence rounded down |
| StanceAccuracy.RoundingDrift | backend/app/analyst/confluence.py:836-840 | over a series of any length rounding moves the smoothed value by at most 0.0005(span+1)/2 |
| StanceAccuracy.StaysInRange | backend/app/analyst/confluence.py:836-840 | the smoothed value stays between the smallest and largest score seen |
| StanceAccuracy.MachineSmooths | backend/app/analyst/confluence.py:652-654 | the machine's two scores over new candles are those smoothed series |
| StanceAccuracy.MachineDrift | backend/app/analyst/confluence.py:652-654 | the scores held by the code stay within the drift limit of those held in exact arithmetic, on every run of new candles |
| StanceAccuracy.SpanWeights | backend/app/analyst/confluence.py:652-654 | one smoothing step weighs two parts of the new score against span - 1 parts of the old value |
| StanceDeadZone.StepExactly | backend/app/analyst/confluence.py:691-774 | one new candle, told from its smoothed scores without divisions: the stance is lost, kept quietly, counted against or adopted, with every flag, count and progress that goes with it |
| StanceDeadZone.NextScoresExactly | backend/app/analyst/confluence.py:652-654 | every new candle, with evidence or without, moves both smoothed scores to the thousandth nearest to the weighed mean of its own score and the value held, ties to the even one |
| StanceDeadZone.DirectionIsKeptExactly | backend/app/analyst/confluence.py:814-833 | a held direction stays held with nothing pending iff its side still leads by the exit margin |
| StanceDeadZone.HeldThroughoutExactly | backend/app/analyst/confluence.py:814-833 | over any run with evidence a stance is held quietly throughout iff no smoothed lead leaves its zone: a direction from the exit margin up, a conflict strictly inside the entry margins |
| StanceDeadZone.DeadZone | backend/app/analyst/confluence.py:814-833 | while the lead stays between exit and entry margin, a long run stays long and a conflict a conflict, for any length |
| StanceDeadZone.ShortDeadZone | backend/app/analyst/confluence.py:814-833 | the same on the short side |
| StanceDeadZone.FirstStateExactly | backend/app/analyst/confluence.py:710-724 | the first state is what its candle says by itself, quietly, with that candle's scores, time and anchor |
| StanceDeadZone.FrozenStateExactly | backend/app/analyst/confluence.py:633-642 | a call without a newer candle changes nothing but the preview and the flip signal |
| StanceDeadZone.CandlesAdvancedExactly | backend/app/analyst/confluence.py:644-650 | a step counts the whole candles since the last one, to the nearest, and at least one; off the grid too |
| StanceLiveness.Approach | backend/app/analyst/confluence.py:652-654 | held scores approach sustained ones geometrically, up to the rounding drag |
| StanceLiveness.ReversalIsAdopted | backend/app/analyst/confluence.py:691-774 | once the decay fits the slack above the flip margin, k more candles adopt the leading side for good |
| StanceLiveness.ReversalGetsThrough | backend/app/analyst/confluence.py:691-774 | a lead sustained above the flip margin is adopted after an explicit number of candles, whatever the starting state, and kept |
| StanceLiveness.ReversalGetsThroughUnderPolling | backend/app/analyst/confluence.py:633-774 | the same under any polling, when the candles that are new among the calls sustain the lead |
| StanceLiveness.ShortReversalGetsThrough | backend/app/analyst/confluence.py:691-774 | the same for the short side |
| StanceLiveness.SlackIsLead | backend/app/analyst/confluence.py:707-708 | in exact arithmetic the liveness condition is a relative lead strictly above the flip margin |
| StanceBands.BandGetsThrough | backend/app/analyst/confluence.py:743-774 | from every start, a smoothed lead kept in a band above the entry margin is held from k candles on if the band lies at or above the flip margin, from 2k on if it lies below it or k is 1 |
| StanceBands.ShortBandGetsThrough | backend/app/analyst/confluence.py:743-774 | the same for a lead of the short side |
| StanceBands.DeadlineIsSharp | backend/app/analyst/confluence.py:743-774 | in every band a run from nothing, on two-decimal scores, does not hold the leading side at any given number of candles below that bound |
| StanceBands.StraddlingBandIsIgnored | backend/app/analyst/confluence.py:743-774 | across the flip margin a run from nothing, on two-decimal scores and of any length, stays in the band and is never adopted |
| StanceBands.BandGetsThroughExactly | backend/app/analyst/confluence.py:691-774 | for every deadline w: all runs in a band above the entry margin are adopted within w candles iff the band lies at or above the flip margin and w >= k, or it does not straddle the flip margin (or k is 1) and w >= 2k; the same from reachable starts |
| StanceBands.ThreeCandlesSufficeExactly | backend/app/analyst/confluence.py:691-774 | with two confirmations the documented three candles suffice iff the band lies at or above the flip margin |
| SteadyScores.CrossesOnce | backend/app/analyst/confluence.py:707-708 | under constant scores the smoothed lead crosses any margin at most once |
| SteadyScores.SteadyLeadGetsThrough | backend/app/analyst/confluence.py:691-774 | constant scores ahead by more than the entry margin are held from an explicit number of candles on |
| SteadyScores.SteadyLeadGetsThroughExactly | backend/app/analyst/confluence.py:691-774 | in exact arithmetic constant scores prevail from every start iff their lead exceeds the entry margin, or reaches it with smoothing off |
| StanceExtremes.SustainedLeadCanBeIgnored | backend/app/analyst/confluence.py:743-774 | at the default tuning a run of any length keeps the stance short although every candle leans long |
| StanceExtremes.ThreeCandlesAreNotEnough | backend/app/analyst/confluence.py:743-774 | at the default tuning a sustained smoothed lead of 0.27, every candle leaning long, is held after four candles and not after three |
| StanceExtremes.FlipBoundIsAttained | backend/app/analyst/confluence.py:743-761 | under every ordered tuning and for every length some run adopts exactly as many stances as the bound allows |
| StanceExtremes.ChangeBoundIsAttained | backend/app/analyst/confluence.py:691-774 | and some run changes its stance exactly as often as the bound allows |
| DirectionalStore.RowsAreSharedExactly | backend/app/db/repository/scout.py:28-41 | two requests meet the same row whatever is stored iff their symbols differ at most in case and their timeframes not at all |
| DirectionalStore.Repository.UpsertDirectionalState | backend/app/db/repository/scout.py:32-41 | writes exactly that row unless candle and scoring version are both unchanged |
| DirectionalStore.Repository.PersistDirectionalState | backend/app/analyst/briefing.py:297-312 | stores a state with a confirmed candle unless the repository refuses it, and touches no other row |
| DirectionalStore.Repository.Poll | backend/app/services/scout_handlers.py:1205-1231 | one undisturbed poll writes iff its candle is strictly newer than the inherited one, and is otherwise read-only |
| DirectionalStore.EveryStateHasHistory | backend/app/analyst/briefing.py:281-312 | under any interleaving each stored or loaded state is what one undisturbed run over newer and newer observed candles reaches |
| DirectionalStore.AdoptionHasWitnesses | backend/app/analyst/briefing.py:281-312 | a stance adopted by any poller was proposed on k distinct strictly newer candles of its own history |
| DirectionalStore.LoadInheritsLatestWrite | backend/app/analyst/briefing.py:281-294 | under any interleaving a load yields what the latest accepted write stored, and only under the same scoring version |
| DirectionalStore.CandlesDecideWrites | backend/app/db/repository/base.py:351-358 | candles and versions alone tell which writes are accepted and what is stored and held, whatever the scores |
| DirectionalStore.GoesBackExactly | backend/app/db/repository/base.py:351-358 | an accepted write fails to move the stored candle forward iff the latest write before it stored a newer one, or the same under another version; that takes a write inside the poll or a change of version |
| DirectionalStore.OvertakenExactly | backend/app/db/repository/base.py:351-358 | under one version it fails to iff the last write inside its own poll stored a newer candle |
| DirectionalStore.ForwardExactly | backend/app/db/repository/base.py:351-358 | over a run every accepted write carries a strictly newer candle iff no poll was superseded |
| DirectionalStore.SerialRunsGoForward | backend/app/analyst/briefing.py:281-312 | under one version, if no poll overlaps an accepted write, the stored candle only moves forward |
| DirectionalStore.EachCandleIsWrittenOnce | backend/app/analyst/briefing.py:297-302 | in such a run each candle is written at most once |
| DirectionalStore.StoredCandleCanGoBack | backend/app/db/repository/base.py:351-358 | two pollers, one slow: the stored candle goes back |
| DirectionalStore.VersionChangeCanGoBack | backend/app/db/repository/base.py:351-358 | two versions, no overlapping polls: the stored candle goes back |
| StanceHistory.FullReplay | backend/app/analyst/stance_history.py:101-125 | threads the state through every analysable prefix and keeps the last points |
| StanceHistory.NoLookAhead | backend/app/analyst/stance_history.py:74-125 | the points of a prefix do not depend on later candles, and a longer replay only appends |
| StanceHistory.HistoryCache.ReplayStanceHistory | backend/app/analyst/stance_history.py:18-66 | one call is a hit, an increment or a full replay of the confirmed candles, raises without touching the cache, and leaves other keys alone; RibbonContents says what its points tell |
| StanceHistory.ShownRibbon | backend/app/analyst/stance_history.py:180-196 | over any sequence of requests, live states or not, what is shown ends with the live payload's point, runs strictly forward in time, fits 72 points and leaks no state; RibbonContents says what each point tells |
| RibbonContents.ReplayTellsTheRun | backend/app/analyst/stance_history.py:101-177 | the points of a replay, oldest first, tell the states of one undisturbed run over the windows of the last 200 candles that can be analysed: held stance, flags, instantaneous stance, claim counts, reason and confidence |
| RibbonContents.RibbonTellsTheRun | backend/app/analyst/stance_history.py:18-66 | an uncached ribbon is those of the last 71 analysable candles before the latest one, in order, and then the live payload |
| RibbonContents.ShortRibbonIsLive | backend/app/analyst/stance_history.py:193-196 | below 100 candles the ribbon is the live payload alone |
| RibbonContents.ReplayedCandlesAreClosed | backend/app/analyst/stance_history.py:36-40 | with the chart's own flag exactly the closed candles are replayed |
| StanceHistory.GaugeShowsNeedle | backend/app/analyst/gauges.py:104-128 | the gauge shows the needle of the held state, and its confidence is the size of that needle while there is evidence |
| StanceHistory.ConfidencesAgreeExactly | backend/app/analyst/stance_history.py:228-232 | for every payload the ribbon's confidence equals the gauge's own iff there is no state, no smoothed score is zero, or the instantaneous score read in its place rounds to the same |
| StanceHistory.ConfidenceIsNeedleExactly | backend/app/analyst/stance_history.py:228-232 | the ribbon's confidence is the size of the needle shown, whatever else comes with the state, iff no smoothed score is zero and, where the needle is switched off, the two differ by at most a rounding |
| StanceHistory.ZeroScoreSplitsThem | backend/app/analyst/stance_history.py:228-232 | with a zero smoothed score the ribbon's confidence can be 0 where needle and gauge confidence are 1 |
| StanceHistory.LostEvidenceSplitsThem | backend/app/analyst/gauges.py:104-128 | two calls reach a state without evidence where the needle is 0 and both confidences are 0.6 |
| HistoryFidelity.CallRefinesReplay | backend/app/analyst/stance_history.py:39-66 | a call whose live state is in step, up to a relation the analysis respects, raises iff the replay skips the next window, and otherwise keeps the cache a full replay and shows what an uncached call shows |
| HistoryFidelity.CacheIsInvisible | backend/app/analyst/stance_history.py:39-66 | over any sequence of requests, in any order, which ones raise is told from the replay alone, and every answer is the uncached one |
| HistoryFidelity.NextCandleRecovers | backend/app/analyst/stance_history.py:49-57 | a request that raised keeps raising for its candle; the next candle's request is answered as uncached |
| HistoryFidelity.SafeSoFar | backend/app/analyst/stance_history.py:43-66 | with live states missing at will, every answer before the first step over a suspect point is the uncached one, refused windows included |
| HistoryFidelity.FaithfulExactly | backend/app/analyst/stance_history.py:43-66 | under every analysis all answers are uncached iff no request steps over a point drawn from a stale prior |
| HistoryFidelity.CarriedIsSafe | backend/app/analyst/stance_history.py:59-65 | if every request brings its live state none does |
| HistoryFidelity.MissingLiveStateGoesStale | backend/app/analyst/stance_history.py:59-65 | one missing live state: under an analysis that reads its prior the next answer still agrees and the one after it differs |
| HistoryFidelity.SteppingRespectsKin | backend/app/analyst/stance_history.py:128-170 | the directional machine respects stance, transition, pending stance and count, smoothed scores and anchor: nothing else of a prior is ever shown or carried on |
| HistoryFidelity.LivePollsStayInStep | backend/app/analyst/confluence.py:616-642 | polls of one candle at any times leave a live state in step with the replayed one, and so does the first poll of the next candle if it reads the evidence the replay reads |
| SlidingHistory.SlideRefinesReplay | backend/app/analyst/stance_history.py:39-66 | one request on a sliding window raises iff the continued replay skips its window, and otherwise shows what an uncached call on the continued replay's window shows |
| SlidingHistory.SlidingCacheKeepsItsOrigin | backend/app/analyst/stance_history.py:39-66 | over any sequence of sliding requests, live states in step with the replay they continue, every answer is that of an uncached call starting where the latest full replay did |
| SlidingHistory.ReplaysMerge | backend/app/analyst/stance_history.py:101-125 | replays from two starts that meet in related states draw the same points from there on |
| SlidingHistory.MergedRibbonsAgree | backend/app/analyst/stance_history.py:43-66 | 71 drawn points after they meet the two ribbons are the same |
| SlidingHistory.OriginShowsExactly | backend/app/analyst/stance_history.py:101-125 | all analyses draw the same ribbon from two starts iff the starts are one |
| ModuleNames.Sorted | backend/scripts/check_import_cycles.py:74-79 | the ascending list of a set of names, without repetition |
| ModuleNames.BeforeExactly | backend/scripts/check_import_cycles.py:74-79 | names are in the order of strings: a prefix first, otherwise the first differing character decides |
| ModuleNames.CollapseToKnownModule | backend/scripts/check_import_cycles.py:34-42 | the longest known dotted ancestor, None iff there is none |
| ImportCycles.AddImports | backend/scripts/check_import_cycles.py:50-54 | adds exactly the edges of one file |
| ImportCycles.BuildGraph | backend/scripts/check_import_cycles.py:45-55 | the graph has the known modules as keys and exactly the collapsed imports, never a module to itself |
| ImportCycles.CycleFinder.Visit | backend/scripts/check_import_cycles.py:64-77 | restores a stack that is a repetition-free path over the nodes being visited, finishes the node or reports the edge that closes a cycle, each edge once; terminates |
| ImportCycles.FinishedGraphIsAcyclic | backend/scripts/check_import_cycles.py:64-77 | if every edge leads back in finishing order or closes a reported cycle, removing the closing edges leaves no cycle |
| ImportCycles.FindCycles | backend/scripts/check_import_cycles.py:58-81 | empty iff the graph is acyclic; each report a simple cycle, found along a walk that starts at its least name and never passes over an earlier target that lies ahead; no edge blamed twice; cutting the closing edges leaves an acyclic graph |
| ImportCycles.ReportStart | backend/scripts/check_import_cycles.py:58-81 | a report starts at the least of its names, unless a still lesser name outside leads into it |
| ImportCycles.CheckImports | backend/scripts/check_import_cycles.py:84-94 | passes iff the import graph is acyclic; every reported cycle has at least two modules |
| EmaRibbon.Ema | dashboard/lib/emaRibbon.ts:60-70 | fills the array with the seeded exponential average, in place |
| EmaRibbon.RampLag | dashboard/lib/emaRibbon.ts:60-70 | on a straight line an average of period p lags exactly (p-1)/2 candles, like the mean it starts from |
| EmaRibbon.EmaLeadsMean | dashboard/lib/emaRibbon.ts:60-70 | on a rising series the average is at least the running mean, strictly after its seed if strictly rising |
| EmaRibbon.ShorterLeadsLonger | dashboard/lib/emaRibbon.ts:60-70 | on a rising series a shorter average is at least a longer one, strictly if strictly rising |
| EmaRibbon.StatesExactly | dashboard/lib/emaRibbon.ts:67-78 | at every drawn candle: mixed on a zero close, compressed iff every two of the eight averages differ by at most 0.65% of the close, otherwise bullish iff they strictly descend and bearish iff they strictly ascend |
| EmaRibbon.HeadlineExactly | dashboard/lib/emaRibbon.ts:24-58 | the latest state in the same terms; the spread is the largest difference in percent, to two decimals; the price is above or below iff the close is strictly beyond all eight averages |
| EmaRibbon.RibbonExistsExactly | dashboard/lib/emaRibbon.ts:24-25 | there is a ribbon iff there are at least 55 candles |
| EmaRibbon.RibbonOnRisingPrices | dashboard/lib/emaRibbon.ts:24-81 | never bearish on prices that never fall; bullish or compressed, with the price above, on strictly rising prices |
| EmaRibbon.HeadlineIsLastPoint | dashboard/lib/emaRibbon.ts:24-58 | the headline state and values are those of the last drawn points; all averages share one state per candle |
| EmaRibbon.RibbonFlips | dashboard/lib/emaRibbon.ts:24-81 | turning prices upside down turns state, values and price relation upside down and keeps the spread |
| EmaRibbon.RibbonOnFallingPrices | dashboard/lib/emaRibbon.ts:24-81 | never bullish on prices that never rise; bearish or compressed, with the price below, on strictly falling prices |
| RequiredSample.RulesAreTheRulesWithRoots | backend/scripts/required_sample_analysis.py:40-64 | the rules on squares are the coded comparisons, for any numbers that square to the variances |
| RequiredSample.VariancesSpelledOut | backend/scripts/required_sample_analysis.py:40-64 | rates are shares of wins; squared standard errors of one rate and of the pooled one, each with its floor |
| RequiredSample.NonOverlapIsStricterExactly | backend/scripts/required_sample_analysis.py:51-64 | non-overlap implies the two-proportion test on all counts iff the sample is neither 1 nor 4 |
| RequiredSample.Draw | backend/scripts/required_sample_analysis.py:44-45 | counts the next n numbers below p and consumes exactly n |
| RequiredSample.PowerAt | backend/scripts/required_sample_analysis.py:136-139 | the share of trials whose two counts the rule accepts, each count the number of draws of the stream seeded with seed + n below its rate, trial t at 2nt and 2nt + n |
| RequiredSample.PowerIsOrdered | backend/scripts/required_sample_analysis.py:136-158 | at every sample size searched, power and false-positive rate of non-overlap are at most those of the two-proportion test |
| RequiredSample.RequiredN | backend/scripts/required_sample_analysis.py:142-153 | the bisection from 5 to the cap, None if the cap is not enough |
| RequiredSample.RequiredIsLocalMinimum | backend/scripts/required_sample_analysis.py:142-153 | None iff the cap is not enough; otherwise enough, with 5 or a predecessor that is not; the minimum if power is monotone |
| RequiredSample.SmallestExactlyIfMonotone | backend/scripts/required_sample_analysis.py:142-153 | the search finds the smallest enough sample, None iff there is none, under every cap up to a limit iff being enough is monotone up to it |
| RequiredSample.SearchCanMissTheSmallest | backend/scripts/required_sample_analysis.py:142-153 | a one-trial study that is enough at 5 and answered with 7 |
| RequiredSample.AnswerIsEnoughExactly | backend/scripts/required_sample_analysis.py:142-153 | the answer is within the cap and enough iff the cap is at least 5 |
| RequiredSample.TwoProportionNeedsNoMore | backend/scripts/required_sample_analysis.py:142-153 | without assuming monotone power, the two-proportion test never requires a larger sample than non-overlap |
| OverlapSuppression.IndexGroups | backend/app/analyst/confluence.py:919-926 | maps each listed family to the last group listing it |
| OverlapSuppression.FindWinners | backend/app/analyst/confluence.py:928-936 | the earliest strongest item of each group |
| OverlapSuppression.SuppressOverlaps | backend/app/analyst/confluence.py:912-958 | demotes every other grouped item at its position and collects the demoted ones in order |
| OverlapSuppression.BelongsExactly | backend/app/analyst/confluence.py:892-926 | an item is in a group iff it is a directional sweep, prize zone, level or market event whose family is listed there and in no later group |
| OverlapSuppression.FateExactly | backend/app/analyst/confluence.py:928-957 | ungrouped items come back unchanged; the earliest strongest of a group keeps its score and is labelled; every other member is set to zero and names group and winner |
| OverlapSuppression.SuppressedListExactly | backend/app/analyst/confluence.py:938-957 | the second list holds the demoted items as they stand in the first, in its order, and only those |
| OverlapSuppression.OnlyTheStrongestCounts | backend/app/analyst/confluence.py:938-957 | ungrouped items are untouched; a positive score left in a group is its maximum and the only one |
| OverlapSuppression.SuppressedTotal | backend/app/analyst/confluence.py:938-957 | the total is the ungrouped total plus the maximum of each group |
| OverlapSuppression.SuppressionIsIdempotent | backend/app/analyst/confluence.py:912-958 | suppressing again changes no score |

## Left out

- RequiredSample.NonOverlapIsStricterExactly: covers samples up to 600000; the search never looks beyond 2000, and the floor under the variances matters only far above that.
- HistoryFidelity.CacheIsInvisible: is about prefixes of one candle series and one parameter setting; a sliding window is treated in SlidingHistory, a retuned parameter is not noticed by the cache and is not modelled.
- SlidingHistory.SlidingCacheKeepsItsOrigin: is about windows of at least 200 candles that do not reach back behind the replay they continue, or start with it; on shorter ones the analysis of the last candle itself sees different candles.
- HistoryFidelity.LivePollsStayInStep: takes the live poll to read the evidence of the replayed window. The replay sets funding and open interest to zero, so live evidence can differ; the live state then leaves the replay and the theorems about live states in step do not speak of it.
- StanceBands.BandGetsThroughExactly: is about bands that begin below a lead of 1, the largest two non-negative scores can have.
- SteadyScores.SteadyLeadGetsThroughExactly: is about exact arithmetic; with rounding, constant scores are covered by StanceLiveness.ReversalGetsThrough above the flip margin and by StanceBands.BandGetsThroughExactly through the band their smoothed lead stays in.
- Floating point: overflow, NaN and binary representation of decimals; the ribbon's latest close is a finite number, and its spread for a zero close (infinite or NaN in JavaScript) is reported as 0.
- Evidence collection, weighting, recency decay, calibration and HTF labels: table lookups and formatting in front of the scores, which enter as observations with non-negative two-decimal scores.
- Malformed stored states (an unknown stance, missing fields), timestamp formats, time zones: a stored state is a complete record.
- Upper-casing of symbols outside ASCII.
- The `except` branches around the repository, the SQLite variant of the repository, `updated_at`.
- `_legacy_stance_state`, kept for comparisons with the engine before the redesign.
- The thread lock around the replay cache: a call is atomic.
- Chart analysis and confluence construction inside the replay: one deterministic function that yields a verdict or refuses the window; candles arrive in time order; the default reason text is an English stand-in.
- The ribbon's display labels.
- Reading module names from paths and imports from syntax trees: files arrive as names with their imports.
- The McNemar, sequential and effect-size rules of the sample analysis, and report printing.
- The remaining payloads of the gauges (take-profit pressure, overlays, event pills): sums and sorts with no claim across functions.
