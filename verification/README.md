# Bracket advancement, corrections and courts: a Dafny model

A tournament draw is a graph of matches ("play units"). Each side of a match is a slot holding
an entrant, a bye, or a feed of the winner or loser of another match. Recording a result
rewrites the slots that waited for it and then sweeps the draw for walkovers; a correction takes
a result back out of history; reconciliation rebuilds slots from stored results. This project
models that engine and proves what its operations keep over whole runs. It also covers the
algorithms around it that lay matches on courts and rebuild brackets from flat results.

Check the whole project with `dafny verify dfyconfig.toml`.

## How it is organised

The engine is modelled twice, and the two are tied together.

* *Values.* `Bracket` has the data and the single step of recording; `Settling` the walkover sweep
  as a fixpoint that no firing order can change; `Coherence` the invariant of reachable states
  (`Good`) and an independent meaning of a draw (`Outcome`), computed from the generated draw and
  the results that were played. `Outcomes` says what a recorded result, the sweep and a reconciliation
  do to slots and sides without naming the functions that do it. `Runs`, `Conservation`,
  `Reconciliation`, `Correction` and `Knockout` prove properties of whole runs. `Guard` says exactly what goes wrong without the check that both
  participants are known, and `Regeneration` exactly which regenerated draws a correction may use;
  `DoubleElimination` has the draw of their examples.
* *Objects.* `Advancement`, `Repair` and `CorrectionEngine` are the mutating code: classes for play
  units, draws and the tournament state, whose objects are shared, changed by loops. Each method's
  contract gives the new abstract value (`Views`) as a function of the old one. `Frontier` says
  which units a call has changed. `Sessions` closes the gap: on several good draws at once, what the
  methods do to the objects is what the theory says of one draw, for recording, for whole runs, for
  reconciliation and for corrections.
* *Courts.* `LeftEdge`, `Overlap`, `Validation`, `CourtPlacement`, `DemoFloor`, `EarliestFloor`,
  `DemoEvents` and `DemoPlan`, over `Intervals` and `Courts`; `Finite` has facts about sizes of sets.
* *Waves.* `Availability` and `Waves`: what the adapter asks of the constraint solver, round after
  round. The solver is a contract (`Waves.Solves`): it keeps to availability, and books no court and
  no player twice within a solve.
* *Historical brackets.* `Feeders`.

## Readings of the code

* A side is a list of participant ids; `None` and the empty list are both the empty list, since the
  code only ever asks whether a side is empty. An empty id is a bye, as in `fed or BYE`.
* The guard `_require_resolved_play_unit` (`brackets.py:1623-1638`), called before both recording and
  correction (`application.py:186`), asks for two non-empty sides. `Playable` is that guard, and
  `PlayableIffReady` shows that on reachable states it amounts to "all dependencies have results".
* A unit's `round` is its index in `draw.rounds`, in which dependencies come from strictly earlier rounds
  (`formats/_waves.py`). The `round` of a unit's metadata is local to its segment in double elimination, Monrad
  and compass draws; only the check for later Swiss rounds reads it (`correction.py:14-16`), and in Swiss draws it
  is the same number.
* No play unit id is used by two draws: registration refuses a collision (`state.py:119-121`).
* `PlayedProperly` says that the state is a good one for a draw, and both sides of the match were present.
  With that draw regenerated, a correction restores history. The generator returns the same draw for the same
  participants; the code checks this only in part. With a draw that differs in what depends on the match,
  history is restored exactly if the dependents are fed the same (`Regeneration.CorrectOnto`).
* The docstring of `record_result` says it returns the downstream units whose slots were resolved. The
  code also returns units the sweep walked over, and the model follows the code.
* The docstring of `_propagate_recorded_result_into_empty_slots` says only empty sides are repaired. The
  code resynchronises both sides of a unit it touches; `SidesLostExactly` says exactly when that overwrites
  something, and `StaleSideIsLost` is an instance, which no importer or generator makes (`ImportsKeepSides`).
* A draw's untouched rows are those it was generated or imported with. A slot names the first member of
  its side (`import_matches.py:354-355`), so an imported pair has a side of two under a slot of one;
  statements about who is on a side are about that first member.
* The adapter's docstring says the engine never places a match before the current slot. It does if that
  slot is not before the end of the schedule: the window is then dropped (`adapter.py:163-164`), and the
  engine takes a player without windows as free all day (`cpsat_backend.py:465-466`, `backends.py:115-118`).
  `WaveStaysApart` has the exact condition and `LateWaveMeets` an input.
* The demo's unit ids differ between events, as its dictionaries keyed by unit id assume.
* Rows of historical results have distinct identities, which the loader enforces
  (`historical_matches.py:196-206`).

## Model

| member | source | states |
|---|---|---|
| Settling.AnyFirstFiring | apps/api/src/bracket/advancement.py:276-318 | whichever eligible unit is walked over first, the sweep ends in the same state |
| Settling.AnySweepOrder | apps/api/src/bracket/advancement.py:267-320 | any sequence of walkovers that cannot be continued ends in one and the same state: the fixpoint does not depend on iteration order |
| Settling.SettleEnds | apps/api/src/bracket/advancement.py:275-320 | where the sweep ends, no unit has all dependencies in, no result and an empty side |
| Settling.SettleKeepsResult | apps/api/src/bracket/advancement.py:276-320 | the sweep never changes or drops a result |
| Coherence.CoherentStep | apps/api/src/bracket/advancement.py:231-264 | storing a result on a unit whose dependencies are in keeps every slot and side equal to the untouched draw with the recorded results fed forward |
| Coherence.SettleCoherent | apps/api/src/bracket/advancement.py:267-320 | the sweep keeps that invariant, stops at a stable state and adds nothing to the matches that were played |
| Coherence.RecordKeepsGood | apps/api/src/bracket/advancement.py:42-104 | recording a playable match leads from a good state to a good state in which exactly that result has been added to what was played |
| Coherence.RegisteredIsGood | apps/api/src/bracket/state.py:111-126 | the fixpoint of the sweep on the untouched draw, generated or imported, pairs included, is a good state in which nothing was played |
| Coherence.GoodIsOutcome | apps/api/src/bracket/advancement.py:219-320 | in a good state, slots, sides and result of every unit are what an independent recursion over rounds computes from the generated draw and the results played |
| Coherence.GoodStatesAgree | apps/api/src/bracket/advancement.py:219-320 | two good states in which the same matches were played are equal |
| Runs.RunPlays | apps/api/src/bracket/advancement.py:42-104 | every run of accepted results stays among the good states, and what was played at the end is what was entered |
| Runs.Confluence | apps/api/src/bracket/advancement.py:42-104 | two runs that enter the same results in different orders end with the same slots, sides, results and walkovers |
| Runs.NeverStuck | apps/api/src/bracket/advancement.py:267-320 | as long as some unit has no result, some match can be played |
| Runs.PlayableIffReady | apps/api/src/bracket/brackets.py:1623-1631 | in a good state the guard "both participants known" holds of an open unit exactly if all its dependencies have results |
| Runs.ExactRetry | apps/api/src/bracket/application.py:238-254 | popping a result and recording the same one again restores the state, whatever was played downstream |
| Runs.RecordLocal | apps/api/src/bracket/advancement.py:78-90 | from a stable state, recording a result changes only units of its own event |
| Guard.EntryNeedsGuard | apps/api/src/bracket/cli.py:219-227 | where results are entered without the guard, as here: an entry that the recording function accepts keeps a good state good if and only if the guard "both participants known" would have let it pass |
| Guard.EntryLeavesReachable | apps/api/src/bracket/cli.py:219-227 | so it leaves the states that legal runs reach exactly if the guard would have refused it |
| Guard.RunNeedsGuard | apps/api/src/bracket/cli.py:219-227 | a run of accepted entries stays among the good states exactly if it is one the guard lets pass |
| Guard.NeverMadeGood | apps/api/src/bracket/advancement.py:336-385 | an early entry whose loser is fed on leaves a bye in his place, and no entries after it lead back to a good state |
| Guard.OrderShowsWithoutGuard | apps/api/src/bracket/formats/double_elimination.py:105-143 | order independence is false without the guard: in every double elimination draw with two full opening matches, once one is decided the final of their winners and the other match are accepted in both orders, with different ends |
| Guard.FourEntrantsShowOrder | apps/api/src/bracket/formats/double_elimination.py:105-143 | the draw of four entrants is an instance, right after its first match |
| Conservation.ParticipantsConserved | apps/api/src/bracket/advancement.py:231-264 | in every reachable state of a draw with distinct places, a participant is on at most one side of the units without a result, and no unit has the same participant twice |
| Conservation.OutForGood | apps/api/src/bracket/advancement.py:336-385 | whoever loses a match that was a walkover or ended by the reason "retired" or "forfeit", or whose loser no slot takes, is on no side of an open unit in any continuation |
| Outcomes.LoserPlaysOn | apps/api/src/bracket/advancement.py:344-385 | and of a match that was none of these, the slot that takes the loser holds the first of the losing side in every continuation |
| Outcomes.StepInPlainTerms | apps/api/src/bracket/advancement.py:219-264 | a recorded result is stored; a slot that waits for it, of a unit that lists it as a dependency, shows the first of the side that won or lost, or a bye if there is nobody, and nobody for the loser of a walkover, a retirement or a forfeit; the sides follow the slots, and nothing else changes |
| Outcomes.SweepInPlainTerms | apps/api/src/bracket/advancement.py:267-320 | the sweep adds only walkovers of units with an empty side, won by the side that is there, or by nobody; it leaves no unit without a result whose dependencies are in, unless both sides are there; stored results stay |
| Outcomes.ReachableInPlainTerms | apps/api/src/bracket/advancement.py:42-104 | in every reachable state each slot is the one of the untouched draw or what the result it waited for says, sides show slots, and a unit without a result waits for another or has both sides |
| Outcomes.EmptyWinnerFeedsNothing | apps/api/src/bracket/advancement.py:129-134 | when the side of the stored winner of a match is empty after a reconciliation, every slot that waited for the match waits for it still: no bye is made up |
| Outcomes.StoredResultIsFed | apps/api/src/bracket/advancement.py:135-184 | otherwise every empty side that waits for the match takes what its result says |
| Outcomes.FilledStays | apps/api/src/bracket/advancement.py:147-184 | a slot whose side is not empty is never rewritten by a reconciliation |
| Reconciliation.ReconcileRebuilds | apps/api/src/bracket/advancement.py:107-144 | replaying the results of a good state onto the untouched draw in round order gives back every slot and side that recording built step by step |
| Reconciliation.ReconcileTwice | apps/api/src/bracket/advancement.py:107-144 | a second reconciliation changes nothing, on any stored state |
| Reconciliation.ReconcileKeepsSides | apps/api/src/bracket/advancement.py:107-184 | if no row has a stale side (one that contradicts its own concrete slot) beside an empty side that waits for a feeder, no non-empty side is ever overwritten, whatever is stored elsewhere |
| Reconciliation.SidesLostExactly | apps/api/src/bracket/advancement.py:107-184 | a reconciliation in round order overwrites a non-empty side of a unit exactly if its row is of that kind and the stored result of the feeder it waits for can be recovered |
| Reconciliation.SidesKeptForAllResults | apps/api/src/bracket/advancement.py:107-184 | from slots and sides alone: non-empty sides are kept whatever results are stored, exactly if no row of that kind waits for a unit that is replayed |
| Reconciliation.ImportsKeepSides | apps/api/src/bracket/io/import_matches.py:106-138 | imported draws, opening rounds with pairs and historical matches with feeders beside their sides included, never lose a non-empty side when reconciled, as imported or after any recordings, and whatever results are stored then, as the importer stores them without recording them |
| Advancement.RefreshPlayUnitSides | apps/api/src/bracket/advancement.py:388-399 | sides are set from concrete slots and bye slots, and left alone under feeder slots |
| Advancement.ResolveSlots | apps/api/src/bracket/advancement.py:244-263 | both slots of a unit that wait for the result are resolved, and only those; the flag says whether one was |
| Advancement.FeedForward | apps/api/src/bracket/advancement.py:241-264 | after the loop every unit of the draw has received the result, and the units returned are exactly those that waited for it, each once |
| Advancement.RecordAndPropagate | apps/api/src/bracket/advancement.py:219-264 | the session becomes the old one with this single step taken in one draw |
| Advancement.TryWalkover | apps/api/src/bracket/advancement.py:277-318 | a unit is walked over exactly if it is eligible in a registered draw; otherwise nothing changes |
| Advancement.SweepWalkovers | apps/api/src/bracket/advancement.py:267-320 | the while loop ends with every registered draw at its fixpoint, and names exactly the units that changed |
| Advancement.RecordResult | apps/api/src/bracket/advancement.py:42-104 | refusals in the order of the checks, with the session unchanged; otherwise the session is the recorded and settled one, and the list names, once each, exactly the units whose slot or side changed and those other than the recorded one that got a result |
| Repair.ReconcileRecordedResults | apps/api/src/bracket/advancement.py:107-144 | in place, every draw becomes its replay in round order; the list names exactly the units that changed, once each; results are untouched |
| Repair.ReconcileTwiceInPlace | apps/api/src/bracket/advancement.py:107-144 | a second reconciliation in place changes nothing and returns the empty list |
| Repair.AutoWalkoverByes | apps/api/src/bracket/advancement.py:187-213 | after the loop over the opening round the draw is settled if that round had a bye, and unchanged otherwise; stored results, of this draw or others, are kept, and new ones are results of units of the draw |
| Repair.RegistrationIsStable | apps/api/src/bracket/advancement.py:187-213 | registration ends in a stable state exactly if the opening round has a bye or no unit without dependencies has one |
| Repair.RegistrationRegisters | apps/api/src/bracket/advancement.py:187-213 | walking over the byes of an untouched draw gives the state every run starts from, exactly under that condition |
| Repair.RegisterByes | apps/api/src/bracket/advancement.py:187-213 | in place, for every draw whose units without dependencies are all in the opening round, registration ends in the state every run starts from |
| Correction.ErasedIsGood | apps/api/src/bracket/correction.py:18-73 | erasing a played match with no result downstream leaves a good state in which exactly the other matches were played and the match can be played again |
| Correction.CorrectionForgets | apps/api/src/bracket/correction.py:18-73 | the erased state is the end of every run that entered everything but that match |
| Correction.CorrectionRewrites | apps/api/src/bracket/correction.py:18-73 | recording any result on the corrected match gives the end of every run that entered this result in the first place |
| Correction.CorrectionRestores | apps/api/src/bracket/correction.py:18-73 | correcting and recording the same result again restores every slot, side and result |
| Correction.ReplayTowards | apps/api/src/bracket/correction.py:61-66 | replaying one retained result is always accepted and goes on towards the erased state |
| Correction.ReplayFindsReady | apps/api/src/bracket/correction.py:55-60 | among retained results of a coherent state that are not replayed yet one is always ready |
| Correction.ReplayArrives | apps/api/src/bracket/correction.py:55-71 | when all retained results are in, the regenerated draw is the erased state |
| Correction.GoodIffReachable | apps/api/src/bracket/advancement.py:42-104 | the invariant is exact: a state is good if and only if some run of accepted results from the registered draw ends in it |
| CorrectionEngine.CollectDependents | apps/api/src/bracket/correction.py:18-24 | the frontier loop computes exactly the transitive dependents |
| CorrectionEngine.ReplayRetained | apps/api/src/bracket/correction.py:54-66 | from the regenerated draw the replay loop never fails on the results of a good state and ends in it; on results that are closed under dependencies it always finds a ready one, so the refusal inside the loop is unreachable; from any other state it ends too |
| CorrectionEngine.CopyDependents | apps/api/src/bracket/correction.py:67-71 | slots and sides of the dependents are replaced by those of the regenerated draw, all others kept |
| CorrectionEngine.PrepareCorrection | apps/api/src/bracket/correction.py:8-73 | refusals in the order of the checks and then of the replay, each leaving draws, results and assignments unchanged; in particular if any dependent has a result or an assignment with an actual start; a failed replay only if no good state of the regenerated draw has the retained results, and for want of a ready result only if the recorded results are not closed under dependencies; otherwise the dependents, their assignments gone, the result of the match gone and all others kept, rows outside the dependents and other draws untouched, and the rows of the dependents those of every good state of the regenerated draw with the retained results |
| CorrectionEngine.VerdictInPlainTerms | apps/api/src/bracket/correction.py:14-45 | what is refused before anything is replayed, in this order: in Swiss draws, if a later round has been paired; if some dependent has a result or an assignment with an actual start; and, if anything depends on the match, if the regenerated draw has other units, dependencies or opening slots |
| Regeneration.RestoresExactly | apps/api/src/bracket/correction.py:61-71 | for any regenerated draw of the same graph: copying the dependents restores the state as if the match had not been played if and only if every slot of a dependent resolves, in the replayed state, to what it was without that match |
| Regeneration.OtherRetains | apps/api/src/bracket/correction.py:54-66 | a regenerated draw that differs from the registered one only at dependents of the match always replays |
| Regeneration.RestoresIfSameFeeds | apps/api/src/bracket/correction.py:40-71 | for such a draw the condition can be checked before anything is replayed: on the two draws and the results that are kept |
| Regeneration.CorrectOnto | apps/api/src/bracket/correction.py:8-73 | in place, with such a draw the comparison passes, the correction succeeds unless it is blocked, and it restores the draw as if the match had not been played if and only if that condition holds |
| Regeneration.CorrectTwisted | apps/api/src/bracket/correction.py:40-45 | the comparison does not look at the takes of later slots: it lets pass a double elimination draw that swaps the winner and the loser of the corrected match, as a changed generator might, and the correction then does not restore the draw, whatever else was played |
| Sessions.RecordingIsLocal | apps/api/src/bracket/advancement.py:78-90 | in a session of good draws recording a match is recording it in its own draw; the sweep over all draws leaves the others alone |
| Sessions.PlayRun | apps/api/src/bracket/advancement.py:42-104 | entering the results of a run in place ends with the objects holding the state of the run |
| Sessions.AcceptedExactly | apps/api/src/bracket/advancement.py:59-76 | the checks let a result pass exactly if its unit is in a registered draw and there has no result yet and somebody on the side that won |
| Sessions.RebuildSession | apps/api/src/bracket/advancement.py:107-144 | in place, reconciling untouched draws with the stored results of a good session gives back that session, and the list names exactly the rebuilt units |
| Sessions.ReconcileLoaded | apps/api/src/bracket/brackets.py:1064-1067 | in place, reconciling a good session, as is done whenever one is loaded, changes nothing and returns the empty list |
| Sessions.CorrectPlayed | apps/api/src/bracket/correction.py:8-73 | in place, a played match of a good session is corrected exactly if no later Swiss round has been paired and no dependent has a result or an assignment that started; then only its draw changes, to the state as if it had not been played |
| Sessions.CorrectAndRecord | apps/api/src/bracket/application.py:186-262 | in place, correcting a match and recording it anew ends in a good session with the new result played and everything else as before; with the old result the draws are as before |
| Sessions.CorrectThenRecord | apps/api/src/bracket/application.py:186-262 | of the values: after a correction the match can be recorded at once; with the old result the whole session is restored, with another one that result counts as played and everything else stays |
| Knockout.Generate | apps/api/src/bracket/formats/single_elimination.py:189-267 | the loop over rounds builds a knockout draw: the i-th unit of a round is fed by the winners of units 2i and 2i + 1 of the round before, or by those entries, down to one final; it refuses exactly sizes that are not a power of two of at least two |
| Knockout.KnockoutIsWellBuilt | apps/api/src/bracket/formats/single_elimination.py:205-267 | the feeders of a generated draw are its dependencies, always from earlier rounds |
| Knockout.RoundCounts | simulator/tournament_sim/seed.py:3290-3302 | a decided round eliminates as many entrants as it had contested matches, and never all of them |
| Knockout.OneChampion | simulator/tournament_sim/seed.py:3250-3303 | a complete knockout draw of n entrants has one of them as winner of the final and n - 1 units with a result and somebody on both sides, whatever the byes |
| Knockout.EveryKnockoutRun | apps/api/src/bracket/advancement.py:42-104 | every run that is played out enters exactly n - 1 results and crowns one of the entrants |
| Knockout.KnockoutPlacesDistinct | apps/api/src/bracket/formats/single_elimination.py:205-267 | a knockout draw of different entrants has no entrant and no feed in two places |
| Knockout.LosersAreOut | apps/api/src/bracket/advancement.py:231-264 | whoever loses a match of a knockout draw is on no side of an open unit afterwards |
| LeftEdge.LegalNeedsCourts | packages/scheduler-core/benchmarks/bench_court_encoding.py:132-139 | no legal colouring uses fewer courts than there are matches alive at any slot |
| LeftEdge.ColourLeftEdge | packages/scheduler-core/benchmarks/bench_court_encoding.py:132-151 | matches on one court never overlap, a match is on a higher court only if on every lower one a match before it is still on, and the courts used are exactly as many as the matches on at the busiest slot |
| LeftEdge.CapacityIsEnough | packages/scheduler-core/benchmarks/bench_court_encoding.py:104-109 | a cumulative capacity that is never exceeded is enough courts, and no legal colouring needs fewer than the left edge |
| Overlap.NoOverlapPairwise | simulator/tournament_sim/invariants.py:67-72 | freedom from overlaps is about every pair of windows |
| Overlap.NoOverlapInPlainTerms | simulator/tournament_sim/invariants.py:179-185 | which pairs are meant by all windows, by those of the current wave with any others, and by those of earlier waves |
| Overlap.NeighboursDecide | simulator/tournament_sim/invariants.py:67-72 | of sorted non-empty windows no two overlap exactly if no neighbours do |
| Overlap.AllClashes | packages/scheduler-core/benchmarks/bench_court_encoding.py:160-164 | sorting and comparing neighbours reports nothing exactly if no two windows overlap, and exactly the neighbours that do |
| Overlap.WaveCheckDecides | simulator/tournament_sim/invariants.py:179-185 | the check of a wave accepts exactly the clear waves, for every wave laid over given earlier windows, if and only if wherever an earlier window lies the last one that has started lies there too |
| Overlap.WaveClashes | simulator/tournament_sim/invariants.py:179-185 | the check reports exactly the neighbours that overlap with one of them in the wave, and none exactly if the wave is clear, provided the earlier windows meet that condition, as they do if they do not overlap |
| Overlap.WaveClashMissed | simulator/tournament_sim/invariants.py:179-185 | a wave it accepts although it overlaps an earlier match: a short match stands between the two |
| Validation.ClashesByKey | simulator/tournament_sim/invariants.py:67-90 | grouping windows by court or player and checking each group reports nothing exactly if windows with the same key never overlap |
| Validation.CheckSchedule | simulator/tournament_sim/invariants.py:38-91 | the validator returns no violation exactly if the solver succeeded and the schedule is sound; an unsolved one is only reported as such; ids assigned twice, unknown or missing are all reported, and overlaps only where there are some |
| Validation.SoundInPlainTerms | simulator/tournament_sim/invariants.py:48-91 | sound means: every match assigned once or declared unscheduled, nothing else assigned, assigned matches on one court or with a player in common apart, and nobody listed twice in a match |
| CourtPlacement.Soonest | simulator/tournament_sim/seed.py:2378 | the court chosen is free soonest at or after the wish, the lowest of several |
| CourtPlacement.WaitsOnlyForCourts | simulator/tournament_sim/seed.py:2371-2380 | a match that is not pinned starts after its wish only if every court is occupied at every slot in between |
| CourtPlacement.DelayIsBounded | simulator/tournament_sim/seed.py:2371-2380 | number of courts times delay is at most the total duration of what was placed before |
| CourtPlacement.WishesAreKept | simulator/tournament_sim/seed.py:2371-2380 | if wishes are never more than the courts deep, every match gets exactly its wish |
| CourtPlacement.DoubleBookedOnlyByPins | simulator/tournament_sim/seed.py:2371-2380 | no court is double-booked exactly if every pinned match finds its court free when its turn comes; in particular never without pinned matches |
| CourtPlacement.PlaceOnCourts | simulator/tournament_sim/seed.py:2353-2391 | the loop places the requests as the lemmas here say, sorted by the slot they ask for and, for the same slot, by their order |
| Intervals.SortIsStable | simulator/tournament_sim/seed.py:2373 | requests with the same slot and order keep the order they came in |
| CourtPlacement.LowerCourtsAreTaken | simulator/tournament_sim/seed.py:2378 | a match that is not pinned is on a higher court only if on every lower one an earlier placement is still on when it starts |
| CourtPlacement.SameWishInTurn | simulator/tournament_sim/seed.py:2373-2380 | of two matches that ask for the same slot, neither pinned, the one placed first starts first, or at the same time on a lower court |
| DemoFloor.SessionSlot | simulator/tournament_sim/seed.py:2430-2432 | a match is never placed earlier than asked, ends within a session, and is moved only if it would not |
| DemoFloor.BestCourtIsBest | simulator/tournament_sim/seed.py:2445 | no court offers an earlier slot, and no lower court the same one |
| DemoFloor.PlaceRounds | simulator/tournament_sim/seed.py:2417-2456 | courts never overlap, everybody has a free slot between two matches, a round starts after the round before has ended, and every match lies in the session of one day |
| DemoFloor.EveryMatchIsPlaced | simulator/tournament_sim/seed.py:2434-2454 | every completed match is placed, under its own round |
| DemoFloor.OnlyMatchesArePlaced | simulator/tournament_sim/seed.py:2434-2454 | nothing else is placed |
| EarliestFloor.ChronologyIsEarliest | simulator/tournament_sim/seed.py:2434-2456 | every finished match has the first slot, and of several courts the lowest, that the matches listed before it leave open: a court free, a slot of rest for its people, a round a slot after the round before, and slots 0 to 20 of a day of 48 |
| EarliestFloor.ChronologyInOrder | simulator/tournament_sim/seed.py:2434-2454 | the chronology takes the finished matches round by round and in the order each round lists them, each once |
| DemoFloor.CompletedPlacements | simulator/tournament_sim/seed.py:2417-2456 | the loops compute that chronology, and refuse exactly if one of its matches ends at slot 152 or later |
| DemoEvents.AllStartableOnce | simulator/tournament_sim/seed.py:2394-2414 | no match is listed twice among those that could be played now, over all events |
| DemoEvents.StartableInPlainTerms | simulator/tournament_sim/seed.py:2394-2414 | a match could be played now exactly if it has no result and every match of its event that feeds it has one |
| DemoEvents.EventInTurn | simulator/tournament_sim/seed.py:2407-2413 | the matches of an event are listed round by round, and as each round lists them |
| DemoEvents.EventsInTurn | simulator/tournament_sim/seed.py:2493-2497 | all matches are listed event by event, and as each event lists them |
| DemoEvents.FinishedRoundInTurn | simulator/tournament_sim/seed.py:2436-2440 | the finished matches of a round are taken event by event, and as each event lists them |
| DemoEvents.LiveWave | simulator/tournament_sim/seed.py:2482-2489 | the live wave has different matches that could be played now, as many as there are courts or such matches; it takes the first of every event before any others, and otherwise goes event by event in the order they are listed |
| DemoPlan.ListItems | simulator/tournament_sim/seed.py:2492-2558 | the loop lists finished matches, the live wave and matches to come, each with its position among the matches to come of its round, and skips the others that could be played now |
| DemoPlan.PlanNeverDoubleBooks | simulator/tournament_sim/seed.py:2459-2559 | completed matches, the live wave and later wishes together never book a court twice |
| DemoPlan.PlanFloor | simulator/tournament_sim/seed.py:2459-2559 | refused exactly if a finished match ends at slot 152 or later; otherwise finished matches are where the chronology has them, those of the live wave from slot 152 on courts of their own, those waiting nowhere, and all others once, from 154, 192, 206, 240 or 246 by their round and two slots later for every floor-full of matches to come listed before, exactly then unless every court is taken until they start, in the order they are listed; no court is taken twice |
| Feeders.InferWinnerFeeders | simulator/tournament_sim/seed.py:1712-1758 | the loop over the rows, and the removal of claims made twice, leave exactly the sole claims |
| Feeders.FeedersInPlainTerms | simulator/tournament_sim/seed.py:1708-1753 | a match feeds a side exactly if its winner plays there, a round later, it is the only match of the round before won by that team, and the same is true of no other side |
| Feeders.FeedersAreListed | simulator/tournament_sim/seed.py:1726-1753 | only sides of listed matches are fed, and only by listed matches |
| Feeders.FeederWasWon | simulator/tournament_sim/seed.py:1708-1709 | if a side is fed by a match, the team of the side is the one that won it, side A if it was won by A and side B if not, in the round before |
| Feeders.FeedersAreInjective | simulator/tournament_sim/seed.py:1744-1753 | no match feeds two sides |
| Feeders.OrderDoesNotMatter | simulator/tournament_sim/seed.py:1712-1758 | shuffling the input does not change the inferred map |
| Feeders.InferredAreThere | simulator/tournament_sim/seed.py:1733-1741 | every inferred feeder is a match of the round before |
| Feeders.BesideIsPermutation | simulator/tournament_sim/seed.py:1779-1788 | ordering a round loses no match and lists none twice |
| Feeders.FeedersAreBeside | simulator/tournament_sim/seed.py:1779-1788 | when every side is proven, the feeders of the i-th match stand at 2i and 2i + 1 |
| Feeders.FeedersInTurn | simulator/tournament_sim/seed.py:1780-1788 | proven or not elsewhere: of two feeders of a round, the one of the earlier match, or of side A of the same match, comes first |
| Feeders.FeedersComeFirst | simulator/tournament_sim/seed.py:1786-1788 | no match that feeds nothing in the round comes before one that does |
| Feeders.OthersInTurn | simulator/tournament_sim/seed.py:1787-1788 | matches that feed nothing in the round keep the order they had |
| Feeders.OrderMatchesByTopology | simulator/tournament_sim/seed.py:1775-1789 | working back from the last round, every round ends up ordered beside the final order of the round it feeds |
| Feeders.RebuildRounds | simulator/tournament_sim/seed.py:1816-1818 | from flat rows: every round keeps its matches, each once, and where every side of a round is proven the feeders of its i-th match stand at 2i and 2i + 1 of the final order of the round before |
| Availability.ClippedOpen | apps/api/src/bracket/player_constraints.py:74-84 | cutting windows to a bound keeps exactly the slots of the windows within the bound |
| Availability.IntersectWindowLists | apps/api/src/bracket/player_constraints.py:87-102 | the windows two lists have in common, sorted: open exactly where both are |
| Availability.ResolveExtras | apps/api/src/bracket/adapter.py:210-258 | a team allows the slots all its restricted members do, with the longest rest; no windows if nobody is restricted or they have no slot in common |
| Availability.WhoStandsForWhom | apps/api/src/bracket/adapter.py:113-134 | a team with members stands for them; any other id, known or not, stands for itself |
| Availability.BuildPlayers | apps/api/src/bracket/adapter.py:136-207 | in a round with slots every player has windows, all inside the round, open exactly where the player, or the team, allows it, or all over the round if that is nowhere; in a round without slots nobody has windows |
| Waves.Driver.AdvanceCurrentSlot | apps/api/src/bracket/adapter.py:261-279 | the next slot is no earlier than any end, recorded or else planned, plus the rest, and as early as that allows |
| Waves.Driver.BuildProblem | apps/api/src/bracket/adapter.py:37-110 | the problem asks for exactly the ready matches, each for its expected slots, or one, with everybody on either side, and for the availability above |
| Waves.WaveStaysApart | apps/api/src/bracket/adapter.py:96-102 | whatever solution the engine finds, the new wave starts after all earlier matches have ended and rested exactly if the next slot is before the end of the schedule |
| Waves.LateWaveMeets | apps/api/src/bracket/adapter.py:162-166 | otherwise the wave can be laid on top of an earlier match, on the same court at the same time |
| Waves.ClockStaysApart | apps/api/src/bracket/application.py:714-737 | recording or clearing the end of a match keeps waves apart exactly if everything that waits for the match still starts late enough |
| Waves.NoLaterIsInTime | apps/api/src/bracket/application.py:716-726 | which it does if the match ends no later than expected so far, or no later than planned before the next wave is placed |
| Waves.WavesStayApart | apps/api/src/bracket/scheduler.py:69-131 | over any run of solves and recorded ends, the waves are apart throughout exactly if every step meets its condition |
| Waves.NobodyIsCalledTwice | apps/api/src/bracket/scheduler.py:69-131 | after such a run no court and no player has two matches at the same time |
| Waves.ApartInPlainTerms | apps/api/src/bracket/adapter.py:96-102 | what apart means: a match has ended, as recorded or else as planned, and had its rest before any match of a later wave starts, and has ended before what follows it in its wave on its court or with one of its players |
| Waves.Driver.ScheduleNextRound | apps/api/src/bracket/scheduler.py:69-131 | in place, the ready matches are added as one wave where the solution has them, their clocks not set, by a step the statements above are about; otherwise nothing changes |
| Waves.Driver.RecordEnd | apps/api/src/bracket/application.py:714-737 | in place, recording or clearing the end of a match is such a step too |

## Left out

- The registry of units and its order are constants, so registering a second draw into a live state is not a step of the model; the operations above never change them.
- A copy of the whole state is made before a correction replays results; the model builds a fresh state that shares the unit objects of other draws, which the replay does not touch.
- CorrectionEngine.ReplayRetained: retained results are replayed in the order of the draw's units instead of the order they were stored in; by confluence only the choice of error in a state that is not good could differ.
- CorrectionEngine.PrepareCorrection: the sorted list of dependents is returned as a set.
- Advancement.ResolveSlots: slots are written once per unit after both sides have been looked at, where the code writes the pair after each side.
- Scores, timestamps and reasons are opaque values; only the reasons "retired" and "forfeit" matter.
- Idempotency keys, version checks, validation of scores, persistence and HTTP errors around the result command.
- Seeding and placement of entrants into a bracket, and the generators of other formats; the regenerated draw of a correction is a parameter.
- Historical matches that name their sides beside the feeders they came from are outside the invariant of reachable states; only what reconciliation keeps of their sides is stated.
- Knockout.Generate: unit ids come from an injective naming function instead of formatted strings.
- CourtPlacement.PlaceOnCourts: a pin to a court that does not exist, or a floor without courts, raises an error in the code and is excluded by a precondition; durations are positive.
- DemoFloor.CompletedPlacements: takes the finished matches of each round, event by event, which `DemoEvents.FinishedRounds` filters from the events; durations of 1 to 20 slots.
- DemoPlan.PlanFloor: the plan of the live tournament only; those of other tournaments take wishes from dates and pin nothing, so `CourtPlacement.DoubleBookedOnlyByPins` covers them. How dates and times are turned into slots.
- DemoPlan.ListItems: the nested loops over events, rounds and matches go over the list of entries they visit.
- Windows with the same start and end are not ordered by match id; which of two such windows is named first in a report may differ. Messages of violations are reduced to their kind and the clash.
- Feeders: the count of ambiguous sides, and sorting each round by date before it is ordered by topology.
- Waves: re-pinning a placed match and generating one event at a time, which do not advance the slot; breaks and closed courts, which only narrow what a solution may be; the rest of single players within a wave, a constraint of the engine's own.
- Availability: turning times of day into slots; a player's rest is computed for teams and not used by the statements about waves.
- Swiss pairing, round robin, and the constraint solver itself.
