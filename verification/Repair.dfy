/** Reconciliation and registration in place. */
module Repair {
  import opened Bracket
  import Settling
  import opened Frontier
  import opened Coherence
  import opened Reconciliation
  import opened Advancement

  // ---- reconciliation -------------------------------------------------------

  lemma FillGrows(g: Graph, st: Facts, u: UnitId, v: UnitId)
    requires Fits(g, st) && v in g
    ensures GrownRow(st.rows[v], ReplayOne(g, st, u).rows[v])
    ensures RowChanged(st, ReplayOne(g, st, u), v) <==> Replayable(st, u) && Fills(g, u, v, st.rows[v])
  {
  }

  lemma ReplayOneIsGrown(g: Graph, st: Facts, u: UnitId)
    requires Fits(g, st)
    ensures Fits(g, ReplayOne(g, st, u)) && Grown(st, ReplayOne(g, st, u))
  {
    forall v | v in st.rows
      ensures GrownRow(st.rows[v], ReplayOne(g, st, u).rows[v])
    {
      FillGrows(g, st, u, v);
    }
  }

  lemma {:induction false} ReplayAppend(g: Graph, st: Facts, ids: seq<UnitId>, u: UnitId)
    ensures Replay(g, st, ids + [u]) == ReplayOne(g, Replay(g, st, ids), u)
    decreases |ids|
  {
    if ids == [] {
      assert [] + [u] == [u] && [u][1..] == [];
    } else {
      assert (ids + [u])[1..] == ids[1..] + [u];
      ReplayAppend(g, ReplayOne(g, st, ids[0]), ids[1..], u);
    }
  }

  function Flatten(rounds: seq<seq<UnitId>>): seq<UnitId> {
    if rounds == [] then [] else Flatten(rounds[..|rounds| - 1]) + rounds[|rounds| - 1]
  }

  /** Replaying one stored result into the draw of `event`. */
  ghost function ReplayStep(draws: Draws, views: map<EventId, Facts>, event: EventId,
                            u: UnitId): (views': map<EventId, Facts>)
    requires event in draws && event in views
    ensures views'.Keys == views.Keys
  {
    views[event := ReplayOne(DrawGraph(draws[event]), views[event], u)]
  }

  lemma ReplayAssembles(draws: Draws, event: EventId, u: UnitId, results: map<UnitId, Result>,
                        rows: map<EventId, map<UnitId, Row>>)
    requires DrawsWired(draws) && rows.Keys == draws.Keys
    requires event in draws && u in draws[event].playUnits && rows[event].Keys == draws[event].playUnits.Keys
    requires u in results && Supported(rows[event][u], results[u])
    ensures Assemble(draws, Spread(draws, rows, event, u, results[u], true), results) ==
      ReplayStep(draws, Assemble(draws, rows, results), event, u)
  {
    var views := Assemble(draws, rows, results);
    var spread := Spread(draws, rows, event, u, results[u], true);
    MapsEqual(spread[event], ReplayOne(DrawGraph(draws[event]), views[event], u).rows);
    MapsEqual(Assemble(draws, spread, results), ReplayStep(draws, views, event, u));
  }

  /** The stored result of `u` fills an empty side of `v`. */
  predicate ReplayReaches(draws: Draws, views: map<EventId, Facts>, event: EventId, u: UnitId, v: UnitId)
    requires event in draws && event in views && views[event].rows.Keys == draws[event].playUnits.Keys
  {
    && v in draws[event].playUnits && Replayable(views[event], u)
    && Fills(DrawGraph(draws[event]), u, v, views[event].rows[v])
  }

  lemma NothingReplayed(draws: Draws, views: map<EventId, Facts>, event: EventId, u: UnitId)
    requires event in draws && event in views && !Replayable(views[event], u)
    ensures ReplayStep(draws, views, event, u) == views
  {
    MapsEqual(ReplayStep(draws, views, event, u), views);
  }

  method ReplaySupported(state: TournamentState, draws: Draws, draw: Draw, u: UnitId) returns (changed: seq<UnitId>)
    requires DrawsWired(draws) && Slotted(draws)
    requires draw.event in draws && draws[draw.event] == draw && u in draw.playUnits
    requires u in state.results && Supported(RowAt(draw, u), state.results[u])
    modifies draw, draw.playUnits.Values
    ensures Slotted(draws)
    ensures Views(state, draws) == ReplayStep(draws, old(Views(state, draws)), draw.event, u)
    ensures NoDuplicates(changed)
    ensures forall v :: v in changed <==> ReplayReaches(draws, old(Views(state, draws)), draw.event, u, v)
  {
    ghost var rows, results := AllRows(draws), state.results;
    var from := RowAt(draw, u);
    ReplayAssembles(draws, draw.event, u, results, rows);
    label replay:
    changed := FeedAll(draws, draw, u, from, state.results[u], true);
    assert unchanged@replay(state) by { assert forall o :: o in draw.playUnits.Values ==> (o as object) != state; }
    assert Views(state, draws) == Assemble(draws, Spread(draws, rows, draw.event, u, results[u], true), results);
  }

  /** Project the stored result of `u`, if it can be recovered, into empty successor sides. */
  method ReplayRecorded(state: TournamentState, draws: Draws, draw: Draw, u: UnitId) returns (changed: seq<UnitId>)
    requires DrawsWired(draws) && Slotted(draws)
    requires draw.event in draws && draws[draw.event] == draw && u in draw.playUnits
    modifies draw, draw.playUnits.Values
    ensures Slotted(draws)
    ensures Views(state, draws) == ReplayStep(draws, old(Views(state, draws)), draw.event, u)
    ensures NoDuplicates(changed)
    ensures forall v :: v in changed <==> ReplayReaches(draws, old(Views(state, draws)), draw.event, u, v)
  {
    assert Views(state, draws)[draw.event].rows[u] == RowAt(draw, u);
    if u in state.results && Supported(RowAt(draw, u), state.results[u]) {
      changed := ReplaySupported(state, draws, draw, u);
    } else {
      NothingReplayed(draws, Views(state, draws), draw.event, u);
      changed := [];
    }
  }

  /** `touched` names, once each, the units whose slots or sides changed. */
  ghost predicate Moved(draws: Draws, start: map<EventId, Facts>, views: map<EventId, Facts>, touched: seq<UnitId>)
    requires start.Keys == views.Keys == draws.Keys
  {
    && NoDuplicates(touched) && (forall v :: v in touched ==> v in IdsOf(draws))
    && (forall e, v :: e in draws && v in draws[e].playUnits ==> (v in touched <==> RowChanged(start[e], views[e], v)))
  }

  ghost predicate Replaying(draws: Draws, start: map<EventId, Facts>, views: map<EventId, Facts>, touched: seq<UnitId>)
  {
    && start.Keys == views.Keys == draws.Keys
    && (forall e :: e in draws ==> Fits(DrawGraph(draws[e]), views[e]) && Grown(start[e], views[e]))
    && Moved(draws, start, views, touched)
  }

  lemma ReplayingStepAt(draws: Draws, start: map<EventId, Facts>, views: map<EventId, Facts>, event: EventId, u: UnitId,
                        e: EventId, v: UnitId)
    requires DrawsWired(draws) && start.Keys == views.Keys == draws.Keys && event in draws
    requires Fits(DrawGraph(draws[event]), views[event]) && Grown(start[event], views[event])
    requires e in draws && v in draws[e].playUnits
    ensures RowChanged(start[e], ReplayStep(draws, views, event, u)[e], v) <==>
      RowChanged(start[e], views[e], v) || ReplayReaches(draws, views, event, u, v)
  {
    if e == event {
      ReplayOneIsGrown(DrawGraph(draws[e]), views[e], u);
      ChangesAddUp(start[e], views[e], ReplayStep(draws, views, event, u)[e], v);
      FillGrows(DrawGraph(draws[e]), views[e], u, v);
    } else {
      assert v !in draws[event].playUnits;
    }
  }

  lemma ReplayingStep(draws: Draws, start: map<EventId, Facts>, views: map<EventId, Facts>, touched: seq<UnitId>,
                      event: EventId, u: UnitId, changed: seq<UnitId>, touched': seq<UnitId>)
    requires DrawsWired(draws) && Replaying(draws, start, views, touched) && event in draws
    requires forall v :: v in changed <==> ReplayReaches(draws, views, event, u, v)
    requires Merged(touched, changed, touched')
    ensures Replaying(draws, start, ReplayStep(draws, views, event, u), touched')
  {
    var views' := ReplayStep(draws, views, event, u);
    ReplayOneIsGrown(DrawGraph(draws[event]), views[event], u);
    GrownTransitive(start[event], views[event], views'[event]);
    forall e, v | e in draws && v in draws[e].playUnits
      ensures v in touched' <==> RowChanged(start[e], views'[e], v)
    {
      ReplayingStepAt(draws, start, views, event, u, e, v);
    }
  }

  /** Replay one stored result and note the units it changed. */
  method ReplayAndNote(state: TournamentState, draws: Draws, draw: Draw, u: UnitId,
                       ghost start: map<EventId, Facts>, ghost views: map<EventId, Facts>, touched: seq<UnitId>)
    returns (touched': seq<UnitId>)
    requires DrawsWired(draws) && Slotted(draws)
    requires draw.event in draws && draws[draw.event] == draw && u in draw.playUnits
    requires Views(state, draws) == views && Replaying(draws, start, views, touched)
    modifies draw, draw.playUnits.Values
    ensures Slotted(draws)
    ensures Views(state, draws) == ReplayStep(draws, views, draw.event, u)
    ensures Replaying(draws, start, ReplayStep(draws, views, draw.event, u), touched')
  {
    var changed := ReplayRecorded(state, draws, draw, u);
    touched' := touched;
    assert Moved(draws, start, views, touched);
    for i := 0 to |changed|
      invariant Slotted(draws) && Views(state, draws) == ReplayStep(draws, views, draw.event, u)
      invariant Merged(touched, changed[..i], touched')
    {
      MergedOneMore(touched, changed, i, touched');
      if changed[i] !in touched' {
        touched' := touched' + [changed[i]];
      }
    }
    MergedAll(touched, changed, touched');
    ReplayingStep(draws, start, views, touched, draw.event, u, changed, touched');
  }

  /** Every listed unit is a unit of the draw. */
  predicate Listable(draw: Draw) {
    forall round | round in draw.rounds :: forall u | u in round :: u in draw.playUnits
  }

  /** Replaying a list of units, in order, in the draw of `event`. */
  ghost function ReplayIds(draws: Draws, views: map<EventId, Facts>, event: EventId,
                           ids: seq<UnitId>): (views': map<EventId, Facts>)
    requires event in draws && event in views
    ensures views'.Keys == views.Keys
  {
    views[event := Replay(DrawGraph(draws[event]), views[event], ids)]
  }

  lemma ReplayNoIds(draws: Draws, views: map<EventId, Facts>, event: EventId)
    requires event in draws && event in views
    ensures ReplayIds(draws, views, event, []) == views
  {
    MapsEqual(ReplayIds(draws, views, event, []), views);
  }

  lemma ReplayOneMore(draws: Draws, views: map<EventId, Facts>, event: EventId, ids: seq<UnitId>, i: nat)
    requires event in draws && event in views && i < |ids|
    ensures ReplayStep(draws, ReplayIds(draws, views, event, ids[..i]), event, ids[i]) ==
      ReplayIds(draws, views, event, ids[..i + 1])
  {
    ReplayAppend(DrawGraph(draws[event]), views[event], ids[..i], ids[i]);
    assert ids[..i + 1] == ids[..i] + [ids[i]];
  }

  lemma {:induction false} ReplayConcat(g: Graph, st: Facts, ids: seq<UnitId>, more: seq<UnitId>)
    ensures Replay(g, st, ids + more) == Replay(g, Replay(g, st, ids), more)
    decreases |ids|
  {
    if ids == [] {
      assert [] + more == more;
    } else {
      assert (ids + more)[0] == ids[0] && (ids + more)[1..] == ids[1..] + more;
      ReplayConcat(g, ReplayOne(g, st, ids[0]), ids[1..], more);
    }
  }

  /** Replay the results of one round of one draw. */
  method ReplayRound(state: TournamentState, draws: Draws, draw: Draw, round: seq<UnitId>,
                     ghost start: map<EventId, Facts>, ghost before: map<EventId, Facts>, touched: seq<UnitId>)
    returns (touched': seq<UnitId>)
    requires DrawsWired(draws) && Slotted(draws) && draw.event in draws && draws[draw.event] == draw
    requires forall u :: u in round ==> u in draw.playUnits
    requires Views(state, draws) == before && Replaying(draws, start, before, touched)
    modifies draw, draw.playUnits.Values
    ensures Slotted(draws)
    ensures Views(state, draws) == ReplayIds(draws, before, draw.event, round)
    ensures Replaying(draws, start, ReplayIds(draws, before, draw.event, round), touched')
  {
    touched' := touched;
    ReplayNoIds(draws, before, draw.event);
    ghost var views := before;
    for i := 0 to |round|
      invariant Slotted(draws) && Views(state, draws) == views
      invariant views == ReplayIds(draws, before, draw.event, round[..i])
      invariant Replaying(draws, start, views, touched')
    {
      touched' := ReplayAndNote(state, draws, draw, round[i], start, views, touched');
      ReplayOneMore(draws, before, draw.event, round, i);
      views := ReplayIds(draws, before, draw.event, round[..i + 1]);
    }
    assert round[..|round|] == round;
  }

  lemma ReplayRoundMore(draws: Draws, views: map<EventId, Facts>, event: EventId, rounds: seq<seq<UnitId>>, i: nat)
    requires event in draws && event in views && i < |rounds|
    ensures ReplayIds(draws, ReplayIds(draws, views, event, Flatten(rounds[..i])), event, rounds[i]) ==
      ReplayIds(draws, views, event, Flatten(rounds[..i + 1]))
  {
    assert rounds[..i + 1][..i] == rounds[..i] && rounds[..i + 1][i] == rounds[i];
    ReplayConcat(DrawGraph(draws[event]), views[event], Flatten(rounds[..i]), rounds[i]);
  }

  method ReplayDraw(state: TournamentState, draws: Draws, draw: Draw,
                    ghost start: map<EventId, Facts>, ghost before: map<EventId, Facts>, touched: seq<UnitId>)
    returns (touched': seq<UnitId>)
    requires DrawsWired(draws) && Slotted(draws) && draw.event in draws && draws[draw.event] == draw && Listable(draw)
    requires Views(state, draws) == before && Replaying(draws, start, before, touched)
    modifies draw, draw.playUnits.Values
    ensures Slotted(draws)
    ensures Views(state, draws) == ReplayIds(draws, before, draw.event, Flatten(draw.rounds))
    ensures Replaying(draws, start, ReplayIds(draws, before, draw.event, Flatten(draw.rounds)), touched')
  {
    touched' := touched;
    ReplayNoIds(draws, before, draw.event);
    ghost var views := before;
    for i := 0 to |draw.rounds|
      invariant Slotted(draws) && Views(state, draws) == views
      invariant views == ReplayIds(draws, before, draw.event, Flatten(draw.rounds[..i]))
      invariant Replaying(draws, start, views, touched')
    {
      assert draw.rounds[i] in draw.rounds;
      touched' := ReplayRound(state, draws, draw, draw.rounds[i], start, views, touched');
      ReplayRoundMore(draws, before, draw.event, draw.rounds, i);
      views := ReplayIds(draws, before, draw.event, Flatten(draw.rounds[..i + 1]));
    }
    assert draw.rounds[..|draw.rounds|] == draw.rounds;
  }

  /** Every draw of `events` reconciled, the others as they were. */
  ghost function ReconcileEvents(draws: Draws, views: map<EventId, Facts>,
                                 events: seq<EventId>): (views': map<EventId, Facts>)
    requires views.Keys == draws.Keys
    ensures views'.Keys == views.Keys
  {
    map e | e in draws ::
      if e in events then Replay(DrawGraph(draws[e]), views[e], Flatten(draws[e].rounds)) else views[e]
  }

  lemma ReconcileOneMore(draws: Draws, views: map<EventId, Facts>, events: seq<EventId>, i: nat)
    requires views.Keys == draws.Keys && NoDuplicates(events) && i < |events| && events[i] in draws
    ensures ReplayIds(draws, ReconcileEvents(draws, views, events[..i]), events[i], Flatten(draws[events[i]].rounds)) ==
      ReconcileEvents(draws, views, events[..i + 1])
  {
    PrefixGrows(events, i);
    assert events[..i + 1] == events[..i] + [events[i]];
    MapsEqual(ReplayIds(draws, ReconcileEvents(draws, views, events[..i]), events[i], Flatten(draws[events[i]].rounds)),
      ReconcileEvents(draws, views, events[..i + 1]));
  }

  lemma ReplayingStarts(draws: Draws, start: map<EventId, Facts>)
    requires start.Keys == draws.Keys && forall e :: e in draws ==> Fits(DrawGraph(draws[e]), start[e])
    ensures Replaying(draws, start, start, []) && ReconcileEvents(draws, start, []) == start
  {
    MapsEqual(ReconcileEvents(draws, start, []), start);
  }

  /** Every draw reconciled. */
  ghost function ReconcileAll(draws: Draws, views: map<EventId, Facts>): (views': map<EventId, Facts>)
    requires views.Keys == draws.Keys
    ensures views'.Keys == views.Keys
  {
    map e | e in draws :: Replay(DrawGraph(draws[e]), views[e], Flatten(draws[e].rounds))
  }

  lemma AllReconciled(draws: Draws, views: map<EventId, Facts>, events: seq<EventId>)
    requires views.Keys == draws.Keys && forall e :: e in draws ==> e in events
    ensures ReconcileEvents(draws, views, events[..|events|]) == ReconcileAll(draws, views)
  {
    assert events[..|events|] == events;
    MapsEqual(ReconcileEvents(draws, views, events), ReconcileAll(draws, views));
  }

  /** Rebuild successor sides from the stored results, draw by draw and round by round;
      returns the units this changed. */
  method ReconcileRecordedResults(state: TournamentState, draws: Draws, events: seq<EventId>)
    returns (touched: seq<UnitId>)
    requires DrawsWired(draws) && Slotted(draws)
    requires NoDuplicates(events) && (forall e :: e in events <==> e in draws)
    requires forall e :: e in draws ==> Listable(draws[e])
    modifies draws.Values, UnitsOf(draws)
    ensures Slotted(draws) && state.results == old(state.results)
    ensures Views(state, draws) == ReconcileAll(draws, old(Views(state, draws)))
    ensures Moved(draws, old(Views(state, draws)), Views(state, draws), touched)
  {
    touched := [];
    ghost var start, results := Views(state, draws), state.results;
    ghost var views := start;
    ReplayingStarts(draws, start);
    for i := 0 to |events|
      invariant Slotted(draws) && Views(state, draws) == views && state.results == results
      invariant views == ReconcileEvents(draws, start, events[..i])
      invariant Replaying(draws, start, views, touched)
    {
      touched := ReplayDraw(state, draws, draws[events[i]], start, views, touched);
      ReconcileOneMore(draws, start, events, i);
      views := ReconcileEvents(draws, start, events[..i + 1]);
    }
    AllReconciled(draws, start, events);
  }

  /** The rounds of every draw list each of its units once, after its dependencies. */
  ghost predicate InRounds(draws: Draws) {
    forall e :: e in draws ==>
      && Listable(draws[e]) && InOrder(DrawGraph(draws[e]), Flatten(draws[e].rounds), {})
      && Listed(Flatten(draws[e].rounds)) == DrawGraph(draws[e]).Keys
  }

  lemma NothingMoves(draws: Draws, views: map<EventId, Facts>, touched: seq<UnitId>)
    requires views.Keys == draws.Keys && (forall e :: e in draws ==> views[e].rows.Keys == draws[e].playUnits.Keys)
    requires Moved(draws, views, views, touched)
    ensures touched == []
  {
    var first := if touched == [] then "" else touched[0];
    assert first in touched || touched == [];
  }

  lemma ReconciledTwice(draws: Draws, views: map<EventId, Facts>)
    requires DrawsWired(draws) && InRounds(draws) && views.Keys == draws.Keys
    ensures ReconcileAll(draws, ReconcileAll(draws, views)) == ReconcileAll(draws, views)
  {
    forall e | e in draws
      ensures ReconcileAll(draws, ReconcileAll(draws, views))[e] == ReconcileAll(draws, views)[e]
    {
      assert DrawWired(draws[e]);
      ReconcileTwice(DrawGraph(draws[e]), views[e], Flatten(draws[e].rounds));
    }
    MapsEqual(ReconcileAll(draws, ReconcileAll(draws, views)), ReconcileAll(draws, views));
  }

  /** Reconcile, and once more: the second call changes nothing and returns the empty list. */
  method ReconcileTwiceInPlace(state: TournamentState, draws: Draws, events: seq<EventId>)
    returns (touched: seq<UnitId>, again: seq<UnitId>)
    requires DrawsWired(draws) && Slotted(draws) && InRounds(draws)
    requires NoDuplicates(events) && (forall e :: e in events <==> e in draws)
    modifies draws.Values, UnitsOf(draws)
    ensures Slotted(draws) && state.results == old(state.results)
    ensures Views(state, draws) == ReconcileAll(draws, old(Views(state, draws))) && again == []
    ensures Moved(draws, old(Views(state, draws)), Views(state, draws), touched)
  {
    ghost var start := Views(state, draws);
    touched := ReconcileRecordedResults(state, draws, events);
    ReconciledTwice(draws, start);
    ghost var views := Views(state, draws);
    again := ReconcileRecordedResults(state, draws, events);
    NothingMoves(draws, views, again);
  }

  // ---- registration ---------------------------------------------------------

  /** Some unit of the opening round has no result and an absent side. */
  ghost predicate OpeningBye(draw: Draw, st: Facts)
    requires |draw.rounds| > 0
  {
    exists u :: u in draw.rounds[0] && IsBye(st, u)
  }

  /** Where the walkovers of the opening round lead. */
  ghost function ByesWalkedOver(draw: Draw, st: Facts): Facts
    requires |draw.rounds| > 0 && Fits(DrawGraph(draw), st)
  {
    if OpeningBye(draw, st) then Settling.Settle(DrawGraph(draw), st) else st
  }

  /** The opening round of a draw: units of the draw that depend on nothing. */
  predicate Opens(draw: Draw) {
    |draw.rounds| > 0 && forall u | u in draw.rounds[0] :: u in draw.playUnits && draw.playUnits[u].dependencies == []
  }

  /** A draw on its own, as a registry of draws. */
  function Alone(draw: Draw): Draws {
    map[draw.event := draw]
  }

  /** A unit without a result and with an absent side. */
  predicate IsBye(st: Facts, u: UnitId) {
    u in st.rows && u !in st.results && OneSided(st.rows[u])
  }

  /** None of the first `n` units of the opening round is a bye. */
  ghost predicate NoByeAmong(draw: Draw, st: Facts, n: nat)
    requires |draw.rounds| > 0 && n <= |draw.rounds[0]|
  {
    forall j :: 0 <= j < n ==> !IsBye(st, draw.rounds[0][j])
  }

  /** The first `n` units of the opening round are done: either none was a bye and
      nothing has happened, or one was and the whole draw has settled. */
  ghost predicate ByesDone(draw: Draw, start: Facts, st: Facts, n: nat)
    requires |draw.rounds| > 0 && n <= |draw.rounds[0]| && Fits(DrawGraph(draw), start)
  {
    if st == start && NoByeAmong(draw, start, n) then true
    else OpeningBye(draw, start) && st == Settling.Settle(DrawGraph(draw), start)
  }

  /** Walking one bye over settles the whole draw; after that no bye is left. */
  lemma ByeSettles(draw: Draw, start: Facts, st: Facts, n: nat)
    requires Opens(draw) && n < |draw.rounds[0]| && Fits(DrawGraph(draw), start) && Fits(DrawGraph(draw), st)
    requires ByesDone(draw, start, st, n)
    ensures var u := draw.rounds[0][n];
            if IsBye(st, u)
            then Eligible(DrawGraph(draw), st, u) && ByesDone(draw, start, Settling.Settle(DrawGraph(draw), st), n + 1)
            else ByesDone(draw, start, st, n + 1)
  {
    var g, u := DrawGraph(draw), draw.rounds[0][n];
    Settling.SettleEnds(g, start);
    if IsBye(st, u) {
      assert Eligible(g, st, u);
    }
  }

  lemma ByeRecorded(draw: Draw, views: map<EventId, Facts>, u: UnitId)
    requires views.Keys == {draw.event} && Fits(DrawGraph(draw), views[draw.event])
    requires Eligible(DrawGraph(draw), views[draw.event], u)
    ensures Recorded(Alone(draw), views, draw.event, u, Walkover(views[draw.event].rows[u]))[draw.event] ==
      Settling.Settle(DrawGraph(draw), views[draw.event])
  {
    Settling.AnyFirstFiring(DrawGraph(draw), views[draw.event], u);
  }

  /** The result recorded for a bye. */
  function ByeResult(pu: PlayUnit): Result
    reads pu
  {
    var winner := if pu.sideA == [] && pu.sideB == [] then Neither else if pu.sideA == [] then B else A;
    Result(winner, true, None, None, None)
  }

  lemma ByeAccepted(state: TournamentState, draw: Draw, u: UnitId)
    requires Wired(state, Alone(draw)) && Slotted(Alone(draw)) && Opens(draw) && u in draw.rounds[0]
    requires u !in state.results && (draw.playUnits[u].sideA == [] || draw.playUnits[u].sideB == [])
    ensures Refusal(state, Alone(draw), u, ByeResult(draw.playUnits[u])) == None
    ensures u in state.playUnits && state.playUnits[u] == draw.playUnits[u] && draw.playUnits[u].event == draw.event
    ensures u in Views(state, Alone(draw))[draw.event].rows
    ensures Recorded(Alone(draw), Views(state, Alone(draw)), draw.event, u, ByeResult(draw.playUnits[u]))[draw.event] ==
      Settling.Settle(DrawGraph(draw), Views(state, Alone(draw))[draw.event])
  {
    OnlyDraw(state, draw, u);
    EligibleHere(state, Alone(draw), u);
    ByeRecorded(draw, Views(state, Alone(draw)), u);
  }

  method RecordBye(state: TournamentState, draw: Draw, u: UnitId)
    requires Wired(state, Alone(draw)) && Slotted(Alone(draw)) && Opens(draw) && u in draw.rounds[0]
    requires u !in state.results && (draw.playUnits[u].sideA == [] || draw.playUnits[u].sideB == [])
    modifies state`results, Alone(draw).Values, UnitsOf(Alone(draw))
    ensures Slotted(Alone(draw))
    ensures Views(state, Alone(draw))[draw.event] ==
      Settling.Settle(DrawGraph(draw), old(Views(state, Alone(draw)))[draw.event])
    ensures Added(Alone(draw), old(state.results), state.results)
  {
    ByeAccepted(state, draw, u);
    ghost var results := state.results;
    var r := ByeResult(draw.playUnits[u]);
    var outcome := RecordResult(state, Alone(draw), u, r);
    OneAdded(draw, results, u, r, state.results);
  }

  lemma OneAdded(draw: Draw, before: map<UnitId, Result>, u: UnitId, r: Result, after: map<UnitId, Result>)
    requires u in draw.playUnits && u !in before && Added(Alone(draw), before[u := r], after)
    ensures Added(Alone(draw), before, after)
  {
    assert Alone(draw)[draw.event] == draw;
    assert u in IdsOf(Alone(draw));
    forall v | v in before
      ensures v in after && after[v] == before[v]
    {
      assert v in before[u := r];
    }
  }

  /** Record the walkover of `u` if it is a bye. */
  method WalkOverBye(state: TournamentState, draw: Draw, u: UnitId)
    requires Wired(state, Alone(draw)) && Slotted(Alone(draw)) && Opens(draw) && u in draw.rounds[0]
    modifies state`results, Alone(draw).Values, UnitsOf(Alone(draw))
    ensures Slotted(Alone(draw))
    ensures var st := old(Views(state, Alone(draw)))[draw.event];
            Views(state, Alone(draw))[draw.event] == if IsBye(st, u) then Settling.Settle(DrawGraph(draw), st) else st
    ensures Added(Alone(draw), old(state.results), state.results)
  {
    OnlyDraw(state, draw, u);
    EligibleHere(state, Alone(draw), u);
    if u !in state.results && (state.playUnits[u].sideA == [] || state.playUnits[u].sideB == []) {
      RecordBye(state, draw, u);
    }
  }

  lemma OnlyDraw(state: TournamentState, draw: Draw, u: UnitId)
    requires Wired(state, Alone(draw)) && u in draw.playUnits
    ensures u in state.playUnits && state.playUnits[u] == draw.playUnits[u] && draw.playUnits[u].event == draw.event
  {
    assert Alone(draw)[draw.event] == draw;
    assert Shares(state, draw) && DrawWired(draw);
  }

  /** Record the walkovers of the opening round; every one is followed by a sweep. */
  method AutoWalkoverByes(state: TournamentState, draw: Draw)
    requires Wired(state, Alone(draw)) && Slotted(Alone(draw)) && Opens(draw)
    modifies state`results, Alone(draw).Values, UnitsOf(Alone(draw))
    ensures Slotted(Alone(draw))
    ensures Views(state, Alone(draw))[draw.event] ==
      ByesWalkedOver(draw, old(Views(state, Alone(draw)))[draw.event])
    ensures Added(Alone(draw), old(state.results), state.results)
  {
    ghost var start := Views(state, Alone(draw))[draw.event];
    for i := 0 to |draw.rounds[0]|
      invariant Slotted(Alone(draw))
      invariant ByesDone(draw, start, Views(state, Alone(draw))[draw.event], i)
      invariant Added(Alone(draw), old(state.results), state.results)
    {
      ByeSettles(draw, start, Views(state, Alone(draw))[draw.event], i);
      ghost var results := state.results;
      WalkOverBye(state, draw, draw.rounds[0][i]);
      AddedTransitive(Alone(draw), old(state.results), results, state.results);
    }
    AllByesDone(draw, start, Views(state, Alone(draw))[draw.event]);
  }

  lemma AllByesDone(draw: Draw, start: Facts, st: Facts)
    requires |draw.rounds| > 0 && Fits(DrawGraph(draw), start) && ByesDone(draw, start, st, |draw.rounds[0]|)
    ensures st == ByesWalkedOver(draw, start)
  {
  }

  /** Registration stops at a stable state exactly when the opening round has a bye to
      start the cascade, or no later-listed unit without dependencies has one. */
  lemma RegistrationIsStable(draw: Draw, st: Facts)
    requires |draw.rounds| > 0 && Fits(DrawGraph(draw), st) && st.results == map[]
    ensures Stable(DrawGraph(draw), ByesWalkedOver(draw, st)) <==>
      (OpeningBye(draw, st) ||
       forall u :: u in draw.playUnits && draw.playUnits[u].dependencies == [] ==> !OneSided(st.rows[u]))
  {
    var g := DrawGraph(draw);
    Settling.SettleEnds(g, st);
    if !OpeningBye(draw, st) {
      forall u
        ensures Eligible(g, st, u) <==>
          u in draw.playUnits && draw.playUnits[u].dependencies == [] && OneSided(st.rows[u])
      {
        assert IsBye(st, u) <==> u in draw.playUnits && OneSided(st.rows[u]);
        if u in draw.playUnits && draw.playUnits[u].dependencies != [] {
          assert g[u].deps[0] in g[u].deps;
        }
      }
    }
  }

  /** Registering an untouched draw starts every run of it exactly under that condition. */
  lemma RegistrationRegisters(draw: Draw, t: Topology)
    requires |draw.rounds| > 0 && WellBuilt(t) && t.graph == DrawGraph(draw)
    ensures Fits(DrawGraph(draw), Untouched(t))
    ensures ByesWalkedOver(draw, Untouched(t)) == Registered(t) <==>
      (OpeningBye(draw, Untouched(t)) ||
       forall u :: u in draw.playUnits && draw.playUnits[u].dependencies == [] ==> !OneSided(t.origin[u]))
  {
    RegisteredIsGood(t);
    RegistrationIsStable(draw, Untouched(t));
  }

  /** Every unit without dependencies is in the opening round, as the generators lay it out. */
  ghost predicate OpensFully(draw: Draw) {
    Opens(draw) && forall u :: u in draw.playUnits && draw.playUnits[u].dependencies == [] ==> u in draw.rounds[0]
  }

  /** Walk over the byes of an untouched draw of this kind: the draw is then registered, results
      of other draws are as they were. */
  method RegisterByes(state: TournamentState, draw: Draw, ghost t: Topology)
    requires Wired(state, Alone(draw)) && Slotted(Alone(draw)) && OpensFully(draw)
    requires WellBuilt(t) && t.graph == DrawGraph(draw) && Views(state, Alone(draw))[draw.event] == Untouched(t)
    modifies state`results, Alone(draw).Values, UnitsOf(Alone(draw))
    ensures Slotted(Alone(draw)) && Views(state, Alone(draw))[draw.event] == Registered(t)
    ensures Added(Alone(draw), old(state.results), state.results)
  {
    RegistrationRegisters(draw, t);
    assert forall u :: u in draw.rounds[0] && OneSided(t.origin[u]) ==> IsBye(Untouched(t), u);
    AutoWalkoverByes(state, draw);
  }
}
