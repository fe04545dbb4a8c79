/** Whole sessions: several draws at once. What the engine does to the objects is what the
    theory of one draw says, and the other draws stay as they are. */
module Sessions {
  import opened Bracket
  import Settling
  import opened Coherence
  import opened Runs
  import opened Correction
  import opened Advancement
  import opened CorrectionEngine
  import Guard
  import Reconciliation
  import opened Repair

  /** Every draw is in a good state of the topology it was registered with. */
  ghost predicate GoodSession(draws: Draws, origins: map<EventId, Topology>, views: map<EventId, Facts>) {
    && origins.Keys == draws.Keys && views.Keys == draws.Keys
    && forall e :: e in draws ==> origins[e].graph == DrawGraph(draws[e]) && Good(origins[e], views[e])
  }

  lemma GoodFits(draws: Draws, origins: map<EventId, Topology>, views: map<EventId, Facts>)
    requires GoodSession(draws, origins, views)
    ensures forall e :: e in draws ==> Fits(DrawGraph(draws[e]), views[e])
  {
    forall e | e in draws
      ensures Fits(DrawGraph(draws[e]), views[e])
    {
      assert Good(origins[e], views[e]);
    }
  }

  /** Replacing the state of one draw by a good one keeps the session good. */
  lemma OneDrawReplaced(draws: Draws, origins: map<EventId, Topology>, views: map<EventId, Facts>, event: EventId,
                        st: Facts)
    requires GoodSession(draws, origins, views) && event in draws && Good(origins[event], st)
    ensures GoodSession(draws, origins, views[event := st])
  {
  }

  lemma RecordedAt(draws: Draws, views: map<EventId, Facts>, event: EventId, u: UnitId, r: Result, e: EventId)
    requires views.Keys == draws.Keys && event in draws && e in draws && u in views[event].rows
    requires forall f :: f in draws ==> Fits(DrawGraph(draws[f]), views[f])
    requires e != event ==> Stable(DrawGraph(draws[e]), views[e])
    ensures Recorded(draws, views, event, u, r)[e] ==
      if e == event then Record(DrawGraph(draws[e]), views[e], u, r) else views[e]
  {
    Settling.PropagateFits(DrawGraph(draws[event]), views[event], u, r);
  }

  lemma RecordedInOneDraw(draws: Draws, views: map<EventId, Facts>, event: EventId, u: UnitId, r: Result)
    requires views.Keys == draws.Keys && event in draws && u in views[event].rows
    requires forall e :: e in draws ==> Fits(DrawGraph(draws[e]), views[e])
    requires forall e :: e in draws && e != event ==> Stable(DrawGraph(draws[e]), views[e])
    ensures Recorded(draws, views, event, u, r) == views[event := Record(DrawGraph(draws[event]), views[event], u, r)]
  {
    forall e | e in draws
      ensures Recorded(draws, views, event, u, r)[e] ==
        views[event := Record(DrawGraph(draws[event]), views[event], u, r)][e]
    {
      RecordedAt(draws, views, event, u, r, e);
    }
    MapsEqual(Recorded(draws, views, event, u, r), views[event := Record(DrawGraph(draws[event]), views[event], u, r)]);
  }

  lemma GoodIsStable(draws: Draws, origins: map<EventId, Topology>, views: map<EventId, Facts>, e: EventId)
    requires GoodSession(draws, origins, views) && e in draws
    ensures Stable(DrawGraph(draws[e]), views[e])
  {
    assert Good(origins[e], views[e]);
  }

  /** Recording in a session is recording in the draw of the match; every other draw,
      which the sweep visits too, is left as it was. */
  lemma RecordingIsLocal(draws: Draws, origins: map<EventId, Topology>, views: map<EventId, Facts>,
                         event: EventId, u: UnitId, r: Result)
    requires GoodSession(draws, origins, views) && event in draws
    requires Playable(origins[event].graph, views[event], u)
    ensures forall e :: e in draws ==> Fits(DrawGraph(draws[e]), views[e])
    ensures Recorded(draws, views, event, u, r) == views[event := Record(origins[event].graph, views[event], u, r)]
    ensures GoodSession(draws, origins, Recorded(draws, views, event, u, r))
  {
    GoodFits(draws, origins, views);
    forall e | e in draws
      ensures Stable(DrawGraph(draws[e]), views[e])
    {
      GoodIsStable(draws, origins, views, e);
    }
    RecordedInOneDraw(draws, views, event, u, r);
    RecordKeepsGood(origins[event], views[event], u, r);
    OneDrawReplaced(draws, origins, views, event, Record(origins[event].graph, views[event], u, r));
  }

  // ---- runs in place ----------------------------------------------------------

  /** A match that can be played is accepted, whatever the result. */
  lemma PlayableIsAccepted(state: TournamentState, draws: Draws, event: EventId, u: UnitId, r: Result)
    requires Wired(state, draws) && Slotted(draws) && event in draws
    requires Playable(DrawGraph(draws[event]), Views(state, draws)[event], u)
    ensures u in state.playUnits && state.playUnits[u].event == event
    ensures Refusal(state, draws, u, r) == None
  {
    assert Shares(state, draws[event]) && DrawWired(draws[event]) && draws[event].event == event;
    EligibleHere(state, draws, u);
    OwnDraw(state, draws, u);
    assert !OneSided(RowAt(draws[event], u));
  }

  /** The checks made on the objects let a result pass exactly if its unit is in a registered draw, and there has
      no result yet and somebody on the side that won. */
  lemma AcceptedExactly(state: TournamentState, draws: Draws, u: UnitId, r: Result)
    requires Wired(state, draws) && Slotted(draws)
    ensures Refusal(state, draws, u, r) == None <==>
      && u in state.playUnits && state.playUnits[u].event in draws
      && Guard.Accepts(Views(state, draws)[state.playUnits[u].event], u, r)
  {
    if u in state.playUnits && state.playUnits[u].event in draws {
      EligibleHere(state, draws, u);
      OwnDraw(state, draws, u);
    }
  }

  /** Record one result of a run in place. */
  method PlayOne(state: TournamentState, draws: Draws, u: UnitId, r: Result,
                 ghost origins: map<EventId, Topology>, ghost event: EventId, ghost views: map<EventId, Facts>)
    requires Wired(state, draws) && Slotted(draws) && views == Views(state, draws)
    requires GoodSession(draws, origins, views) && event in draws && Playable(origins[event].graph, views[event], u)
    modifies state`results, draws.Values, UnitsOf(draws)
    ensures Slotted(draws)
    ensures Views(state, draws) == views[event := Record(origins[event].graph, views[event], u, r)]
    ensures GoodSession(draws, origins, Views(state, draws))
  {
    PlayableIsAccepted(state, draws, event, u, r);
    RecordingIsLocal(draws, origins, views, event, u, r);
    var outcome := RecordResult(state, draws, u, r);
  }

  lemma UpdatedTwice<K, V>(m: map<K, V>, k: K, x: V, y: V)
    ensures m[k := x][k := y] == m[k := y]
    ensures k in m && y == m[k] ==> m[k := y] == m
  {
  }

  /** The session after a legal run in the draw of `event`. */
  ghost function AfterRun(origins: map<EventId, Topology>, views: map<EventId, Facts>, event: EventId, ops: seq<Entry>)
    : (after: map<EventId, Facts>)
    requires event in origins && event in views && Good(origins[event], views[event])
    requires Legal(origins[event], views[event], ops)
    ensures after.Keys == views.Keys
  {
    views[event := Run(origins[event], views[event], ops)]
  }

  lemma RunUnrolls(t: Topology, st: Facts, ops: seq<Entry>) returns (next: Facts)
    requires Good(t, st) && Legal(t, st, ops) && ops != []
    ensures Playable(t.graph, st, ops[0].unit) && next == Record(t.graph, st, ops[0].unit, ops[0].result)
    ensures Good(t, next) && Legal(t, next, ops[1..]) && Run(t, st, ops) == Run(t, next, ops[1..])
  {
    RecordKeepsGood(t, st, ops[0].unit, ops[0].result);
    next := Record(t.graph, st, ops[0].unit, ops[0].result);
  }

  /** Enter the results of a legal run, one after the other: the objects then hold the state
      that the run ends in, and every other draw is as it was. */
  method PlayRun(state: TournamentState, draws: Draws, ops: seq<Entry>,
                 ghost origins: map<EventId, Topology>, ghost event: EventId, ghost views: map<EventId, Facts>)
    requires Wired(state, draws) && Slotted(draws) && views == Views(state, draws)
    requires GoodSession(draws, origins, views) && event in draws && Legal(origins[event], views[event], ops)
    modifies state`results, draws.Values, UnitsOf(draws)
    ensures Slotted(draws)
    ensures Views(state, draws) == AfterRun(origins, views, event, ops)
    ensures GoodSession(draws, origins, Views(state, draws))
    decreases |ops|
  {
    if ops == [] {
      UpdatedTwice(views, event, views[event], views[event]);
    } else {
      ghost var next := RunUnrolls(origins[event], views[event], ops);
      UpdatedTwice(views, event, next, Run(origins[event], next, ops[1..]));
      PlayOne(state, draws, ops[0].unit, ops[0].result, origins, event, views);
      PlayRun(state, draws, ops[1..], origins, event, views[event := next]);
    }
  }

  // ---- reconciliation of a session ------------------------------------------------

  lemma ReconcilesTo(draws: Draws, origins: map<EventId, Topology>, views: map<EventId, Facts>,
                     goal: map<EventId, Facts>)
    requires InRounds(draws) && GoodSession(draws, origins, goal) && views.Keys == draws.Keys
    requires forall e :: e in draws ==> views[e] == Facts(origins[e].origin, goal[e].results)
    ensures ReconcileAll(draws, views) == goal
  {
    forall e | e in draws
      ensures ReconcileAll(draws, views)[e] == goal[e]
    {
      assert Good(origins[e], goal[e]);
      Reconciliation.ReconcileRebuilds(origins[e], goal[e], Flatten(draws[e].rounds));
    }
    MapsEqual(ReconcileAll(draws, views), goal);
  }

  /** From untouched draws and the stored results of a good session, reconciliation in place gives
      back that session, and names exactly the units it rebuilt. */
  method RebuildSession(state: TournamentState, draws: Draws, events: seq<EventId>,
                        ghost origins: map<EventId, Topology>, ghost goal: map<EventId, Facts>)
    returns (touched: seq<UnitId>)
    requires DrawsWired(draws) && Slotted(draws) && InRounds(draws)
    requires NoDuplicates(events) && (forall e :: e in events <==> e in draws)
    requires GoodSession(draws, origins, goal)
    requires forall e :: e in draws ==> Views(state, draws)[e] == Facts(origins[e].origin, goal[e].results)
    modifies draws.Values, UnitsOf(draws)
    ensures Slotted(draws) && state.results == old(state.results)
    ensures Views(state, draws) == goal
    ensures Moved(draws, old(Views(state, draws)), goal, touched)
  {
    ReconcilesTo(draws, origins, Views(state, draws), goal);
    touched := ReconcileRecordedResults(state, draws, events);
  }

  lemma GoodReplaysToItself(t: Topology, st: Facts, ids: seq<UnitId>)
    requires Good(t, st) && Reconciliation.InOrder(t.graph, ids, {}) && Reconciliation.Listed(ids) == t.graph.Keys
    ensures Reconciliation.Replay(t.graph, st, ids) == st
  {
    Reconciliation.ReconcileRebuilds(t, st, ids);
    Reconciliation.ReconcileTwice(t.graph, Facts(Untouched(t).rows, st.results), ids);
  }

  lemma ReconcilesToItself(draws: Draws, origins: map<EventId, Topology>, views: map<EventId, Facts>)
    requires InRounds(draws) && GoodSession(draws, origins, views)
    ensures ReconcileAll(draws, views) == views
  {
    forall e | e in draws
      ensures ReconcileAll(draws, views)[e] == views[e]
    {
      assert Good(origins[e], views[e]);
      GoodReplaysToItself(origins[e], views[e], Flatten(draws[e].rounds));
    }
    MapsEqual(ReconcileAll(draws, views), views);
  }

  /** Reconciling a good session, as is done whenever one is loaded, changes nothing and returns the empty list. */
  method ReconcileLoaded(state: TournamentState, draws: Draws, events: seq<EventId>,
                         ghost origins: map<EventId, Topology>)
    returns (touched: seq<UnitId>)
    requires DrawsWired(draws) && Slotted(draws) && InRounds(draws)
    requires NoDuplicates(events) && (forall e :: e in events <==> e in draws)
    requires GoodSession(draws, origins, Views(state, draws))
    modifies draws.Values, UnitsOf(draws)
    ensures Slotted(draws) && state.results == old(state.results)
    ensures Views(state, draws) == old(Views(state, draws)) && touched == []
  {
    ghost var views := Views(state, draws);
    ReconcilesToItself(draws, origins, views);
    touched := ReconcileRecordedResults(state, draws, events);
    NothingMoves(draws, views, touched);
  }

  // ---- corrections in a session ---------------------------------------------------

  /** `m` was played in a draw of the session, and nothing downstream of it has a result. */
  ghost predicate Correctable(draws: Draws, origins: map<EventId, Topology>, views: map<EventId, Facts>,
                              event: EventId, m: UnitId)
  {
    && GoodSession(draws, origins, views) && event in draws
    && PlayedProperly(origins[event], views[event], m) && NothingDownstream(origins[event].graph, views[event], m)
  }

  /** The session after the correction. */
  ghost function AfterCorrection(origins: map<EventId, Topology>, views: map<EventId, Facts>, event: EventId, m: UnitId)
    : (after: map<EventId, Facts>)
    requires event in origins && event in views && origins[event].origin.Keys == origins[event].graph.Keys
    ensures after.Keys == views.Keys
  {
    views[event := Erased(origins[event], views[event], m)]
  }

  lemma CorrectionIsGood(draws: Draws, origins: map<EventId, Topology>, views: map<EventId, Facts>, event: EventId,
                         m: UnitId)
    requires Correctable(draws, origins, views, event, m)
    ensures GoodSession(draws, origins, AfterCorrection(origins, views, event, m))
    ensures Playable(origins[event].graph, AfterCorrection(origins, views, event, m)[event], m)
    ensures forall e :: e in draws ==> Fits(DrawGraph(draws[e]), AfterCorrection(origins, views, event, m)[e])
  {
    ErasedIsGood(origins[event], views[event], m);
    OneDrawReplaced(draws, origins, views, event, Erased(origins[event], views[event], m));
    GoodFits(draws, origins, AfterCorrection(origins, views, event, m));
  }

  /** A later Swiss round has been paired, or a dependent has a result or an assignment that started. */
  ghost predicate Blocked(state: TournamentState, draw: Draw, format: string, m: UnitId)
    requires DrawWired(draw) && m in draw.playUnits
    reads state
  {
    || (format == "swiss" && exists v :: v in draw.playUnits && draw.playUnits[v].round > draw.playUnits[m].round)
    || (exists v :: v in draw.playUnits && DependsOn(DrawGraph(draw), v, m) &&
          (v in state.results || (v in state.assignments && state.assignments[v].actualStartSlot.Some?)))
  }

  /** A draw in a good state of the regenerated topology looks to a correction as the regenerated draw does. */
  lemma GoodLooksTheSame(draw: Draw, regen: Draw, st: Facts)
    requires DrawValid(draw) && DrawValid(regen) && DrawGraph(draw) == DrawGraph(regen)
    requires Good(TopologyOf(regen), st) && st.rows == DrawRows(draw)
    ensures SameTopology(draw, regen)
  {
    var t := TopologyOf(regen);
    assert regen.playUnits.Keys == DrawGraph(regen).Keys && draw.playUnits.Keys == DrawGraph(draw).Keys;
    forall v | v in draw.playUnits
      ensures regen.playUnits[v].dependencies == draw.playUnits[v].dependencies
      ensures draw.playUnits[v].dependencies == [] ==> regen.slots[v] == draw.slots[v]
    {
      assert DrawGraph(regen)[v] == DrawGraph(draw)[v] && CoherentAt(t, st, v);
      assert st.rows[v] == RowAt(draw, v) && t.origin[v] == RowAt(regen, v);
    }
  }

  lemma VerdictIsBlocked(state: TournamentState, draw: Draw, format: string, regen: Draw, m: UnitId, st: Facts)
    requires DrawValid(draw) && DrawValid(regen) && DrawGraph(draw) == DrawGraph(regen) && m in draw.playUnits
    requires Good(TopologyOf(regen), st) && st.rows == DrawRows(draw)
    ensures Verdict(state, draw, format, regen, m) == None <==> !Blocked(state, draw, format, m)
  {
    GoodLooksTheSame(draw, regen, st);
    StartedIsUnderWay(state, draw, m);
  }

  lemma OwnView(state: TournamentState, draws: Draws, draw: Draw)
    requires DrawsWired(draws) && Slotted(draws) && draw.event in draws && draws[draw.event] == draw
    ensures DrawValid(draw) && Views(state, draws)[draw.event].rows == DrawRows(draw)
  {
    assert AllRows(draws)[draw.event] == DrawRows(draw);
  }

  /** The checks of a correction, in a good session whose draw the generator returns again. */
  lemma ChecksAreBlocked(state: TournamentState, draws: Draws, draw: Draw, format: string, regen: Draw, m: UnitId,
                         origins: map<EventId, Topology>, views: map<EventId, Facts>)
    requires DrawsWired(draws) && Slotted(draws) && draw.event in draws && draws[draw.event] == draw
    requires views == Views(state, draws) && GoodSession(draws, origins, views)
    requires m in draw.playUnits && DrawValid(draw) && DrawValid(regen) && origins[draw.event] == TopologyOf(regen)
    ensures Verdict(state, draw, format, regen, m) == None <==> !Blocked(state, draw, format, m)
    ensures !Blocked(state, draw, format, m) ==> NothingDownstream(DrawGraph(draw), views[draw.event], m)
  {
    OwnView(state, draws, draw);
    ViewOf(state, draws, draw);
    VerdictIsBlocked(state, draw, format, regen, m, views[draw.event]);
  }

  /** The answer to a correction that nothing blocks. */
  lemma AnswerErases(draws: Draws, origins: map<EventId, Topology>, draw: Draw, before: Session, m: UnitId,
                     outcome: Prepared, after: Session)
    requires GoodSession(draws, origins, before.views) && draw.event in draws && draws[draw.event] == draw
    requires DrawWired(draw) && after.views.Keys == draws.Keys
    requires PlayedProperly(origins[draw.event], before.views[draw.event], m)
    requires NothingDownstream(DrawGraph(draw), before.views[draw.event], m)
    requires Answers(draw, origins[draw.event], before, m, outcome, after)
    ensures outcome == Frontier(Dependents(DrawGraph(draw), m))
    ensures Correctable(draws, origins, before.views, draw.event, m)
    ensures after.views == AfterCorrection(origins, before.views, draw.event, m)
    ensures GoodSession(draws, origins, after.views)
  {
    ProperlyAnswered(draw, origins[draw.event], before, m, outcome, after);
    CorrectionIsGood(draws, origins, before.views, draw.event, m);
  }

  /** Correct a match that was played, in a good session whose draw the generator returns again. This
      succeeds exactly if no later Swiss round has been paired and no dependent has started or has
      a result; then its draw is as if the match had not been played, every other draw is as it was,
      and the session is good again. */
  method CorrectPlayed(state: TournamentState, draws: Draws, draw: Draw, format: string, regen: Draw, m: UnitId,
                       ghost origins: map<EventId, Topology>, ghost before: Session)
    returns (outcome: Prepared)
    requires Wired(state, draws) && Slotted(draws) && draw.event in draws && draws[draw.event] == draw
    requires m in draw.playUnits && DrawValid(regen) && regen.event == draw.event && Apart(draws, regen)
    requires before == SessionOf(state, draws) && GoodSession(draws, origins, before.views)
    requires origins[draw.event] == TopologyOf(regen)
    requires PlayedProperly(origins[draw.event], before.views[draw.event], m)
    modifies state`results, state`assignments, draw, draw.playUnits.Values, Alone(regen).Values, UnitsOf(Alone(regen))
    ensures Slotted(draws)
    ensures old(Blocked(state, draw, format, m)) ==> outcome.Declined? && SessionOf(state, draws) == before
    ensures !old(Blocked(state, draw, format, m)) ==>
      && outcome == Frontier(Dependents(DrawGraph(draw), m))
      && Correctable(draws, origins, before.views, draw.event, m)
      && SessionOf(state, draws) == Session(AfterCorrection(origins, before.views, draw.event, m),
                                            before.results - {m}, before.assignments - outcome.units)
      && GoodSession(draws, origins, SessionOf(state, draws).views)
  {
    ChecksAreBlocked(state, draws, draw, format, regen, m, origins, before.views);
    ghost var blocked := Blocked(state, draw, format, m);
    outcome := PrepareCorrection(state, draws, draw, format, regen, m);
    if !blocked {
      AnswerErases(draws, origins, draw, before, m, outcome, SessionOf(state, draws));
    }
  }

  /** The state of the draw of `m` once `r` has been recorded on the corrected match. */
  lemma RecordedAgain(t: Topology, st: Facts, m: UnitId, r: Result) returns (end: Facts)
    requires PlayedProperly(t, st, m) && NothingDownstream(t.graph, st, m)
    ensures Coherent(t, Erased(t, st, m)) && end == Record(t.graph, Erased(t, st, m), m, r)
    ensures Played(end) == Played(st)[m := r] && (r == st.results[m] ==> end == st)
  {
    CorrectedIsGood(t, st, m, r);
    CorrectionRestores(t, st, m);
    end := Record(t.graph, Erased(t, st, m), m, r);
  }

  /** A corrected match can be recorded at once. The session is then good, with `r` played
      for `m` and everything else as before; if `r` is the old result, it is the very session before. */
  lemma CorrectThenRecord(draws: Draws, origins: map<EventId, Topology>, views: map<EventId, Facts>, event: EventId,
                          m: UnitId, r: Result)
    returns (after: map<EventId, Facts>, end: map<EventId, Facts>)
    requires Correctable(draws, origins, views, event, m)
    ensures after == AfterCorrection(origins, views, event, m) && Playable(origins[event].graph, after[event], m)
    ensures forall e :: e in draws ==> Fits(DrawGraph(draws[e]), after[e])
    ensures end == Recorded(draws, after, event, m, r) && GoodSession(draws, origins, end)
    ensures Played(end[event]) == Played(views[event])[m := r]
    ensures forall e :: e in draws && e != event ==> end[e] == views[e]
    ensures r == views[event].results[m] ==> end == views
  {
    CorrectionIsGood(draws, origins, views, event, m);
    after := AfterCorrection(origins, views, event, m);
    RecordingIsLocal(draws, origins, after, event, m, r);
    var st := RecordedAgain(origins[event], views[event], m, r);
    UpdatedTwice(views, event, after[event], st);
    end := Recorded(draws, after, event, m, r);
    assert end == views[event := st];
  }

  /** Correct a match and record it anew, in place: afterwards the session is good, `r` counts as
      played and everything else is as before; if `r` is the old result, the draws are as before. */
  method CorrectAndRecord(state: TournamentState, draws: Draws, draw: Draw, format: string, regen: Draw, m: UnitId,
                          r: Result,
                          ghost origins: map<EventId, Topology>, ghost before: Session)
    returns (outcome: Prepared)
    requires Wired(state, draws) && Slotted(draws) && draw.event in draws && draws[draw.event] == draw
    requires m in draw.playUnits && DrawValid(regen) && regen.event == draw.event && Apart(draws, regen)
    requires before == SessionOf(state, draws) && GoodSession(draws, origins, before.views)
    requires origins[draw.event] == TopologyOf(regen)
    requires PlayedProperly(origins[draw.event], before.views[draw.event], m)
    modifies state`results, state`assignments, draws.Values, UnitsOf(draws), Alone(regen).Values, UnitsOf(Alone(regen))
    ensures Slotted(draws)
    ensures old(Blocked(state, draw, format, m)) ==> outcome.Declined? && SessionOf(state, draws) == before
    ensures !old(Blocked(state, draw, format, m)) ==>
      && outcome.Frontier? && GoodSession(draws, origins, Views(state, draws))
      && Played(Views(state, draws)[draw.event]) == Played(before.views[draw.event])[m := r]
      && (forall e :: e in draws && e != draw.event ==> Views(state, draws)[e] == before.views[e])
      && (r == before.views[draw.event].results[m] ==> Views(state, draws) == before.views)
  {
    outcome := CorrectPlayed(state, draws, draw, format, regen, m, origins, before);
    if outcome.Frontier? {
      ghost var after, end := CorrectThenRecord(draws, origins, before.views, draw.event, m, r);
      RecordingIsLocal(draws, origins, after, draw.event, m, r);
      PlayOne(state, draws, m, r, origins, draw.event, after);
    }
  }
}
