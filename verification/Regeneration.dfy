/** What a correction compares of the regenerated draw, and what it restores. The comparison covers units,
    dependencies and opening slots, but not which feed a later slot takes. When the regenerated draw differs in
    that, the correction restores history exactly if the slots of the dependents resolve the same. */
module Regeneration {
  import opened Bracket
  import opened Coherence
  import opened Runs
  import opened Correction
  import opened Advancement
  import Repair
  import opened CorrectionEngine
  import opened DoubleElimination
  import Sessions

  // ---- which regenerated draws restore history --------------------------------

  /** Both slots of `v`, resolved in `goal` as `t'` has them, are what they are for `t` without `m`. */
  predicate ResolvesAs(t: Topology, st: Facts, m: UnitId, t': Topology, goal: Facts, v: UnitId)
    requires v in t.origin && v in t'.origin
  {
    && Resolve(goal, t'.origin[v].slotA) == Resolve(Forget(st, m), t.origin[v].slotA)
    && Resolve(goal, t'.origin[v].slotB) == Resolve(Forget(st, m), t.origin[v].slotB)
  }

  lemma DependentHasDeps(g: Graph, m: UnitId, v: UnitId)
    requires WellFormed(g) && v in Dependents(g, m)
    ensures v in g && g[v].deps != []
  {
    if m !in g[v].deps {
      var d :| d in g[v].deps && DependsOn(g, d, m);
    }
  }

  /** A dependent looks as in the erased state exactly if its slots resolve the same. */
  lemma DependentRestored(t: Topology, t': Topology, st: Facts, m: UnitId, goal: Facts, v: UnitId)
    requires Coherent(t, st) && Coherent(t', goal) && t'.graph == t.graph && v in Dependents(t.graph, m)
    ensures v in t.graph
    ensures goal.rows[v] == Erased(t, st, m).rows[v] <==> ResolvesAs(t, st, m, t', goal, v)
  {
    DependentHasDeps(t.graph, m, v);
    assert CoherentAt(t', goal, v);
  }

  /** Copying the dependents from `goal` restores the erased state exactly if all their slots resolve the same. */
  lemma RestoresExactly(t: Topology, t': Topology, st: Facts, m: UnitId, goal: Facts)
    requires Coherent(t, st) && Retains(t', st, m, goal) && t'.graph == t.graph
    ensures Overlay(st.rows, goal.rows, Dependents(t.graph, m)) == Erased(t, st, m).rows <==>
      forall v :: v in Dependents(t.graph, m) ==> ResolvesAs(t, st, m, t', goal, v)
  {
    var units := Dependents(t.graph, m);
    var copied, erased := Overlay(st.rows, goal.rows, units), Erased(t, st, m).rows;
    OverlayIsErased(t, st, m);
    forall v | v in units
      ensures copied[v] == erased[v] <==> ResolvesAs(t, st, m, t', goal, v)
    {
      DependentRestored(t, t', st, m, goal, v);
    }
    if forall v :: v in units ==> ResolvesAs(t, st, m, t', goal, v) {
      forall v | v in copied
        ensures copied[v] == erased[v]
      {
        assert Overlay(st.rows, erased, units)[v] == erased[v];
      }
      MapsEqual(copied, erased);
    } else {
      var v :| v in units && !ResolvesAs(t, st, m, t', goal, v);
      assert copied[v] != erased[v];
    }
  }

  // ---- draws that differ only in what depends on the match ---------------------

  /** The same units and dependencies, and the same slots wherever nothing depends on `m`. */
  ghost predicate AgreeOutside(t: Topology, t': Topology, m: UnitId) {
    && WellBuilt(t) && WellBuilt(t') && t'.graph == t.graph
    && forall v :: v in t.graph && v !in Dependents(t.graph, m) ==> t'.origin[v] == t.origin[v]
  }

  /** Before anything is replayed: the slots of the dependents, resolved by the results that are kept. */
  ghost predicate SameFeeds(t: Topology, t': Topology, st: Facts, m: UnitId)
    requires AgreeOutside(t, t', m)
  {
    forall v :: v in Dependents(t.graph, m) ==> ResolvesAs(t, st, m, t', Forget(st, m), v)
  }

  /** Units with results look the same in both erased states, as they do now. */
  lemma KeptRowsAgree(t: Topology, t': Topology, st: Facts, m: UnitId, u: UnitId)
    requires AgreeOutside(t, t', m) && Coherent(t, st) && NothingDownstream(t.graph, st, m)
    requires u in t.graph && u !in Dependents(t.graph, m)
    ensures Erased(t', st, m).rows[u] == Erased(t, st, m).rows[u] == st.rows[u]
  {
    assert !DependsOn(t.graph, u, m);
    ErasedRow(t, st, m, u);
  }

  lemma OtherResolve(t: Topology, t': Topology, st: Facts, m: UnitId, s: Slot)
    requires AgreeOutside(t, t', m) && Coherent(t, st) && NothingDownstream(t.graph, st, m)
    ensures Resolve(Erased(t', st, m), s) == Resolve(Forget(st, m), s)
  {
    if s.Feeder? && s.unit in st.results && s.unit in t.graph {
      KeptRowsAgree(t, t', st, m, s.unit);
    }
  }

  lemma OtherCoherent(t: Topology, t': Topology, st: Facts, m: UnitId)
    requires AgreeOutside(t, t', m) && Coherent(t, st) && NothingDownstream(t.graph, st, m)
    ensures Coherent(t', Erased(t', st, m))
  {
    forall u | u in t'.graph
      ensures CoherentAt(t', Erased(t', st, m), u)
    {
      OtherResolve(t, t', st, m, t'.origin[u].slotA);
      OtherResolve(t, t', st, m, t'.origin[u].slotB);
      if u in Erased(t', st, m).results {
        KeptRow(t, st, m, u);
        assert CoherentAt(t, st, u);
      }
    }
  }

  /** What depends on `m` is not ready without it. */
  lemma DependentNotReady(t: Topology, st: Facts, m: UnitId, u: UnitId)
    requires WellFormed(t.graph) && NothingDownstream(t.graph, st, m) && u in Dependents(t.graph, m)
    ensures !Ready(t.graph, Forget(st, m), u)
  {
    if m !in t.graph[u].deps {
      var d :| d in t.graph[u].deps && DependsOn(t.graph, d, m);
      assert d in Dependents(t.graph, m);
    }
  }

  lemma OtherStableAt(t: Topology, t': Topology, st: Facts, m: UnitId, u: UnitId)
    requires AgreeOutside(t, t', m) && PlayedProperly(t, st, m) && NothingDownstream(t.graph, st, m)
    ensures !Eligible(t'.graph, Erased(t', st, m), u)
  {
    if u in t.graph {
      if u in Dependents(t.graph, m) {
        DependentNotReady(t, st, m, u);
      } else {
        ErasedStableAt(t, st, m, u);
        KeptRowsAgree(t, t', st, m, u);
      }
    }
  }

  /** Such a draw always has a good state with the results that are kept, so the replay succeeds. */
  lemma OtherRetains(t: Topology, t': Topology, st: Facts, m: UnitId)
    requires AgreeOutside(t, t', m) && PlayedProperly(t, st, m) && NothingDownstream(t.graph, st, m)
    ensures Retains(t', st, m, Erased(t', st, m))
  {
    var other := Erased(t', st, m);
    OtherCoherent(t, t', st, m);
    forall u
      ensures !Eligible(t'.graph, other, u)
    {
      OtherStableAt(t, t', st, m, u);
    }
    forall u | u in other.rows
      ensures ExplainedAt(other, u)
    {
      if u in other.results {
        assert u !in Dependents(t.graph, m);
        KeptRowsAgree(t, t', st, m, u);
        assert ExplainedAt(st, u);
      }
    }
  }

  /** So a correction with such a draw restores history exactly if the dependents are fed the same: a
      condition on the two draws and the results kept, checked before anything is replayed. */
  lemma RestoresIfSameFeeds(t: Topology, t': Topology, st: Facts, m: UnitId, goal: Facts)
    requires AgreeOutside(t, t', m) && PlayedProperly(t, st, m) && NothingDownstream(t.graph, st, m)
    requires Retains(t', st, m, goal)
    ensures Overlay(st.rows, goal.rows, Dependents(t.graph, m)) == Erased(t, st, m).rows <==>
      SameFeeds(t, t', st, m)
  {
    OtherRetains(t, t', st, m);
    OneGoal(t', st, m, goal, Erased(t', st, m));
    RestoresExactly(t, t', st, m, goal);
    forall v | v in Dependents(t.graph, m)
      ensures ResolvesAs(t, st, m, t', goal, v) <==> ResolvesAs(t, st, m, t', Forget(st, m), v)
    {
      OtherResolve(t, t', st, m, t'.origin[v].slotA);
      OtherResolve(t, t', st, m, t'.origin[v].slotB);
    }
  }

  // ---- in place ---------------------------------------------------------------

  /** What an answered correction leaves of its draw, when some good state of `t'` has the kept results. */
  lemma AnswerIs(t': Topology, draw: Draw, before: Session, m: UnitId, outcome: Prepared, after: Session, goal: Facts)
    requires DrawWired(draw) && draw.event in before.views && draw.event in after.views
    requires Answers(draw, t', before, m, outcome, after) && Retains(t', before.views[draw.event], m, goal)
    ensures outcome == Frontier(Dependents(DrawGraph(draw), m))
    ensures after.views[draw.event].results == before.views[draw.event].results - {m}
    ensures after.views[draw.event].rows ==
      Overlay(before.views[draw.event].rows, goal.rows, Dependents(DrawGraph(draw), m))
  {
    var st, st' := before.views[draw.event], after.views[draw.event];
    if Dependents(DrawGraph(draw), m) == {} {
      MapsEqual(st'.rows, st.rows);
      MapsEqual(Overlay(st.rows, goal.rows, {}), st.rows);
    }
  }

  /** A correction of `m` with the draw `t'`, once the checks have passed. */
  lemma CorrectedOnto(t: Topology, t': Topology, draw: Draw, before: Session, m: UnitId, outcome: Prepared,
                      after: Session)
    requires DrawWired(draw) && draw.event in before.views && draw.event in after.views
    requires t.graph == DrawGraph(draw) && AgreeOutside(t, t', m)
    requires PlayedProperly(t, before.views[draw.event], m)
    requires NothingDownstream(t.graph, before.views[draw.event], m)
    requires Answers(draw, t', before, m, outcome, after)
    ensures outcome == Frontier(Dependents(t.graph, m))
    ensures after.views[draw.event] == Erased(t, before.views[draw.event], m) <==>
      SameFeeds(t, t', before.views[draw.event], m)
  {
    var st := before.views[draw.event];
    OtherRetains(t, t', st, m);
    RestoresIfSameFeeds(t, t', st, m, Erased(t', st, m));
    AnswerIs(t', draw, before, m, outcome, after, Erased(t', st, m));
  }

  /** The opening slots of such a draw are those the session still has, so the comparison passes. */
  lemma PassesComparison(draw: Draw, regen: Draw, t: Topology, st: Facts, m: UnitId)
    requires DrawValid(draw) && DrawValid(regen) && t.graph == DrawGraph(draw) && AgreeOutside(t, TopologyOf(regen), m)
    requires st.rows == DrawRows(draw) && Coherent(t, st)
    ensures SameTopology(draw, regen)
  {
    assert draw.playUnits.Keys == DrawGraph(draw).Keys && regen.playUnits.Keys == DrawGraph(regen).Keys;
    forall v | v in draw.playUnits
      ensures regen.playUnits[v].dependencies == draw.playUnits[v].dependencies
      ensures draw.playUnits[v].dependencies == [] ==> regen.slots[v] == draw.slots[v]
    {
      assert DrawGraph(draw)[v] == DrawGraph(regen)[v] && CoherentAt(t, st, v);
      assert RowAt(draw, v) == st.rows[v] && RowAt(regen, v) == DrawRows(regen)[v];
    }
  }

  /** Then nothing but what blocks any correction blocks this one. */
  lemma ChecksPass(state: TournamentState, draws: Draws, draw: Draw, format: string, regen: Draw, m: UnitId,
                   t: Topology, st: Facts)
    requires DrawsWired(draws) && Slotted(draws) && draw.event in draws && draws[draw.event] == draw
    requires m in draw.playUnits && DrawValid(draw) && DrawValid(regen) && st == Views(state, draws)[draw.event]
    requires t.graph == DrawGraph(draw) && AgreeOutside(t, TopologyOf(regen), m) && PlayedProperly(t, st, m)
    requires !Sessions.Blocked(state, draw, format, m)
    ensures Verdict(state, draw, format, regen, m) == None
    ensures m in state.results && NothingDownstream(t.graph, st, m)
  {
    Sessions.OwnView(state, draws, draw);
    ViewOf(state, draws, draw);
    PassesComparison(draw, regen, t, st, m);
  }

  /** The engine's answer to a correction whose checks pass. */
  method PrepareChecked(state: TournamentState, draws: Draws, draw: Draw, format: string, regen: Draw, m: UnitId,
                        ghost t': Topology, ghost before: Session)
    returns (outcome: Prepared)
    requires Wired(state, draws) && Slotted(draws) && draw.event in draws && draws[draw.event] == draw
    requires m in draw.playUnits && m in state.results
    requires DrawValid(regen) && regen.event == draw.event && Apart(draws, regen)
    requires Verdict(state, draw, format, regen, m) == None
    requires t' == TopologyOf(regen) && before == SessionOf(state, draws)
    modifies state`results, state`assignments, draw, draw.playUnits.Values
    modifies Repair.Alone(regen).Values, UnitsOf(Repair.Alone(regen))
    ensures Slotted(draws) && Answers(draw, t', before, m, outcome, SessionOf(state, draws))
  {
    outcome := PrepareCorrection(state, draws, draw, format, regen, m);
  }

  /** Correct a match onto a regenerated draw that may feed the dependents differently: unless it is blocked the
      correction succeeds, and it restores history exactly if the dependents are fed the same. */
  method CorrectOnto(state: TournamentState, draws: Draws, draw: Draw, format: string, regen: Draw, m: UnitId,
                     ghost t: Topology, ghost t': Topology, ghost st: Facts)
    returns (outcome: Prepared)
    requires Wired(state, draws) && Slotted(draws) && draw.event in draws && draws[draw.event] == draw
    requires m in draw.playUnits && DrawValid(regen) && regen.event == draw.event && Apart(draws, regen)
    requires st == Views(state, draws)[draw.event] && PlayedProperly(t, st, m)
    requires t' == TopologyOf(regen) && t.graph == DrawGraph(draw) && AgreeOutside(t, t', m)
    requires !Sessions.Blocked(state, draw, format, m)
    modifies state`results, state`assignments, draw, draw.playUnits.Values
    modifies Repair.Alone(regen).Values, UnitsOf(Repair.Alone(regen))
    ensures Slotted(draws) && outcome == Frontier(Dependents(t.graph, m))
    ensures Views(state, draws)[draw.event] == Erased(t, st, m) <==> SameFeeds(t, t', st, m)
  {
    Sessions.OwnView(state, draws, draw);
    ChecksPass(state, draws, draw, format, regen, m, t, st);
    ghost var before := SessionOf(state, draws);
    outcome := PrepareChecked(state, draws, draw, format, regen, m, t', before);
    CorrectedOnto(t, t', draw, before, m, outcome, SessionOf(state, draws));
  }

  // ---- a draw that passes the comparison and is not restored --------------------

  /** The same double elimination draw, but the final takes the loser of the first match, and the first
      losers' match its winner. */
  function Twisted(n: Names): Topology {
    Topology(DoubleGraph(n), DoubleOrigin(n)
      [n.w10 := Unfed(Feeder(n.w00, Loser), Feeder(n.w01, Winner))]
      [n.l00 := Unfed(Feeder(n.w00, Winner), Feeder(n.w01, Loser))])
  }

  lemma TwistedAgreesOutside(n: Names)
    requires Different(n)
    ensures AgreeOutside(Double(n), Twisted(n), n.w00)
    ensures n.w10 in Dependents(Double(n).graph, n.w00)
  {
    var t := Twisted(n);
    DoubleIsWellBuilt(n);
    FedByTwo(t, n.w10, n.w00, n.w01, Loser, Winner);
    FedByTwo(t, n.l00, n.w00, n.w01, Winner, Loser);
    FedByTwo(t, n.l10, n.l00, n.w10, Winner, Loser);
    FedByTwo(t, n.gf, n.w10, n.l10, Winner, Winner);
    WiredIsWellBuilt(t);
    DoubleDeps(n);
  }

  /** Without the result of the first match, the final waits for its loser instead of its winner. */
  lemma TwistedFeedsOther(n: Names, st: Facts)
    requires Different(n) && AgreeOutside(Double(n), Twisted(n), n.w00)
    requires n.w10 in Dependents(Double(n).graph, n.w00)
    ensures !SameFeeds(Double(n), Twisted(n), st, n.w00)
  {
    assert !ResolvesAs(Double(n), st, n.w00, Twisted(n), Forget(st, n.w00), n.w10);
  }

  /** A session in which the first match of a double elimination draw was played and nothing that depends on
      it has started, and a regenerated draw that is the twisted one. */
  ghost predicate TwistedSession(state: TournamentState, draws: Draws, draw: Draw, regen: Draw, n: Names, st: Facts)
    reads state, draws.Values, UnitsOf(draws), regen, regen.playUnits.Values
  {
    && Wired(state, draws) && Slotted(draws) && draw.event in draws && draws[draw.event] == draw
    && Different(n) && DrawGraph(draw) == DoubleGraph(n) && st == Views(state, draws)[draw.event]
    && n.w00 in draw.playUnits && PlayedProperly(Double(n), st, n.w00)
    && !Sessions.Blocked(state, draw, "de", n.w00)
    && DrawValid(regen) && TopologyOf(regen) == Twisted(n) && regen.event == draw.event && Apart(draws, regen)
  }

  /** Here every check passes and the replay succeeds, whatever else has been played, but the final waits for
      the loser of the corrected match, and the draw is not as if that match had not been played. */
  method CorrectTwisted(state: TournamentState, draws: Draws, draw: Draw, regen: Draw,
                        ghost n: Names, ghost st: Facts, m: UnitId)
    returns (outcome: Prepared)
    requires TwistedSession(state, draws, draw, regen, n, st) && m == n.w00
    modifies state`results, state`assignments, draw, draw.playUnits.Values
    modifies Repair.Alone(regen).Values, UnitsOf(Repair.Alone(regen))
    ensures Slotted(draws) && outcome.Frontier?
    ensures Double(n).origin.Keys == Double(n).graph.Keys
    ensures Views(state, draws)[draw.event] != Erased(Double(n), st, m)
  {
    TwistedAgreesOutside(n);
    TwistedFeedsOther(n, st);
    outcome := CorrectOnto(state, draws, draw, "de", regen, m, Double(n), Twisted(n), st);
  }
}
