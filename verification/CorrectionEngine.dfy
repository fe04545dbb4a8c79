/** Preparing a correction in place: find what depends on the match, refuse when that has
    started, regenerate the draw, replay the other results and copy back the dependents. */
module CorrectionEngine {
  import opened Bracket
  import Finite
  import opened Coherence
  import opened Reconciliation
  import opened Advancement
  import opened Repair
  import opened Correction
  import opened Runs

  datatype Refused =
    | LaterRoundPaired
    | DownstreamStarted
    | TopologyUnverified
    | NotReplayable
    | ReplayFailed(error: Error)
  datatype Prepared = Frontier(units: set<UnitId>) | Declined(why: Refused)

  // ---- what depends on the match ---------------------------------------------

  /** Units with a dependency in `frontier`. */
  function Following(draw: Draw, frontier: set<UnitId>): set<UnitId> {
    set v | v in draw.playUnits && exists d :: d in draw.playUnits[v].dependencies && d in frontier
  }

  /** `found` holds the dependents reached so far; those of `frontier` are still to be followed. */
  ghost predicate Explored(g: Graph, m: UnitId, found: set<UnitId>, frontier: set<UnitId>)
    requires WellFormed(g)
  {
    && found <= Dependents(g, m) && frontier <= found + {m}
    && (forall w, d {:trigger d in g[w].deps} ::
      w in g && d in g[w].deps && (d == m || d in found) && d !in frontier ==> w in found)
  }

  lemma ExploreStep(draw: Draw, m: UnitId, found: set<UnitId>, frontier: set<UnitId>)
    requires DrawWired(draw) && m in draw.playUnits && Explored(DrawGraph(draw), m, found, frontier)
    ensures Explored(DrawGraph(draw), m, found + (Following(draw, frontier) - found), Following(draw, frontier) - found)
  {
    var g, next := DrawGraph(draw), Following(draw, frontier) - found;
    forall w | w in next
      ensures w in Dependents(g, m)
    {
      var d :| d in draw.playUnits[w].dependencies && d in frontier;
      assert d in g[w].deps;
      assert d == m || DependsOn(g, d, m);
    }
    forall w, d | w in g && d in g[w].deps && (d == m || d in found + next) && d !in next
      ensures w in found + next
    {
      assert d in draw.playUnits[w].dependencies;
      assert d in frontier ==> w in Following(draw, frontier);
    }
  }

  lemma ExploredAll(g: Graph, m: UnitId, found: set<UnitId>)
    requires WellFormed(g) && Explored(g, m, found, {})
    ensures found == Dependents(g, m)
  {
    forall v | v in Dependents(g, m)
      ensures v in found
    {
      ClosedHoldsDependents(g, m, found, v);
    }
  }

  lemma FewerUnfound(all: set<UnitId>, found: set<UnitId>, more: set<UnitId>)
    requires more <= all && more !! found
    ensures more == {} ==> all - (found + more) == all - found
    ensures more != {} ==> |all - (found + more)| < |all - found|
  {
    if more != {} {
      var w :| w in more;
      Finite.SubsetSmaller(all - (found + more), all - found, w);
    } else {
      assert found + more == found;
    }
  }

  /** The transitive dependents of `m`, frontier by frontier. */
  method CollectDependents(draw: Draw, m: UnitId) returns (descendants: set<UnitId>)
    requires DrawWired(draw) && m in draw.playUnits
    ensures descendants == Dependents(DrawGraph(draw), m)
  {
    descendants := {};
    var frontier := {m};
    while frontier != {}
      invariant Explored(DrawGraph(draw), m, descendants, frontier)
      decreases |draw.playUnits.Keys - descendants|, |frontier|
    {
      var following := Following(draw, frontier) - descendants;
      ExploreStep(draw, m, descendants, frontier);
      FewerUnfound(draw.playUnits.Keys, descendants, following);
      descendants := descendants + following;
      frontier := following;
    }
    ExploredAll(DrawGraph(draw), m, descendants);
  }

  // ---- replaying what is retained ---------------------------------------------

  /** The value of the regenerated draw in the state the results are replayed into. */
  ghost function Regenerated(replay: TournamentState, regen: Draw): Facts
    requires Wired(replay, Alone(regen)) && Slotted(Alone(regen))
    reads replay`results, Alone(regen).Values, UnitsOf(Alone(regen))
  {
    Views(replay, Alone(regen))[regen.event]
  }

  /** The replay is on its way to `goal`, whose results are the retained ones. */
  ghost predicate OnTheWay(t: Topology, regen: Draw, st: Facts, goal: Facts, retained: map<UnitId, Result>) {
    t.graph == DrawGraph(regen) && Towards(t, st, goal) && goal.results == retained
  }

  /** All dependencies of `k` have results. */
  predicate IsReady(results: map<UnitId, Result>, regen: Draw, k: UnitId) {
    k in regen.playUnits && forall d | d in regen.playUnits[k].dependencies :: d in results
  }

  /** The pending units of `ids` that are ready, in their order. */
  function ReadyAmong(results: map<UnitId, Result>, regen: Draw, pending: map<UnitId, Result>,
                      ids: seq<UnitId>): (ready: seq<UnitId>)
    ensures forall k :: k in ready <==> k in ids && k in pending && IsReady(results, regen, k)
    ensures NoDuplicates(ids) ==> NoDuplicates(ready)
  {
    if ids == [] then []
    else
      (if ids[0] in pending && IsReady(results, regen, ids[0]) then [ids[0]] else [])
      + ReadyAmong(results, regen, pending, ids[1..])
  }

  /** One retained result: recorded unless a sweep has already produced one. */
  method ReplayOneRetained(replay: TournamentState, regen: Draw, key: UnitId, r: Result,
                           ghost t: Topology, ghost goal: Facts, ghost hyp: bool)
    returns (failed: Option<Error>)
    requires Wired(replay, Alone(regen)) && Slotted(Alone(regen)) && key in regen.playUnits
    requires forall d :: d in regen.playUnits[key].dependencies ==> d in replay.results
    requires hyp ==> OnTheWay(t, regen, Regenerated(replay, regen), goal, goal.results)
    requires hyp ==> key in goal.results && goal.results[key] == r
    modifies replay`results, Alone(regen).Values, UnitsOf(Alone(regen))
    ensures Slotted(Alone(regen))
    ensures hyp ==> failed.None? && OnTheWay(t, regen, Regenerated(replay, regen), goal, goal.results)
    ensures failed.None? ==> key in replay.results
    ensures old(replay.results.Keys) <= replay.results.Keys
  {
    if key in replay.results {
      return None;
    }
    OnlyDraw(replay, regen, key);
    EligibleHere(replay, Alone(regen), key);
    ghost var views := Views(replay, Alone(regen));
    if hyp {
      ReadyInView(replay, regen, key);
      ReplayTowards(t, views[regen.event], goal, key);
    }
    var outcome := RecordResult(replay, Alone(regen), key, r);
    match outcome {
      case Ok(_) => return None;
      case Failed(error) => return Some(error);
    }
  }

  lemma ReadyInView(replay: TournamentState, regen: Draw, key: UnitId)
    requires Wired(replay, Alone(regen)) && Slotted(Alone(regen)) && key in regen.playUnits
    requires forall d :: d in regen.playUnits[key].dependencies ==> d in replay.results
    ensures Ready(DrawGraph(regen), Regenerated(replay, regen), key)
  {
    OnlyDraw(replay, regen, key);
    OwnDraw(replay, Alone(regen), key);
  }

  lemma AloneWired(state: TournamentState, draw: Draw)
    requires Wired(state, Alone(draw))
    ensures DrawWired(draw)
  {
    assert Alone(draw)[draw.event] == draw;
  }

  /** Some pending result is ready as long as the replay is on its way. */
  lemma PendingHasReady(replay: TournamentState, regen: Draw, pending: map<UnitId, Result>, ready: seq<UnitId>,
                        t: Topology, goal: Facts)
    requires Wired(replay, Alone(regen)) && Slotted(Alone(regen))
    requires OnTheWay(t, regen, Regenerated(replay, regen), goal, goal.results)
    requires pending.Keys <= goal.results.Keys && pending != map[]
    requires forall k :: k in goal.results ==> k in pending || k in replay.results
    requires forall k :: k in pending && IsReady(replay.results, regen, k) ==> k in ready
    ensures ready != []
  {
    var st := Regenerated(replay, regen);
    if forall k :: k in pending ==> k in replay.results {
      var k :| k in pending;
      assert k in goal.results && CoherentAt(t, goal, k);
      assert k in st.results && CoherentAt(t, st, k);
      assert IsReady(replay.results, regen, k) by {
        forall d | d in regen.playUnits[k].dependencies
          ensures d in replay.results
        {
          assert d in t.graph[k].deps;
        }
      }
      assert k in ready;
    } else {
      var k :| k in pending && k !in replay.results;
      assert k !in st.results;
      ReplayFindsReady(t, st, goal, k);
      var v :| v in goal.results && v !in st.results && Ready(t.graph, st, v);
      assert v in regen.playUnits && v !in replay.results;
      assert IsReady(replay.results, regen, v) by {
        forall d | d in regen.playUnits[v].dependencies
          ensures d in replay.results
        {
          assert d in t.graph[v].deps;
        }
      }
      assert v in ready;
    }
  }

  /** Every retained result is still pending or has been replayed. */
  predicate Covered(retained: map<UnitId, Result>, pending: map<UnitId, Result>, results: map<UnitId, Result>) {
    retained.Keys <= pending.Keys + results.Keys
  }

  /** With a unit, `results` holds all its dependencies. */
  ghost predicate Closed(draw: Draw, results: map<UnitId, Result>) {
    forall k, d {:trigger d in draw.playUnits[k].dependencies} ::
      k in draw.playUnits && k in results && d in draw.playUnits[k].dependencies ==> d in results
  }

  /** Of closed results some pending one is ready, whatever the replay has come to: the earliest. */
  lemma {:induction false} ClosedHasReady(regen: Draw, retained: map<UnitId, Result>, pending: map<UnitId, Result>,
                                          results: map<UnitId, Result>, k: UnitId)
    requires DrawWired(regen) && Closed(regen, retained) && retained.Keys <= regen.playUnits.Keys
    requires Included(pending, retained) && Covered(retained, pending, results) && k in pending
    ensures exists v :: v in pending && IsReady(results, regen, v)
    decreases DrawGraph(regen)[k].round
  {
    if d :| d in regen.playUnits[k].dependencies && d !in results {
      assert d in DrawGraph(regen)[k].deps;
      assert d in retained;
      ClosedHasReady(regen, retained, pending, results, d);
    }
  }

  /** The first `i` units of `ready` have been taken from `pending0` and have results. */
  ghost predicate TakenFrom(pending0: map<UnitId, Result>, pending: map<UnitId, Result>, ready: seq<UnitId>, i: nat,
                            results: map<UnitId, Result>)
    requires i <= |ready|
  {
    pending == pending0 - Listed(ready[..i]) && forall k :: k in ready[..i] ==> k in results
  }

  lemma TakenNext(pending0: map<UnitId, Result>, pending: map<UnitId, Result>, ready: seq<UnitId>, i: nat,
                  results: map<UnitId, Result>)
    requires i < |ready| && TakenFrom(pending0, pending, ready, i, results)
    ensures forall more: map<UnitId, Result> :: results.Keys <= more.Keys && ready[i] in more ==>
      TakenFrom(pending0, pending - {ready[i]}, ready, i + 1, more)
  {
    assert ready[..i + 1] == ready[..i] + [ready[i]];
    assert Listed(ready[..i + 1]) == Listed(ready[..i]) + {ready[i]};
    MapsEqual(pending - {ready[i]}, pending0 - Listed(ready[..i + 1]));
  }

  /** Replay the results of one round of ready units. */
  method ReplayReady(replay: TournamentState, regen: Draw, pending0: map<UnitId, Result>, ready: seq<UnitId>,
                     ghost t: Topology, ghost goal: Facts, ghost hyp: bool)
    returns (failed: Option<Error>, pending: map<UnitId, Result>)
    requires Wired(replay, Alone(regen)) && Slotted(Alone(regen)) && NoDuplicates(ready)
    requires forall k :: k in ready ==> k in pending0 && IsReady(replay.results, regen, k)
    requires hyp ==> OnTheWay(t, regen, Regenerated(replay, regen), goal, goal.results)
    requires hyp ==> forall k :: k in pending0 ==> k in goal.results && goal.results[k] == pending0[k]
    modifies replay`results, Alone(regen).Values, UnitsOf(Alone(regen))
    ensures Slotted(Alone(regen))
    ensures hyp ==> failed.None? && OnTheWay(t, regen, Regenerated(replay, regen), goal, goal.results)
    ensures old(replay.results.Keys) <= replay.results.Keys
    ensures failed.None? ==> pending == pending0 - Listed(ready)
    ensures failed.None? ==> forall k :: k in ready ==> k in replay.results
  {
    pending := pending0;
    for i := 0 to |ready|
      invariant Slotted(Alone(regen))
      invariant hyp ==> OnTheWay(t, regen, Regenerated(replay, regen), goal, goal.results)
      invariant old(replay.results.Keys) <= replay.results.Keys
      invariant TakenFrom(pending0, pending, ready, i, replay.results)
    {
      var key := ready[i];
      assert key in ready && key in pending by { PrefixGrows(ready, i); }
      TakenNext(pending0, pending, ready, i, replay.results);
      var r := pending[key];
      pending := pending - {key};
      failed := ReplayOneRetained(replay, regen, key, r, t, goal, hyp);
      if failed.Some? {
        return;
      }
    }
    assert ready[..|ready|] == ready;
    failed := None;
  }

  lemma OneRoundReplayed(retained: map<UnitId, Result>, before: map<UnitId, Result>, ready: seq<UnitId>,
                         was: map<UnitId, Result>, now: map<UnitId, Result>)
    requires Included(before, retained) && Covered(retained, before, was) && was.Keys <= now.Keys
    requires ready != [] && forall k :: k in ready ==> k in before && k in now
    ensures Included(before - Listed(ready), retained) && Covered(retained, before - Listed(ready), now)
    ensures |before - Listed(ready)| < |before|
  {
    var after := before - Listed(ready);
    assert ready[0] in before && ready[0] !in after;
    Finite.SubsetSmaller(after.Keys, before.Keys, ready[0]);
  }

  lemma ClosedFindsReady(regen: Draw, retained: map<UnitId, Result>, pending: map<UnitId, Result>,
                         results: map<UnitId, Result>)
    requires DrawWired(regen) && Closed(regen, retained) && retained.Keys <= regen.playUnits.Keys
    requires Included(pending, retained) && Covered(retained, pending, results) && pending != map[]
    ensures ReadyAmong(results, regen, pending, regen.order) != []
  {
    var k :| k in pending;
    ClosedHasReady(regen, retained, pending, results, k);
    var v :| v in pending && IsReady(results, regen, v);
    assert v in ReadyAmong(results, regen, pending, regen.order);
  }

  /** A refusal for want of a ready result, which closed results never meet, or an error of the recording. */
  ghost predicate Refuses(regen: Draw, retained: map<UnitId, Result>, failed: Option<Refused>) {
    && (failed == Some(NotReplayable) ==> !(Closed(regen, retained) && retained.Keys <= regen.playUnits.Keys))
    && (failed.Some? ==> failed.value == NotReplayable || failed.value.ReplayFailed?)
  }

  /** Replay the pending results that are ready. */
  method ReplayRound(replay: TournamentState, regen: Draw, retained: map<UnitId, Result>, pending0: map<UnitId, Result>,
                     ghost t: Topology, ghost goal: Facts, ghost hyp: bool)
    returns (failed: Option<Refused>, pending: map<UnitId, Result>)
    requires Wired(replay, Alone(regen)) && Slotted(Alone(regen)) && DrawWired(regen) && pending0 != map[]
    requires Included(pending0, retained) && Covered(retained, pending0, replay.results)
    requires hyp ==> OnTheWay(t, regen, Regenerated(replay, regen), goal, retained)
    modifies replay`results, Alone(regen).Values, UnitsOf(Alone(regen))
    ensures Slotted(Alone(regen)) && Refuses(regen, retained, failed)
    ensures hyp ==> failed.None? && OnTheWay(t, regen, Regenerated(replay, regen), goal, retained)
    ensures failed.None? ==> Included(pending, retained) && Covered(retained, pending, replay.results)
    ensures failed.None? ==> |pending| < |pending0|
  {
    var ready := ReadyAmong(replay.results, regen, pending0, regen.order);
    if hyp {
      PendingHasReady(replay, regen, pending0, ready, t, goal);
    }
    if Closed(regen, retained) && retained.Keys <= regen.playUnits.Keys {
      ClosedFindsReady(regen, retained, pending0, replay.results);
    }
    pending := pending0;
    if ready == [] {
      return Some(NotReplayable), pending;
    }
    ghost var was := replay.results;
    var error;
    error, pending := ReplayReady(replay, regen, pending0, ready, t, goal, hyp);
    if error.Some? {
      return Some(ReplayFailed(error.value)), pending;
    }
    OneRoundReplayed(retained, pending0, ready, was, replay.results);
    failed := None;
  }

  /** Replay the retained results in dependency order: onto the regenerated draw of a good state that has them
      this ends there, and if the results are closed some pending one is always ready. */
  method ReplayRetained(replay: TournamentState, regen: Draw, retained: map<UnitId, Result>,
                        ghost t: Topology, ghost goal: Facts, ghost hyp: bool)
    returns (failed: Option<Refused>)
    requires Wired(replay, Alone(regen)) && Slotted(Alone(regen))
    requires hyp ==> OnTheWay(t, regen, Regenerated(replay, regen), goal, retained)
    modifies replay`results, Alone(regen).Values, UnitsOf(Alone(regen))
    ensures Slotted(Alone(regen)) && Refuses(regen, retained, failed)
    ensures hyp ==> failed.None? && Regenerated(replay, regen) == goal
  {
    var pending := retained;
    AloneWired(replay, regen);
    failed := None;
    while pending != map[]
      invariant Slotted(Alone(regen))
      invariant hyp ==> OnTheWay(t, regen, Regenerated(replay, regen), goal, retained)
      invariant Included(pending, retained) && Covered(retained, pending, replay.results)
      invariant failed.None?
      decreases |pending|
    {
      failed, pending := ReplayRound(replay, regen, retained, pending, t, goal, hyp);
      if failed.Some? {
        return;
      }
    }
    if hyp {
      ReplayArrives(t, Regenerated(replay, regen), goal);
    }
  }

  // ---- commit -------------------------------------------------------------------

  /** The rows of `rows`, with those of `units` taken from `other`. */
  function Overlay(rows: map<UnitId, Row>, other: map<UnitId, Row>, units: set<UnitId>): (merged: map<UnitId, Row>)
    ensures merged.Keys == rows.Keys
  {
    map v | v in rows :: if v in units && v in other then other[v] else rows[v]
  }

  /** Overwrite slots and sides of one unit. */
  method CopyUnit(draw: Draw, row: Row, v: UnitId)
    requires DrawValid(draw) && v in draw.playUnits
    modifies draw, draw.playUnits[v]
    ensures DrawValid(draw)
    ensures RowAt(draw, v) == row
    ensures forall w :: w in draw.playUnits && w != v ==> RowAt(draw, w) == old(RowAt(draw, w))
  {
    draw.slots := draw.slots[v := Pairing(row.slotA, row.slotB)];
    draw.playUnits[v].sideA := row.sideA;
    draw.playUnits[v].sideB := row.sideB;
  }

  lemma OverlayMore(rows: map<UnitId, Row>, other: map<UnitId, Row>, order: seq<UnitId>, units: set<UnitId>, i: nat)
    requires i < |order| && rows.Keys == other.Keys && order[i] in rows
    ensures Overlay(rows, other, units * Listed(order[..i + 1])) ==
      if order[i] in units then Overlay(rows, other, units * Listed(order[..i]))[order[i] := other[order[i]]]
      else Overlay(rows, other, units * Listed(order[..i]))
  {
    assert order[..i + 1] == order[..i] + [order[i]];
    MapsEqual(Overlay(rows, other, units * Listed(order[..i + 1])),
      if order[i] in units then Overlay(rows, other, units * Listed(order[..i]))[order[i] := other[order[i]]]
      else Overlay(rows, other, units * Listed(order[..i])));
  }

  lemma OverlayEnds(rows: map<UnitId, Row>, other: map<UnitId, Row>, order: seq<UnitId>, units: set<UnitId>)
    requires forall v :: v in rows ==> v in order
    ensures Overlay(rows, other, units * Listed(order[..0])) == rows
    ensures Overlay(rows, other, units * Listed(order[..|order|])) == Overlay(rows, other, units)
  {
    MapsEqual(Overlay(rows, other, units * Listed(order[..0])), rows);
    assert order[..|order|] == order;
    MapsEqual(Overlay(rows, other, units * Listed(order[..|order|])), Overlay(rows, other, units));
  }

  method CopyRow(draw: Draw, row: Row, v: UnitId)
    requires DrawValid(draw) && v in draw.playUnits
    modifies draw, draw.playUnits[v]
    ensures DrawValid(draw)
    ensures DrawRows(draw) == old(DrawRows(draw))[v := row]
  {
    ghost var rows := DrawRows(draw);
    CopyUnit(draw, row, v);
    MapsEqual(DrawRows(draw), rows[v := row]);
  }

  /** Copy slots and sides of the dependents, as `other` has them. */
  method CopyDependents(draw: Draw, other: map<UnitId, Row>, units: set<UnitId>)
    requires DrawValid(draw) && draw.playUnits.Keys == other.Keys
    modifies draw, draw.playUnits.Values
    ensures DrawValid(draw)
    ensures DrawRows(draw) == Overlay(old(DrawRows(draw)), other, units)
  {
    ghost var rows := DrawRows(draw);
    OverlayEnds(rows, other, draw.order, units);
    for i := 0 to |draw.order|
      invariant DrawValid(draw)
      invariant DrawRows(draw) == Overlay(rows, other, units * Listed(draw.order[..i]))
    {
      OverlayMore(rows, other, draw.order, units, i);
      if draw.order[i] in units {
        CopyRow(draw, other[draw.order[i]], draw.order[i]);
      }
    }
  }

  // ---- the whole preparation ----------------------------------------------------

  /** Some unit of `units` has a result or an assignment that has started. */
  predicate HasStarted(results: map<UnitId, Result>, assignments: map<UnitId, Assignment>, units: set<UnitId>) {
    exists v :: v in units && (v in results || (v in assignments && assignments[v].actualStartSlot.Some?))
  }

  /** Same units, same dependencies, same opening slots. */
  predicate SameTopology(draw: Draw, regen: Draw)
    reads draw, regen
    requires draw.slots.Keys == draw.playUnits.Keys && regen.slots.Keys == regen.playUnits.Keys
  {
    && regen.playUnits.Keys == draw.playUnits.Keys
    && (forall v :: v in draw.playUnits ==>
      && regen.playUnits[v].dependencies == draw.playUnits[v].dependencies
      && (draw.playUnits[v].dependencies == [] ==> regen.slots[v] == draw.slots[v]))
  }

  /** The topology that a regenerated draw stands for. */
  ghost function TopologyOf(regen: Draw): Topology
    requires DrawValid(regen)
    reads regen, regen.playUnits.Values
  {
    Topology(DrawGraph(regen), DrawRows(regen))
  }

  /** The tests made before anything is replayed; the first that fails names the refusal. */
  ghost function Verdict(state: TournamentState, draw: Draw, format: string, regen: Draw, m: UnitId): Option<Refused>
    requires DrawValid(draw) && DrawValid(regen) && m in draw.playUnits
    reads state, draw, regen
  {
    var units := Dependents(DrawGraph(draw), m);
    if format == "swiss" && exists v :: v in draw.playUnits && draw.playUnits[v].round > draw.playUnits[m].round
    then Some(LaterRoundPaired)
    else if HasStarted(state.results, state.assignments, units) then Some(DownstreamStarted)
    else if units != {} && !SameTopology(draw, regen) then Some(TopologyUnverified)
    else None
  }

  /** Some unit that depends on `m` has a result, or is on court: its assignment has an actual start. */
  ghost predicate UnderWay(state: TournamentState, draw: Draw, m: UnitId)
    requires DrawWired(draw)
    reads state
  {
    exists v :: v in draw.playUnits && DependsOn(DrawGraph(draw), v, m) &&
      (v in state.results || (v in state.assignments && state.assignments[v].actualStartSlot.Some?))
  }

  lemma StartedIsUnderWay(state: TournamentState, draw: Draw, m: UnitId)
    requires DrawWired(draw)
    ensures HasStarted(state.results, state.assignments, Dependents(DrawGraph(draw), m)) <==> UnderWay(state, draw, m)
  {
    if HasStarted(state.results, state.assignments, Dependents(DrawGraph(draw), m)) {
      var v :| v in Dependents(DrawGraph(draw), m) &&
        (v in state.results || (v in state.assignments && state.assignments[v].actualStartSlot.Some?));
      assert v in draw.playUnits && DependsOn(DrawGraph(draw), v, m);
    }
    if UnderWay(state, draw, m) {
      var v :| v in draw.playUnits && DependsOn(DrawGraph(draw), v, m) &&
        (v in state.results || (v in state.assignments && state.assignments[v].actualStartSlot.Some?));
      assert v in Dependents(DrawGraph(draw), m);
    }
  }

  /** The regenerated draw has other units, other dependencies, or other slots where nothing feeds a unit. */
  ghost predicate LooksDifferent(draw: Draw, regen: Draw)
    requires draw.slots.Keys == draw.playUnits.Keys && regen.slots.Keys == regen.playUnits.Keys
    reads draw, regen
  {
    || (exists v :: v in draw.playUnits && v !in regen.playUnits)
    || (exists v :: v in regen.playUnits && v !in draw.playUnits)
    || (exists v :: v in draw.playUnits && v in regen.playUnits &&
          draw.playUnits[v].dependencies != regen.playUnits[v].dependencies)
    || (exists v :: v in draw.playUnits && v in regen.playUnits && draw.playUnits[v].dependencies == []
          && (draw.slots[v].a != regen.slots[v].a || draw.slots[v].b != regen.slots[v].b))
  }

  lemma SameTopologyInPlainTerms(draw: Draw, regen: Draw)
    requires draw.slots.Keys == draw.playUnits.Keys && regen.slots.Keys == regen.playUnits.Keys
    ensures SameTopology(draw, regen) <==> !LooksDifferent(draw, regen)
  {
    if !LooksDifferent(draw, regen) {
      assert forall v :: v in draw.playUnits <==> v in regen.playUnits;
      assert draw.playUnits.Keys == regen.playUnits.Keys;
    }
  }

  /** The refusals, first to last: a later Swiss round, a dependent that is under way, and, if anything depends on
      the match, a regenerated draw that looks different. */
  lemma VerdictInPlainTerms(state: TournamentState, draw: Draw, format: string, regen: Draw, m: UnitId)
    requires DrawValid(draw) && DrawValid(regen) && m in draw.playUnits
    ensures var later := format == "swiss" &&
        exists v :: v in draw.playUnits && draw.playUnits[v].round > draw.playUnits[m].round;
      var depends := exists v :: v in draw.playUnits && DependsOn(DrawGraph(draw), v, m);
      Verdict(state, draw, format, regen, m) ==
        if later then Some(LaterRoundPaired)
        else if UnderWay(state, draw, m) then Some(DownstreamStarted)
        else if depends && LooksDifferent(draw, regen) then Some(TopologyUnverified)
        else None
  {
    StartedIsUnderWay(state, draw, m);
    SameTopologyInPlainTerms(draw, regen);
    if v :| v in draw.playUnits && DependsOn(DrawGraph(draw), v, m) {
      assert v in Dependents(DrawGraph(draw), m);
    }
    if v :| v in Dependents(DrawGraph(draw), m) {
      assert v in draw.playUnits && DependsOn(DrawGraph(draw), v, m);
    }
  }

  /** `st` is a good state of the draw, in which `m` was a played match. */
  ghost predicate PlayedProperly(t: Topology, st: Facts, m: UnitId) {
    Good(t, st) && m in st.results && !OneSided(st.rows[m])
  }

  lemma NoDependents(t: Topology, st: Facts, m: UnitId)
    requires Coherent(t, st) && Dependents(t.graph, m) == {}
    ensures Erased(t, st, m) == Forget(st, m)
  {
    forall u | u in t.graph
      ensures Erased(t, st, m).rows[u] == st.rows[u]
    {
      assert u !in Dependents(t.graph, m);
      assert !DependsOn(t.graph, u, m);
      ErasedRow(t, st, m, u);
    }
    MapsEqual(Erased(t, st, m).rows, st.rows);
  }

  /** Copying the dependents from the erased state gives the erased state. */
  lemma OverlayIsErased(t: Topology, st: Facts, m: UnitId)
    requires Coherent(t, st)
    ensures Overlay(st.rows, Erased(t, st, m).rows, Dependents(t.graph, m)) == Erased(t, st, m).rows
  {
    forall u | u in t.graph
      ensures Overlay(st.rows, Erased(t, st, m).rows, Dependents(t.graph, m))[u] == Erased(t, st, m).rows[u]
    {
      if u !in Dependents(t.graph, m) {
        assert !DependsOn(t.graph, u, m);
        ErasedRow(t, st, m, u);
      }
    }
    MapsEqual(Overlay(st.rows, Erased(t, st, m).rows, Dependents(t.graph, m)), Erased(t, st, m).rows);
  }

  /** The untouched draw is on the way to every good state. */
  lemma ReplayBegins(t: Topology, goal: Facts)
    requires Good(t, goal)
    ensures Towards(t, Untouched(t), goal)
  {
    RegisteredIsGood(t);
    assert Played(Untouched(t)) == map[];
  }

  /** The results the replay starts from and those it replays. */
  function Kept(results: map<UnitId, Result>, draw: Draw, m: UnitId): map<UnitId, Result> {
    map k | k in results && k in draw.playUnits && k != m :: results[k]
  }

  ghost predicate SameDependencies(draw: Draw, regen: Draw) {
    && regen.playUnits.Keys == draw.playUnits.Keys
    && forall v :: v in draw.playUnits ==> regen.playUnits[v].dependencies == draw.playUnits[v].dependencies
  }

  /** Results of a draw that are closed stay so without `m`, if nothing downstream of `m` has one. */
  lemma KeptClosed(draw: Draw, regen: Draw, results: map<UnitId, Result>, m: UnitId)
    requires DrawWired(draw) && Closed(draw, results) && Dependents(DrawGraph(draw), m) !! results.Keys
    requires SameDependencies(draw, regen)
    ensures Closed(regen, Kept(results, draw, m)) && Kept(results, draw, m).Keys <= regen.playUnits.Keys
  {
    var g := DrawGraph(draw);
    forall k, d | k in regen.playUnits && k in Kept(results, draw, m) && d in regen.playUnits[k].dependencies
      ensures d in Kept(results, draw, m)
    {
      assert d in draw.playUnits[k].dependencies && d in g[k].deps;
      assert k !in Dependents(g, m);
      assert !DependsOn(g, k, m);
    }
  }

  lemma ReplayWired(state: TournamentState, draws: Draws, draw: Draw, regen: Draw, replay: TournamentState)
    requires Wired(state, draws) && draw in draws.Values && DrawWired(regen)
    requires regen.event == draw.event && regen.playUnits.Keys == draw.playUnits.Keys
    requires replay.playUnits == state.playUnits + regen.playUnits && replay.order == state.order
    ensures Wired(replay, Alone(regen))
  {
    assert DrawsWired(Alone(regen)) && Shares(state, draw);
    assert forall u :: u in draw.playUnits ==> u in state.playUnits;
    assert Shares(replay, regen);
  }

  lemma ReplayStarts(replay: TournamentState, regen: Draw)
    requires Wired(replay, Alone(regen)) && Slotted(Alone(regen)) && DrawValid(regen)
    requires replay.results.Keys !! regen.playUnits.Keys
    ensures Regenerated(replay, regen) == Untouched(TopologyOf(regen))
  {
    assert Alone(regen)[regen.event] == regen;
    assert Restrict(replay.results, regen.playUnits.Keys) == map[];
    MapsEqual(Regenerated(replay, regen).rows, Untouched(TopologyOf(regen)).rows);
  }

  /** A state of its own to replay into: the other draws' units, and no result of this draw. */
  method StartReplay(state: TournamentState, draws: Draws, draw: Draw, regen: Draw, ghost t: Topology)
    returns (replay: TournamentState)
    requires Wired(state, draws) && draw in draws.Values && DrawValid(regen) && t == TopologyOf(regen)
    requires regen.event == draw.event && regen.playUnits.Keys == draw.playUnits.Keys
    ensures fresh(replay) && Wired(replay, Alone(regen)) && Slotted(Alone(regen)) && DrawValid(regen)
    ensures Regenerated(replay, regen) == Untouched(t)
  {
    replay := new TournamentState(state.playUnits + regen.playUnits, state.order,
                                  state.results - draw.playUnits.Keys, state.assignments);
    ReplayWired(state, draws, draw, regen, replay);
    assert unchanged(regen) && unchanged(regen.playUnits.Values);
    assert Alone(regen)[regen.event] == regen;
    ReplayStarts(replay, regen);
  }

  /** Replay the retained results onto the regenerated draw, in a state of its own. */
  method ReplayOnto(state: TournamentState, draws: Draws, draw: Draw, regen: Draw, retained: map<UnitId, Result>,
                    ghost t: Topology, ghost goal: Facts, ghost hyp: bool)
    returns (failed: Option<Refused>, rows: map<UnitId, Row>)
    requires Wired(state, draws) && draw in draws.Values && DrawValid(regen) && t == TopologyOf(regen)
    requires regen.event == draw.event && regen.playUnits.Keys == draw.playUnits.Keys
    requires retained.Keys <= draw.playUnits.Keys && (hyp ==> Good(t, goal) && goal.results == retained)
    modifies Alone(regen).Values, UnitsOf(Alone(regen))
    ensures rows.Keys == regen.playUnits.Keys
    ensures hyp ==> failed.None? && rows == goal.rows
    ensures Refuses(regen, retained, failed)
  {
    var replay := StartReplay(state, draws, draw, regen, t);
    if hyp {
      ReplayBegins(t, goal);
    }
    failed := ReplayRetained(replay, regen, retained, t, goal, hyp);
    assert Alone(regen)[regen.event] == regen;
    rows := DrawRows(regen);
  }

  /** The session once `m` has lost its result and the rows of `units` have been replaced. */
  ghost function Committed(views: map<EventId, Facts>, event: EventId, other: map<UnitId, Row>, units: set<UnitId>,
                           m: UnitId)
    : (views': map<EventId, Facts>)
    requires event in views
    ensures views'.Keys == views.Keys
  {
    views[event := Facts(Overlay(views[event].rows, other, units), views[event].results - {m})]
  }

  lemma CommitAssembles(draws: Draws, draw: Draw, rows: map<EventId, map<UnitId, Row>>, results: map<UnitId, Result>,
                        other: map<UnitId, Row>, units: set<UnitId>, m: UnitId)
    requires DrawsWired(draws) && draw.event in draws && draws[draw.event] == draw && m in draw.playUnits
    requires rows.Keys == draws.Keys
    ensures Assemble(draws, rows[draw.event := Overlay(rows[draw.event], other, units)], results - {m}) ==
      Committed(Assemble(draws, rows, results), draw.event, other, units, m)
  {
    forall e | e in draws
      ensures Restrict(results - {m}, draws[e].playUnits.Keys) ==
        if e == draw.event then Restrict(results, draws[e].playUnits.Keys) - {m}
        else Restrict(results, draws[e].playUnits.Keys)
    {
      assert m in draws[e].playUnits <==> e == draw.event;
      RestrictLess(results, m, draws[e].playUnits.Keys);
    }
    MapsEqual(Assemble(draws, rows[draw.event := Overlay(rows[draw.event], other, units)], results - {m}),
      Committed(Assemble(draws, rows, results), draw.event, other, units, m));
  }

  lemma RestrictLess<V>(m: map<UnitId, V>, u: UnitId, keys: set<UnitId>)
    ensures Restrict(m - {u}, keys) == if u in keys then Restrict(m, keys) - {u} else Restrict(m, keys)
  {
    MapsEqual(Restrict(m - {u}, keys), if u in keys then Restrict(m, keys) - {u} else Restrict(m, keys));
  }

  method CopyWithin(draws: Draws, draw: Draw, other: map<UnitId, Row>, units: set<UnitId>)
    requires DrawsWired(draws) && Slotted(draws) && draw.event in draws && draws[draw.event] == draw
    requires draw.playUnits.Keys == other.Keys
    modifies draw, draw.playUnits.Values
    ensures Slotted(draws)
    ensures AllRows(draws)[draw.event] == Overlay(old(AllRows(draws))[draw.event], other, units)
    ensures forall e :: e in draws && e != draw.event ==> AllRows(draws)[e] == old(AllRows(draws))[e]
  {
    CopyDependents(draw, other, units);
    forall e | e in draws && e != draw.event
      ensures DrawValid(draws[e]) && DrawRows(draws[e]) == old(DrawRows(draws[e]))
    {
      DisjointDraws(draws, draw, e);
      var o := draws[e];
      assert unchanged(o) && unchanged(o.playUnits.Values);
    }
  }

  /** `CopyDependents` among several draws. */
  method CopyAmong(draws: Draws, draw: Draw, other: map<UnitId, Row>, units: set<UnitId>)
    requires DrawsWired(draws) && Slotted(draws) && draw.event in draws && draws[draw.event] == draw
    requires draw.playUnits.Keys == other.Keys
    modifies draw, draw.playUnits.Values
    ensures Slotted(draws)
    ensures AllRows(draws) == old(AllRows(draws))[draw.event := Overlay(old(AllRows(draws))[draw.event], other, units)]
  {
    ghost var rows := AllRows(draws);
    CopyWithin(draws, draw, other, units);
    OneUpdated(rows, AllRows(draws), draw.event, Overlay(rows[draw.event], other, units));
  }

  lemma OneUpdated<K, V>(before: map<K, V>, after: map<K, V>, key: K, value: V)
    requires after.Keys == before.Keys && key in after && after[key] == value
    requires forall k :: k in before && k != key ==> after[k] == before[k]
    ensures after == before[key := value]
  {
    MapsEqual(after, before[key := value]);
  }

  method DropAssignments(state: TournamentState, draws: Draws, units: set<UnitId>)
    requires DrawsWired(draws) && Slotted(draws)
    modifies state`assignments
    ensures Slotted(draws) && AllRows(draws) == old(AllRows(draws))
    ensures state.assignments == old(state.assignments) - units
  {
    state.assignments := state.assignments - units;
    assert unchanged(draws.Values) && unchanged(UnitsOf(draws));
  }

  method DropResult(state: TournamentState, draws: Draws, m: UnitId)
    requires DrawsWired(draws) && Slotted(draws)
    modifies state`results
    ensures Slotted(draws) && AllRows(draws) == old(AllRows(draws))
    ensures state.results == old(state.results) - {m}
  {
    state.results := state.results - {m};
    assert unchanged(draws.Values) && unchanged(UnitsOf(draws));
  }

  method Drop(state: TournamentState, draws: Draws, units: set<UnitId>, m: UnitId)
    requires DrawsWired(draws) && Slotted(draws)
    modifies state`results, state`assignments
    ensures Slotted(draws) && AllRows(draws) == old(AllRows(draws))
    ensures state.results == old(state.results) - {m} && state.assignments == old(state.assignments) - units
  {
    DropAssignments(state, draws, units);
    DropResult(state, draws, m);
  }

  /** Put the correction into the session: copy the dependents, drop assignments and result. */
  method Commit(state: TournamentState, draws: Draws, draw: Draw, other: map<UnitId, Row>, units: set<UnitId>,
                m: UnitId)
    requires DrawsWired(draws) && Slotted(draws) && draw.event in draws && draws[draw.event] == draw
    requires draw.playUnits.Keys == other.Keys && m in draw.playUnits
    modifies state`results, state`assignments, draw, draw.playUnits.Values
    ensures Slotted(draws)
    ensures state.results == old(state.results) - {m} && state.assignments == old(state.assignments) - units
    ensures Views(state, draws) == Committed(old(Views(state, draws)), draw.event, other, units, m)
  {
    ghost var rows, results := AllRows(draws), state.results;
    CommitAssembles(draws, draw, rows, results, other, units, m);
    CopyAmong(draws, draw, other, units);
    assert unchanged(state) by { assert forall o :: o in draw.playUnits.Values ==> (o as object) != state; }
    Drop(state, draws, units, m);
  }

  /** The regenerated draw shares nothing with the session. */
  ghost predicate Apart(draws: Draws, regen: Draw) {
    regen !in draws.Values && UnitsOf(Alone(regen)) !! UnitsOf(draws)
  }

  /** The abstract value of a session: its draws, results and assignments. */
  datatype Session = Session(
    views: map<EventId, Facts>,
    results: map<UnitId, Result>,
    assignments: map<UnitId, Assignment>)

  ghost function SessionOf(state: TournamentState, draws: Draws): (session: Session)
    requires DrawsWired(draws) && Slotted(draws)
    reads state`results, state`assignments, draws.Values, UnitsOf(draws)
    ensures session.views.Keys == draws.Keys
  {
    Session(Views(state, draws), state.results, state.assignments)
  }

  /** A good state of the regenerated draw whose results are the retained ones. */
  ghost predicate Retains(t: Topology, st: Facts, m: UnitId, goal: Facts) {
    Good(t, goal) && goal.results == st.results - {m}
  }

  /** What a correction of `m` does to its draw: its result is gone, only the dependents may look
      different, and they look as in the good state of the regenerated draw that has the retained
      results, if there is one. */
  ghost predicate Redrawn(t: Topology, st: Facts, m: UnitId, units: set<UnitId>, st': Facts) {
    && st'.results == st.results - {m} && st'.rows.Keys == st.rows.Keys
    && (forall v :: v in st.rows && v !in units ==> st'.rows[v] == st.rows[v])
    && (units != {} ==> forall goal {:trigger Retains(t, st, m, goal)} ::
          Retains(t, st, m, goal) ==> st'.rows == Overlay(st.rows, goal.rows, units))
  }

  /** What a correction of `m` does once its checks have passed. A refusal changes nothing,
      and comes only from a replay of results that fit no good state of the regenerated draw; for want
      of a ready result it comes only if the results recorded were not closed.
      Otherwise the result of `m` and the assignments of its dependents are gone, and only its
      draw has changed. */
  ghost predicate Answers(draw: Draw, t: Topology, before: Session, m: UnitId, outcome: Prepared, after: Session)
    requires DrawWired(draw) && draw.event in before.views && draw.event in after.views
  {
    var st, st' := before.views[draw.event], after.views[draw.event];
    match outcome
    case Declined(why) =>
      && after == before && Dependents(DrawGraph(draw), m) != {} && (!exists goal :: Retains(t, st, m, goal))
      && (why == NotReplayable || why.ReplayFailed?) && (why == NotReplayable ==> !Closed(draw, before.results))
    case Frontier(units) =>
      && units == Dependents(DrawGraph(draw), m)
      && after.results == before.results - {m} && after.assignments == before.assignments - units
      && after.views == before.views[draw.event := st'] && Redrawn(t, st, m, units, st')
  }

  /** Rows of a coherent state are determined by its results. */
  lemma {:induction false} ResultsDetermineRow(t: Topology, st: Facts, goal: Facts, u: UnitId)
    requires Coherent(t, st) && Coherent(t, goal) && st.results == goal.results && u in t.graph
    ensures st.rows[u] == goal.rows[u]
    decreases t.graph[u].round
  {
    assert CoherentAt(t, st, u) && CoherentAt(t, goal, u);
    forall s | s == t.origin[u].slotA || s == t.origin[u].slotB
      ensures Resolve(st, s) == Resolve(goal, s)
    {
      if s.Feeder? {
        assert s.unit in t.graph[u].deps;
        ResultsDetermineRow(t, st, goal, s.unit);
      }
    }
  }

  /** The retained results fit at most one good state. */
  lemma OneGoal(t: Topology, st: Facts, m: UnitId, goal: Facts, other: Facts)
    requires Retains(t, st, m, goal) && Retains(t, st, m, other)
    ensures goal == other
  {
    forall u | u in goal.rows
      ensures goal.rows[u] == other.rows[u]
    {
      ResultsDetermineRow(t, goal, other, u);
    }
    MapsEqual(goal.rows, other.rows);
  }

  lemma KeptResults(results: map<UnitId, Result>, draw: Draw, m: UnitId)
    ensures Kept(results, draw, m) == Restrict(results, draw.playUnits.Keys) - {m}
  {
    MapsEqual(Kept(results, draw, m), Restrict(results, draw.playUnits.Keys) - {m});
  }

  lemma ViewOf(state: TournamentState, draws: Draws, draw: Draw)
    requires DrawsWired(draws) && Slotted(draws) && draw.event in draws && draws[draw.event] == draw
    ensures Views(state, draws)[draw.event].results == Restrict(state.results, draw.playUnits.Keys)
  {
  }

  /** `ReplayOnto` leaves the session as it was. */
  method ReplayApart(state: TournamentState, draws: Draws, draw: Draw, regen: Draw, retained: map<UnitId, Result>,
                     ghost t: Topology, ghost goal: Facts, ghost hyp: bool)
    returns (failed: Option<Refused>, rows: map<UnitId, Row>)
    requires Wired(state, draws) && Slotted(draws) && draw in draws.Values && DrawValid(regen) && Apart(draws, regen)
    requires regen.event == draw.event && regen.playUnits.Keys == draw.playUnits.Keys && t == TopologyOf(regen)
    requires retained.Keys <= draw.playUnits.Keys && (hyp ==> Good(t, goal) && goal.results == retained)
    modifies Alone(regen).Values, UnitsOf(Alone(regen))
    ensures unchanged(state) && unchanged(draws.Values) && unchanged(UnitsOf(draws))
    ensures rows.Keys == regen.playUnits.Keys
    ensures hyp ==> failed.None? && rows == goal.rows
    ensures Refuses(regen, retained, failed)
  {
    failed, rows := ReplayOnto(state, draws, draw, regen, retained, t, goal, hyp);
  }

  /** The replay has succeeded with the rows of every good state that has the retained results. */
  ghost predicate Arrived(t: Topology, st: Facts, m: UnitId, failed: Option<Refused>, rows: map<UnitId, Row>) {
    forall goal {:trigger Retains(t, st, m, goal)} :: Retains(t, st, m, goal) ==> failed.None? && rows == goal.rows
  }

  lemma ArrivedAt(t: Topology, st: Facts, m: UnitId, goal: Facts, failed: Option<Refused>, rows: map<UnitId, Row>)
    requires Retains(t, st, m, goal) && failed.None? && rows == goal.rows
    ensures Arrived(t, st, m, failed, rows)
  {
    forall other | Retains(t, st, m, other)
      ensures rows == other.rows
    {
      OneGoal(t, st, m, goal, other);
    }
  }

  /** Replay everything but `m` onto the regenerated draw of `m`. */
  method ReplayWithout(state: TournamentState, draws: Draws, draw: Draw, regen: Draw, m: UnitId,
                       ghost t: Topology, ghost views: map<EventId, Facts>)
    returns (failed: Option<Refused>, rows: map<UnitId, Row>)
    requires Wired(state, draws) && Slotted(draws) && draw.event in draws && draws[draw.event] == draw
    requires DrawValid(regen) && regen.event == draw.event && Apart(draws, regen)
    requires regen.playUnits.Keys == draw.playUnits.Keys
    requires t == TopologyOf(regen) && views == Views(state, draws)
    modifies Alone(regen).Values, UnitsOf(Alone(regen))
    ensures Slotted(draws) && Views(state, draws) == views && rows.Keys == draw.playUnits.Keys
    ensures state.results == old(state.results) && state.assignments == old(state.assignments)
    ensures Arrived(t, views[draw.event], m, failed, rows)
    ensures Refuses(regen, Kept(old(state.results), draw, m), failed)
  {
    var retained := Kept(state.results, draw, m);
    ghost var st := views[draw.event];
    ghost var hyp, goal := exists f :: Retains(t, st, m, f), st;
    ViewOf(state, draws, draw);
    KeptResults(state.results, draw, m);
    if hyp {
      goal :| Retains(t, st, m, goal);
    }
    failed, rows := ReplayApart(state, draws, draw, regen, retained, t, goal, hyp);
    if hyp {
      ArrivedAt(t, st, m, goal, failed, rows);
    }
  }

  /** Committing the replayed rows redraws the draw of `m`. */
  lemma CommitRedraws(t: Topology, views: map<EventId, Facts>, event: EventId, m: UnitId, units: set<UnitId>,
                      rows: map<UnitId, Row>)
    requires event in views && Arrived(t, views[event], m, None, rows)
    ensures Redrawn(t, views[event], m, units, Committed(views, event, rows, units, m)[event])
  {
  }

  lemma RefusalAnswers(draw: Draw, regen: Draw, t: Topology, before: Session, m: UnitId, failed: Option<Refused>,
                       rows: map<UnitId, Row>)
    requires DrawWired(draw) && SameDependencies(draw, regen) && draw.event in before.views
    requires Dependents(DrawGraph(draw), m) != {} && Dependents(DrawGraph(draw), m) !! before.results.Keys
    requires failed.Some? && Refuses(regen, Kept(before.results, draw, m), failed)
    requires Arrived(t, before.views[draw.event], m, failed, rows)
    ensures Answers(draw, t, before, m, Declined(failed.value), before)
  {
    if Closed(draw, before.results) {
      KeptClosed(draw, regen, before.results, m);
    }
  }

  /** Replay and commit, for a match with dependents that have not started. */
  method Regenerate(state: TournamentState, draws: Draws, draw: Draw, regen: Draw, m: UnitId, units: set<UnitId>,
                    ghost t: Topology, ghost before: Session)
    returns (outcome: Prepared)
    requires Wired(state, draws) && Slotted(draws) && draw.event in draws && draws[draw.event] == draw
    requires m in draw.playUnits
    requires DrawValid(regen) && regen.event == draw.event && Apart(draws, regen) && SameTopology(draw, regen)
    requires units == Dependents(DrawGraph(draw), m) && units != {} && units !! state.results.Keys
    requires t == TopologyOf(regen) && before == SessionOf(state, draws)
    modifies state`results, state`assignments, draw, draw.playUnits.Values, Alone(regen).Values, UnitsOf(Alone(regen))
    ensures Slotted(draws)
    ensures Answers(draw, t, before, m, outcome, SessionOf(state, draws))
  {
    assert SameDependencies(draw, regen);
    var failed, rows := ReplayWithout(state, draws, draw, regen, m, t, before.views);
    if failed.Some? {
      RefusalAnswers(draw, regen, t, before, m, failed, rows);
      return Declined(failed.value);
    }
    CommitRedraws(t, before.views, draw.event, m, units, rows);
    Commit(state, draws, draw, rows, units, m);
    return Frontier(units);
  }

  /** Remove the result of a match that nothing depends on. */
  method RemoveTerminal(state: TournamentState, draws: Draws, draw: Draw, m: UnitId, ghost before: Session)
    requires DrawsWired(draws) && Slotted(draws) && draw.event in draws && draws[draw.event] == draw
    requires m in draw.playUnits
    requires before == SessionOf(state, draws)
    modifies state`results
    ensures Slotted(draws)
    ensures SessionOf(state, draws) == Session(
      before.views[draw.event := Forget(before.views[draw.event], m)], before.results - {m}, before.assignments)
  {
    ghost var rows := AllRows(draws);
    TerminalAssembles(draws, draw, rows, state.results, m);
    DropResult(state, draws, m);
  }

  lemma TerminalAssembles(draws: Draws, draw: Draw, rows: map<EventId, map<UnitId, Row>>, results: map<UnitId, Result>,
                          m: UnitId)
    requires DrawsWired(draws) && draw.event in draws && draws[draw.event] == draw && m in draw.playUnits
    requires rows.Keys == draws.Keys
    ensures Assemble(draws, rows, results - {m}) ==
      Assemble(draws, rows, results)[draw.event := Forget(Assemble(draws, rows, results)[draw.event], m)]
  {
    CommitAssembles(draws, draw, rows, results, map[], {}, m);
    CommitsNothing(Assemble(draws, rows, results), draw.event, m);
    MapsEqual(Overlay(rows[draw.event], map[], {}), rows[draw.event]);
    MapsEqual(rows[draw.event := Overlay(rows[draw.event], map[], {})], rows);
  }

  lemma TerminalAnswers(draw: Draw, t: Topology, before: Session, m: UnitId)
    requires DrawWired(draw) && draw.event in before.views && Dependents(DrawGraph(draw), m) == {}
    ensures Answers(draw, t, before, m, Frontier({}), Session(
      before.views[draw.event := Forget(before.views[draw.event], m)], before.results - {m}, before.assignments))
  {
    MapsEqual(before.assignments, before.assignments - {});
  }

  lemma CommitsNothing(views: map<EventId, Facts>, event: EventId, m: UnitId)
    requires event in views
    ensures Committed(views, event, map[], {}, m) == views[event := Forget(views[event], m)]
  {
    MapsEqual(Overlay(views[event].rows, map[], {}), views[event].rows);
  }

  /** The checks, in the order they are made; `units` is the set of dependents. */
  method Check(state: TournamentState, draw: Draw, format: string, regen: Draw, m: UnitId)
    returns (refused: Option<Refused>, units: set<UnitId>)
    requires DrawValid(draw) && DrawValid(regen) && m in draw.playUnits
    ensures refused == old(Verdict(state, draw, format, regen, m))
    ensures refused != Some(LaterRoundPaired) ==> units == Dependents(DrawGraph(draw), m)
    ensures refused == None && units != {} ==> SameTopology(draw, regen)
    ensures refused == None ==> units !! state.results.Keys
  {
    units := {};
    if format == "swiss" && exists v :: v in draw.playUnits && draw.playUnits[v].round > draw.playUnits[m].round {
      return Some(LaterRoundPaired), units;
    }
    units := CollectDependents(draw, m);
    if HasStarted(state.results, state.assignments, units) {
      return Some(DownstreamStarted), units;
    }
    if units != {} && !SameTopology(draw, regen) {
      return Some(TopologyUnverified), units;
    }
    return None, units;
  }

  /** `Check` leaves the session and the regenerated draw as they were. */
  method CheckOnly(state: TournamentState, draws: Draws, draw: Draw, format: string, regen: Draw, m: UnitId,
                   ghost t: Topology, ghost before: Session)
    returns (refused: Option<Refused>, units: set<UnitId>)
    requires DrawsWired(draws) && Slotted(draws) && draw.event in draws && draws[draw.event] == draw
    requires DrawValid(regen) && m in draw.playUnits
    requires t == TopologyOf(regen) && before == SessionOf(state, draws)
    ensures Slotted(draws) && before == SessionOf(state, draws)
    ensures DrawValid(regen) && t == TopologyOf(regen)
    ensures refused == old(Verdict(state, draw, format, regen, m))
    ensures refused != Some(LaterRoundPaired) ==> units == Dependents(DrawGraph(draw), m)
    ensures refused == None ==> units !! state.results.Keys && (units != {} ==> SameTopology(draw, regen))
  {
    refused, units := Check(state, draw, format, regen, m);
    assert unchanged(state) && unchanged(draws.Values) && unchanged(UnitsOf(draws));
    assert before == SessionOf(state, draws);
    assert unchanged(regen.playUnits.Values);
  }

  /** Take the result of `m` back, once every check has passed. */
  method TakeBack(state: TournamentState, draws: Draws, draw: Draw, regen: Draw, m: UnitId, units: set<UnitId>,
                  ghost t: Topology, ghost before: Session)
    returns (outcome: Prepared)
    requires Wired(state, draws) && Slotted(draws) && draw.event in draws && draws[draw.event] == draw
    requires m in draw.playUnits
    requires DrawValid(regen) && regen.event == draw.event && Apart(draws, regen)
    requires units != {} ==> SameTopology(draw, regen)
    requires units == Dependents(DrawGraph(draw), m) && units !! state.results.Keys
    requires t == TopologyOf(regen) && before == SessionOf(state, draws)
    modifies state`results, state`assignments, draw, draw.playUnits.Values, Alone(regen).Values, UnitsOf(Alone(regen))
    ensures Slotted(draws)
    ensures Answers(draw, t, before, m, outcome, SessionOf(state, draws))
  {
    if units == {} {
      RemoveTerminal(state, draws, draw, m, before);
      TerminalAnswers(draw, t, before, m);
      outcome := Frontier({});
    } else {
      outcome := Regenerate(state, draws, draw, regen, m, units, t, before);
    }
  }

  /** When `m` was played in a good state of the regenerated draw, the erased state is the good
      one that has the retained results. */
  lemma ErasedRetains(t: Topology, st: Facts, m: UnitId)
    requires PlayedProperly(t, st, m) && NothingDownstream(t.graph, st, m)
    ensures Retains(t, st, m, Erased(t, st, m))
    ensures Overlay(st.rows, Erased(t, st, m).rows, Dependents(t.graph, m)) == Erased(t, st, m).rows
  {
    ErasedIsGood(t, st, m);
    OverlayIsErased(t, st, m);
  }

  /** So the correction of such a match is never refused after its checks, and erases it. */
  lemma ProperlyAnswered(draw: Draw, t: Topology, before: Session, m: UnitId, outcome: Prepared, after: Session)
    requires DrawWired(draw) && draw.event in before.views && draw.event in after.views
    requires Answers(draw, t, before, m, outcome, after) && PlayedProperly(t, before.views[draw.event], m)
    requires Dependents(t.graph, m) == Dependents(DrawGraph(draw), m)
    requires NothingDownstream(t.graph, before.views[draw.event], m)
    ensures outcome == Frontier(Dependents(DrawGraph(draw), m))
    ensures after.views == before.views[draw.event := Erased(t, before.views[draw.event], m)]
  {
    ErasedRetains(t, before.views[draw.event], m);
    if Dependents(t.graph, m) == {} {
      NoDependents(t, before.views[draw.event], m);
      MapsEqual(after.views[draw.event].rows, before.views[draw.event].rows);
    }
  }

  /** Prepare the correction of `m`: `draw` is the draw of its event, and `regen` the draw
      that the generator returns for the same participants. */
  method PrepareCorrection(state: TournamentState, draws: Draws, draw: Draw, format: string, regen: Draw, m: UnitId)
    returns (outcome: Prepared)
    requires Wired(state, draws) && Slotted(draws) && draw.event in draws && draws[draw.event] == draw
    requires m in draw.playUnits && m in state.results
    requires DrawValid(regen) && regen.event == draw.event && Apart(draws, regen)
    modifies state`results, state`assignments, draw, draw.playUnits.Values, Alone(regen).Values, UnitsOf(Alone(regen))
    ensures Slotted(draws)
    ensures match old(Verdict(state, draw, format, regen, m))
            case Some(why) => outcome == Declined(why) && SessionOf(state, draws) == old(SessionOf(state, draws))
            case None =>
              Answers(draw, old(TopologyOf(regen)), old(SessionOf(state, draws)), m, outcome, SessionOf(state, draws))
    ensures forall v :: v in draw.playUnits && DependsOn(DrawGraph(draw), v, m) && v in old(state.results) ==>
      outcome.Declined? && SessionOf(state, draws) == old(SessionOf(state, draws))
    ensures forall v :: v in draw.playUnits && DependsOn(DrawGraph(draw), v, m) ==>
      v in old(state.assignments) && old(state.assignments)[v].actualStartSlot.Some? ==>
      outcome.Declined? && SessionOf(state, draws) == old(SessionOf(state, draws))
  {
    VerdictInPlainTerms(state, draw, format, regen, m);
    ghost var t, before := TopologyOf(regen), SessionOf(state, draws);
    var refused, units := CheckOnly(state, draws, draw, format, regen, m, t, before);
    if refused.Some? {
      return Declined(refused.value);
    }
    outcome := TakeBack(state, draws, draw, regen, m, units, t, before);
  }
}
