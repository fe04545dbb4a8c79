/** What recording and sweeping do, said of slots, sides and results themselves. */
module Outcomes {
  import opened Bracket
  import Settling
  import opened Coherence
  import opened Runs
  import opened Conservation
  import opened Reconciliation

  /** The slot shows the first of the side, and a bye if there is nobody: an empty id and the bye sentinel
      stand for nobody. */
  predicate ShowsFirst(s: Slot, side: Side) {
    if side == [] || side[0] == "" || side[0] == "__BYE__" then s == Bye else s == Entrant(side[0])
  }

  /** What a slot that takes the winner or the loser of a unit is, when the unit has this row and result. Nobody
      plays on as the loser of a walkover, a retirement or a forfeit. */
  predicate TakesFrom(take: Take, row: Row, r: Result, s: Slot) {
    match take
    case Winner =>
      && (r.winner == A ==> ShowsFirst(s, row.sideA))
      && (r.winner == B ==> ShowsFirst(s, row.sideB))
      && (r.winner == Neither ==> s == Bye)
    case Loser =>
      if r.winner == Neither || r.walkover || r.reason == Some("retired") || r.reason == Some("forfeit") then s == Bye
      else ShowsFirst(s, if r.winner == A then row.sideB else row.sideA)
  }

  /** The side under a slot: its entrant, nobody, or what was there while the slot waits. */
  predicate SideUnder(s: Slot, before: Side, side: Side) {
    match s
    case Entrant(p) => side == [p]
    case Bye => side == []
    case Feeder(_, _) => side == before
  }

  /** `d` lists `u` as a dependency in the same draw, and one of its slots waits for it. */
  predicate Hears(g: Graph, u: UnitId, d: UnitId, row: Row) {
    && u in g && d in g && g[d].event == g[u].event && u in g[d].deps
    && ((row.slotA.Feeder? && row.slotA.unit == u) || (row.slotB.Feeder? && row.slotB.unit == u))
  }

  /** The slot `s` once `u`, with that row and result, has been heard. */
  predicate HeardBy(u: UnitId, from: Row, r: Result, s: Slot, s': Slot) {
    if s.Feeder? && s.unit == u then TakesFrom(s.take, from, r, s') else s' == s
  }

  lemma FedIsTaken(row: Row, r: Result, take: Take)
    ensures TakesFrom(take, row, r, Fed(row, r, take))
  {
    assert BYE == "__BYE__";
  }

  lemma RewireIsHeard(s: Slot, u: UnitId, from: Row, r: Result)
    ensures HeardBy(u, from, r, s, Rewire(s, u, from, r))
  {
    if s.Feeder? && s.unit == u {
      FedIsTaken(from, r, s.take);
    }
  }

  /** One recorded result: it is stored; slots that wait for it take what it says and set both sides of their
      unit; nothing else changes. */
  lemma StepInPlainTerms(g: Graph, st: Facts, u: UnitId, r: Result, d: UnitId)
    requires u in st.rows && d in st.rows
    ensures Propagate(g, st, u, r).results == st.results[u := r]
    ensures var row, row' := st.rows[d], Propagate(g, st, u, r).rows[d];
      if Hears(g, u, d, row) then
        && HeardBy(u, st.rows[u], r, row.slotA, row'.slotA) && HeardBy(u, st.rows[u], r, row.slotB, row'.slotB)
        && SideUnder(row'.slotA, row.sideA, row'.sideA) && SideUnder(row'.slotB, row.sideB, row'.sideB)
      else row' == row
  {
    RewireIsHeard(st.rows[d].slotA, u, st.rows[u], r);
    RewireIsHeard(st.rows[d].slotB, u, st.rows[u], r);
  }

  // ---- the sweep --------------------------------------------------------------

  lemma {:induction false} CompleteRowStays(g: Graph, st: Facts, u: UnitId)
    requires Fits(g, st) && u in g && forall d :: d in g[u].deps ==> d in st.results
    ensures u in Settling.Settle(g, st).rows && Settling.Settle(g, st).rows[u] == st.rows[u]
    decreases |Settling.Open(g, st)|
  {
    if !Stable(g, st) {
      var w := Settling.Pick(g, st);
      Settling.FireFits(g, st, w);
      assert w !in g[u].deps;
      NotFed(g, st, w, Walkover(st.rows[w]), u);
      CompleteRowStays(g, Fire(g, st, w), u);
    }
  }

  /** A walkover for the side that is there, for nobody if neither is; it has no reason, slot or score. */
  predicate IsWalkover(row: Row, r: Result) {
    && (row.sideA == [] || row.sideB == [])
    && r.winner == (if row.sideA == [] && row.sideB == [] then Neither else if row.sideA == [] then B else A)
    && r.walkover && r.reason == None && r.finishedAtSlot == None && r.score == None
  }

  /** What the sweep adds are walkovers of units with an empty side, and it goes on until every unit has a result
      or a dependency without one, or both sides; results stay as they were. */
  lemma SweepInPlainTerms(g: Graph, st: Facts, u: UnitId)
    requires Fits(g, st) && u in g
    ensures var end := Settling.Settle(g, st);
      && u in end.rows
      && (u in st.results ==> u in end.results && end.results[u] == st.results[u])
      && (u !in st.results && u in end.results ==> IsWalkover(end.rows[u], end.results[u]))
      && (u !in end.results ==>
        (exists d :: d in g[u].deps && d !in end.results) || (end.rows[u].sideA != [] && end.rows[u].sideB != []))
  {
    Settling.SettleEnds(g, st);
    if u in st.results {
      Settling.SettleKeepsResult(g, st, u);
    } else if u in Settling.Settle(g, st).results {
      AddedAreWalkovers(g, st, u);
    } else {
      assert !Eligible(g, Settling.Settle(g, st), u);
    }
  }

  lemma {:induction false} AddedAreWalkovers(g: Graph, st: Facts, u: UnitId)
    requires Fits(g, st) && u in g && u !in st.results && u in Settling.Settle(g, st).results
    ensures u in Settling.Settle(g, st).rows
    ensures IsWalkover(Settling.Settle(g, st).rows[u], Settling.Settle(g, st).results[u])
    decreases |Settling.Open(g, st)|
  {
    assert !Stable(g, st);
    var w := Settling.Pick(g, st);
    Settling.FireFits(g, st, w);
    if w == u {
      Settling.SettleKeepsResult(g, Fire(g, st, u), u);
      CompleteRowStays(g, Fire(g, st, u), u);
      assert u !in g[u].deps;
      NotFed(g, st, u, Walkover(st.rows[u]), u);
    } else {
      AddedAreWalkovers(g, Fire(g, st, w), u);
    }
  }

  // ---- reachable states -------------------------------------------------------

  /** A slot of the untouched draw, in a reachable state. */
  predicate SlotNow(st: Facts, s: Slot, now: Slot) {
    if s.Feeder? && s.unit in st.results && s.unit in st.rows
    then TakesFrom(s.take, st.rows[s.unit], st.results[s.unit], now) else now == s
  }

  /** In a reachable state, every slot is the one of the untouched draw, or, if that waited for a match that now
      has a result, what the result says; sides show the slots. A result is there exactly if all dependencies
      have one and the match was played, or has an empty side and a walkover. */
  lemma ReachableInPlainTerms(t: Topology, st: Facts, v: UnitId)
    requires Good(t, st) && v in t.graph
    ensures t.graph[v].deps != [] ==>
      && SlotNow(st, t.origin[v].slotA, st.rows[v].slotA) && SlotNow(st, t.origin[v].slotB, st.rows[v].slotB)
      && SideUnder(st.rows[v].slotA, [], st.rows[v].sideA) && SideUnder(st.rows[v].slotB, [], st.rows[v].sideB)
    ensures t.graph[v].deps == [] ==> st.rows[v] == t.origin[v]
    ensures v in st.results ==> forall d :: d in t.graph[v].deps ==> d in st.results
    ensures v in st.results && (st.rows[v].sideA == [] || st.rows[v].sideB == []) ==>
      IsWalkover(st.rows[v], st.results[v])
    ensures v !in st.results ==>
      (exists d :: d in t.graph[v].deps && d !in st.results) || (st.rows[v].sideA != [] && st.rows[v].sideB != [])
  {
    assert CoherentAt(t, st, v) && ExplainedAt(st, v) && !Eligible(t.graph, st, v);
    ResolvedIsNow(st, t.origin[v].slotA);
    ResolvedIsNow(st, t.origin[v].slotB);
  }

  lemma ResolvedIsNow(st: Facts, s: Slot)
    ensures SlotNow(st, s, Resolve(st, s))
  {
    if s.Feeder? && s.unit in st.results && s.unit in st.rows {
      FedIsTaken(st.rows[s.unit], st.results[s.unit], s.take);
    }
  }

  /** The loser of a match that was played out is fed on: in every state a run reaches after it, the slot that takes
      its loser holds the participant who lost, if the id stands for somebody. */
  lemma LoserPlaysOn(t: Topology, st: Facts, u: UnitId, r: Result, ops: seq<Entry>, v: UnitId)
    requires Good(t, st) && Playable(t.graph, st, u) && r.winner != Neither
    requires !r.walkover && r.reason != Some("retired") && r.reason != Some("forfeit")
    requires (RecordKeepsGood(t, st, u, r); Legal(t, Record(t.graph, st, u, r), ops))
    requires v in t.graph && LosingParticipant(st, u, r) != "" && LosingParticipant(st, u, r) != "__BYE__"
    ensures (RecordKeepsGood(t, st, u, r);
      var end := Run(t, Record(t.graph, st, u, r), ops);
      && v in end.rows
      && (t.origin[v].slotA == Feeder(u, Loser) ==> end.rows[v].slotA == Entrant(LosingParticipant(st, u, r)))
      && (t.origin[v].slotB == Feeder(u, Loser) ==> end.rows[v].slotB == Entrant(LosingParticipant(st, u, r))))
  {
    RecordKeepsGood(t, st, u, r);
    var start := Record(t.graph, st, u, r);
    var end := Run(t, start, ops);
    RunPlays(t, start, ops);
    PlayedRowStays(t, st, u, r, ops);
    ReachableInPlainTerms(t, end, v);
    assert Points(Feeder(u, Loser), u);
  }

  /** A match that has been played keeps its row and its result, however the draw goes on. */
  lemma PlayedRowStays(t: Topology, st: Facts, u: UnitId, r: Result, ops: seq<Entry>)
    requires Good(t, st) && Playable(t.graph, st, u)
    requires (RecordKeepsGood(t, st, u, r); Legal(t, Record(t.graph, st, u, r), ops))
    ensures (RecordKeepsGood(t, st, u, r);
      var end := Run(t, Record(t.graph, st, u, r), ops);
      u in end.rows && end.rows[u] == st.rows[u] && u in end.results && end.results[u] == r)
  {
    RecordKeepsGood(t, st, u, r);
    PlayableIsReady(t, st, u);
    var step := Propagate(t.graph, st, u, r);
    Settling.PropagateFits(t.graph, st, u, r);
    assert u !in t.graph[u].deps;
    NotFed(t.graph, st, u, r, u);
    CompleteRowStays(t.graph, step, u);
    Settling.SettleKeepsResult(t.graph, step, u);
    RunKeepsRow(t, Record(t.graph, st, u, r), ops, u);
  }

  lemma {:induction false} RunKeepsRow(t: Topology, st: Facts, ops: seq<Entry>, u: UnitId)
    requires Good(t, st) && Legal(t, st, ops) && u in st.results
    ensures u in Run(t, st, ops).rows && Run(t, st, ops).rows[u] == st.rows[u]
    ensures u in Run(t, st, ops).results && Run(t, st, ops).results[u] == st.results[u]
    decreases |ops|
  {
    if ops != [] {
      var w, r := ops[0].unit, ops[0].result;
      RecordKeepsGood(t, st, w, r);
      assert CoherentAt(t, st, u);
      Settling.PropagateFits(t.graph, st, w, r);
      assert w !in t.graph[u].deps;
      NotFed(t.graph, st, w, r, u);
      CompleteRowStays(t.graph, Propagate(t.graph, st, w, r), u);
      Settling.SettleKeepsResult(t.graph, Propagate(t.graph, st, w, r), u);
      RunKeepsRow(t, Record(t.graph, st, w, r), ops[1..], u);
    }
  }

  // ---- reconciliation ---------------------------------------------------------

  function SideAt(row: Row, first: bool): Side {
    if first then row.sideA else row.sideB
  }

  /** The slot waits for `u`, and its side is empty. */
  predicate Lacks(row: Row, first: bool, u: UnitId) {
    SlotAt(row, first).Feeder? && SlotAt(row, first).unit == u && SideAt(row, first) == []
  }

  /** Replaying another unit leaves such a slot and its side alone. */
  lemma OtherReplayed(g: Graph, st: Facts, w: UnitId, d: UnitId, first: bool)
    requires d in st.rows && SlotAt(st.rows[d], first).Feeder? && SlotAt(st.rows[d], first).unit != w
    ensures SlotAt(ReplayOne(g, st, w).rows[d], first) == SlotAt(st.rows[d], first)
    ensures SideAt(ReplayOne(g, st, w).rows[d], first) == SideAt(st.rows[d], first)
  {
  }

  /** The row of a unit when its turn comes is the one it ends with. */
  lemma TurnRow(g: Graph, st: Facts, ids: seq<UnitId>, seen: set<UnitId>)
    requires WellFormed(g) && InOrder(g, ids, seen) && ids != [] && ids[0] in st.rows
    ensures Replay(g, st, ids).rows[ids[0]] == st.rows[ids[0]]
  {
    assert ids[0] !in g[ids[0]].deps;
    assert ReplayOne(g, st, ids[0]).rows[ids[0]] == st.rows[ids[0]];
    RowIsFinal(g, ReplayOne(g, st, ids[0]), ids[1..], seen + {ids[0]}, ids[0]);
  }

  /** A stored result says nothing: there is none, or the side of its winner is empty. */
  predicate SaysNothing(st: Facts, end: Facts, u: UnitId) {
    || u !in st.results || u !in end.rows
    || (st.results[u].winner == A && end.rows[u].sideA == [])
    || (st.results[u].winner == B && end.rows[u].sideB == [])
  }

  lemma {:induction false} SlotWaitsOn(g: Graph, st: Facts, ids: seq<UnitId>, seen: set<UnitId>, u: UnitId, d: UnitId,
                                       first: bool)
    requires WellFormed(g) && InOrder(g, ids, seen) && d in st.rows
    requires SlotAt(st.rows[d], first).Feeder? && SlotAt(st.rows[d], first).unit == u
    requires SaysNothing(st, Replay(g, st, ids), u)
    ensures SlotAt(Replay(g, st, ids).rows[d], first) == SlotAt(st.rows[d], first)
    decreases |ids|
  {
    if ids != [] {
      var one := ReplayOne(g, st, ids[0]);
      if ids[0] == u {
        if u in st.rows {
          TurnRow(g, st, ids, seen);
        }
        assert one == st;
      } else {
        OtherReplayed(g, st, ids[0], d, first);
      }
      SlotWaitsOn(g, one, ids[1..], seen + {ids[0]}, u, d, first);
    }
  }

  /** Reconciliation invents nobody: when the winner's side of a stored result is still empty at the end, every slot
      that waited for the match waits for it still. */
  lemma EmptyWinnerFeedsNothing(g: Graph, st: Facts, ids: seq<UnitId>, u: UnitId, d: UnitId)
    requires WellFormed(g) && InOrder(g, ids, {}) && d in st.rows && u in st.rows
    requires var end := Replay(g, st, ids);
      || u !in st.results
      || (st.results[u].winner == A && end.rows[u].sideA == [])
      || (st.results[u].winner == B && end.rows[u].sideB == [])
    ensures var row, row' := st.rows[d], Replay(g, st, ids).rows[d];
      && (row.slotA.Feeder? && row.slotA.unit == u ==> row'.slotA == row.slotA)
      && (row.slotB.Feeder? && row.slotB.unit == u ==> row'.slotB == row.slotB)
  {
    if SlotAt(st.rows[d], true).Feeder? && SlotAt(st.rows[d], true).unit == u {
      SlotWaitsOn(g, st, ids, {}, u, d, true);
    }
    if SlotAt(st.rows[d], false).Feeder? && SlotAt(st.rows[d], false).unit == u {
      SlotWaitsOn(g, st, ids, {}, u, d, false);
    }
  }

  /** A concrete slot stays, and so does the side that shows it. */
  lemma {:induction false} ConcreteStays(g: Graph, st: Facts, ids: seq<UnitId>, d: UnitId, first: bool)
    requires d in st.rows && !SlotAt(st.rows[d], first).Feeder?
    ensures SlotAt(Replay(g, st, ids).rows[d], first) == SlotAt(st.rows[d], first)
    ensures SideUnder(SlotAt(st.rows[d], first), [], SideAt(st.rows[d], first)) ==>
      SideAt(Replay(g, st, ids).rows[d], first) == SideAt(st.rows[d], first)
    decreases |ids|
  {
    if ids != [] {
      ConcreteStays(g, ReplayOne(g, st, ids[0]), ids[1..], d, first);
    }
  }

  /** A slot whose side is not empty stays what it is. */
  lemma {:induction false} FilledStays(g: Graph, st: Facts, ids: seq<UnitId>, d: UnitId, first: bool)
    requires d in st.rows && SideAt(st.rows[d], first) != []
    ensures SlotAt(Replay(g, st, ids).rows[d], first) == SlotAt(st.rows[d], first)
    decreases |ids|
  {
    if !SlotAt(st.rows[d], first).Feeder? {
      ConcreteStays(g, st, ids, d, first);
    } else if ids != [] {
      FilledStays(g, ReplayOne(g, st, ids[0]), ids[1..], d, first);
    }
  }

  lemma HeardInTurn(g: Graph, st: Facts, u: UnitId, d: UnitId, first: bool)
    requires u in g && d in g && u in st.rows && d in st.rows && u in st.results
    requires g[d].event == g[u].event && u in g[d].deps && Lacks(st.rows[d], first, u)
    requires st.results[u].winner == A ==> st.rows[u].sideA != []
    requires st.results[u].winner == B ==> st.rows[u].sideB != []
    ensures var slot := SlotAt(ReplayOne(g, st, u).rows[d], first);
      && !slot.Feeder? && TakesFrom(SlotAt(st.rows[d], first).take, st.rows[u], st.results[u], slot)
      && SideUnder(slot, [], SideAt(ReplayOne(g, st, u).rows[d], first))
  {
    FedIsTaken(st.rows[u], st.results[u], SlotAt(st.rows[d], first).take);
  }

  lemma {:induction false} SlotIsFed(g: Graph, st: Facts, ids: seq<UnitId>, seen: set<UnitId>, u: UnitId, d: UnitId,
                                     first: bool)
    requires WellFormed(g) && InOrder(g, ids, seen) && u in ids && u in st.results && u in st.rows && d in st.rows
    requires u in g && d in g && g[d].event == g[u].event && u in g[d].deps && Lacks(st.rows[d], first, u)
    requires !SaysNothing(st, Replay(g, st, ids), u)
    ensures var end := Replay(g, st, ids);
      && TakesFrom(SlotAt(st.rows[d], first).take, end.rows[u], st.results[u], SlotAt(end.rows[d], first))
      && SideUnder(SlotAt(end.rows[d], first), [], SideAt(end.rows[d], first))
    decreases |ids|
  {
    var one := ReplayOne(g, st, ids[0]);
    if ids[0] == u {
      TurnRow(g, st, ids, seen);
      HeardInTurn(g, st, u, d, first);
      ConcreteStays(g, one, ids[1..], d, first);
    } else {
      OtherReplayed(g, st, ids[0], d, first);
      assert u in ids[1..];
      SlotIsFed(g, one, ids[1..], seen + {ids[0]}, u, d, first);
    }
  }

  /** Reconciliation feeds on every stored result whose winner is there: an empty side that waits for it takes what
      the result says of the participants the match ends with. */
  lemma StoredResultIsFed(g: Graph, st: Facts, ids: seq<UnitId>, u: UnitId, d: UnitId)
    requires WellFormed(g) && InOrder(g, ids, {}) && u in ids && u in st.results && u in st.rows && d in st.rows
    requires u in g && d in g && g[d].event == g[u].event && u in g[d].deps
    requires st.results[u].winner == A ==> Replay(g, st, ids).rows[u].sideA != []
    requires st.results[u].winner == B ==> Replay(g, st, ids).rows[u].sideB != []
    ensures var end, row := Replay(g, st, ids), st.rows[d];
      && (row.slotA.Feeder? && row.slotA.unit == u && row.sideA == [] ==>
        TakesFrom(row.slotA.take, end.rows[u], st.results[u], end.rows[d].slotA)
        && SideUnder(end.rows[d].slotA, [], end.rows[d].sideA))
      && (row.slotB.Feeder? && row.slotB.unit == u && row.sideB == [] ==>
        TakesFrom(row.slotB.take, end.rows[u], st.results[u], end.rows[d].slotB)
        && SideUnder(end.rows[d].slotB, [], end.rows[d].sideB))
  {
    if Lacks(st.rows[d], true, u) {
      SlotIsFed(g, st, ids, {}, u, d, true);
    }
    if Lacks(st.rows[d], false, u) {
      SlotIsFed(g, st, ids, {}, u, d, false);
    }
  }
}
