/** Rebuilding successor sides from results that are already stored. */
module Reconciliation {
  import opened Bracket
  import opened Coherence
  import Settling

  /** The stored winner's side exists. */
  predicate Supported(row: Row, r: Result) {
    && (r.winner == A ==> row.sideA != [])
    && (r.winner == B ==> row.sideB != [])
  }

  predicate Waits(s: Slot, side: Side, u: UnitId) {
    Points(s, u) && side == []
  }

  predicate Fills(g: Graph, u: UnitId, d: UnitId, row: Row) {
    && u in g && d in g
    && g[d].event == g[u].event && u in g[d].deps
    && (Waits(row.slotA, row.sideA, u) || Waits(row.slotB, row.sideB, u))
  }

  function FillSlot(s: Slot, side: Side, u: UnitId, from: Row, r: Result): Slot {
    if Waits(s, side, u) then Fed(from, r, s.take) else s
  }

  function Fill(g: Graph, u: UnitId, from: Row, r: Result, d: UnitId, row: Row): Row {
    if Fills(g, u, d, row)
    then Resync(FillSlot(row.slotA, row.sideA, u, from, r), FillSlot(row.slotB, row.sideB, u, from, r), row)
    else row
  }

  /** What a unit's slots receive at write time, or when reconciliation repairs them. */
  function Deliver(g: Graph, u: UnitId, from: Row, r: Result, repair: bool, d: UnitId, row: Row): Row {
    if repair then Fill(g, u, from, r, d, row) else Receive(g, u, from, r, d, row)
  }

  predicate Awaits(g: Graph, u: UnitId, repair: bool, d: UnitId, row: Row) {
    if repair then Fills(g, u, d, row) else Feeds(g, u, d, row)
  }

  predicate Replayable(st: Facts, u: UnitId) {
    u in st.results && u in st.rows && Supported(st.rows[u], st.results[u])
  }

  /** Project the stored result of `u`, if any, into the empty sides it feeds. */
  function ReplayOne(g: Graph, st: Facts, u: UnitId): (st': Facts)
    ensures st'.rows.Keys == st.rows.Keys && st'.results == st.results
  {
    if Replayable(st, u)
    then Facts(map d | d in st.rows :: Fill(g, u, st.rows[u], st.results[u], d, st.rows[d]), st.results)
    else st
  }

  function Replay(g: Graph, st: Facts, ids: seq<UnitId>): (st': Facts)
    ensures st'.rows.Keys == st.rows.Keys && st'.results == st.results
    decreases |ids|
  {
    if ids == [] then st else Replay(g, ReplayOne(g, st, ids[0]), ids[1..])
  }

  /** `ids` lists units not in `seen`, each once and after its dependencies. */
  ghost predicate InOrder(g: Graph, ids: seq<UnitId>, seen: set<UnitId>) {
    ids == [] ||
    (&& ids[0] in g && ids[0] !in seen
     && (forall d :: d in g[ids[0]].deps ==> d in seen)
     && InOrder(g, ids[1..], seen + {ids[0]}))
  }

  function Listed(ids: seq<UnitId>): set<UnitId> {
    set u | u in ids
  }

  // ---- reconciliation rebuilds what recording built --------------------------

  /** `st` with only the results of `seen` taken into account. */
  function Visible(st: Facts, seen: set<UnitId>): Facts {
    Facts(st.rows, map u | u in st.results && u in seen :: st.results[u])
  }

  function Rebuilt(t: Topology, st: Facts, seen: set<UnitId>): Facts
    requires t.origin.Keys == t.graph.Keys
  {
    Facts(map d | d in t.graph ::
            Shown(t, d, Resolve(Visible(st, seen), t.origin[d].slotA), Resolve(Visible(st, seen), t.origin[d].slotB)),
          st.results)
  }

  lemma RebuiltRow(t: Topology, st: Facts, seen: set<UnitId>, u: UnitId)
    requires Coherent(t, st) && u in t.graph && (forall d :: d in t.graph[u].deps ==> d in seen)
    ensures Rebuilt(t, st, seen).rows[u] == st.rows[u]
  {
    assert CoherentAt(t, st, u);
    forall s | s == t.origin[u].slotA || s == t.origin[u].slotB
      ensures Resolve(Visible(st, seen), s) == Resolve(st, s)
    {
      assert s.Feeder? ==> s.unit in t.graph[u].deps;
    }
  }

  lemma RebuildSlot(t: Topology, st: Facts, seen: set<UnitId>, u: UnitId, d: UnitId, s: Slot)
    requires Coherent(t, st) && u in t.graph && u !in seen && u in st.results
    requires d in t.graph && (s == t.origin[d].slotA || s == t.origin[d].slotB)
    ensures var x := Resolve(Visible(st, seen), s);
            Resolve(Visible(st, seen + {u}), s) == FillSlot(x, SideOf(x), u, st.rows[u], st.results[u])
    ensures Points(Resolve(Visible(st, seen), s), u) ==> u in t.graph[d].deps && t.graph[u].event == t.graph[d].event
  {
  }

  lemma FillPair(g: Graph, u: UnitId, from: Row, r: Result, d: UnitId, x: Slot, y: Slot)
    requires u in g && d in g
    requires Points(x, u) || Points(y, u) ==> u in g[d].deps && g[u].event == g[d].event
    ensures Fill(g, u, from, r, d, RowOf(Pairing(x, y))) ==
      RowOf(Pairing(FillSlot(x, SideOf(x), u, from, r), FillSlot(y, SideOf(y), u, from, r)))
  {
  }

  /** One more visible result rewrites a rebuilt row just as replaying that result does. */
  lemma RebuildRow(t: Topology, st: Facts, seen: set<UnitId>, u: UnitId, d: UnitId)
    requires Coherent(t, st) && u in t.graph && u !in seen && d in t.graph && u in st.results
    ensures Rebuilt(t, st, seen + {u}).rows[d] ==
      Fill(t.graph, u, st.rows[u], st.results[u], d, Rebuilt(t, st, seen).rows[d])
  {
    RebuildSlot(t, st, seen, u, d, t.origin[d].slotA);
    RebuildSlot(t, st, seen, u, d, t.origin[d].slotB);
    FillPair(t.graph, u, st.rows[u], st.results[u], d,
      Resolve(Visible(st, seen), t.origin[d].slotA), Resolve(Visible(st, seen), t.origin[d].slotB));
  }

  lemma RebuildOne(t: Topology, st: Facts, seen: set<UnitId>, u: UnitId)
    requires Coherent(t, st) && u in t.graph && u !in seen
    requires forall d :: d in t.graph[u].deps ==> d in seen
    requires u in st.results ==> Supported(st.rows[u], st.results[u])
    ensures ReplayOne(t.graph, Rebuilt(t, st, seen), u) == Rebuilt(t, st, seen + {u})
  {
    RebuiltRow(t, st, seen, u);
    var one, more := ReplayOne(t.graph, Rebuilt(t, st, seen), u), Rebuilt(t, st, seen + {u});
    if u in st.results {
      forall d | d in one.rows
        ensures one.rows[d] == more.rows[d]
      {
        RebuildRow(t, st, seen, u, d);
      }
      MapsEqual(one.rows, more.rows);
    } else {
      assert Visible(st, seen + {u}).results == Visible(st, seen).results;
    }
  }

  ghost predicate AllSupported(st: Facts) {
    forall u :: u in st.results && u in st.rows ==> Supported(st.rows[u], st.results[u])
  }

  lemma {:induction false} RebuildAll(t: Topology, st: Facts, ids: seq<UnitId>, seen: set<UnitId>)
    requires Coherent(t, st) && AllSupported(st) && InOrder(t.graph, ids, seen)
    ensures Replay(t.graph, Rebuilt(t, st, seen), ids) == Rebuilt(t, st, seen + Listed(ids))
    decreases |ids|
  {
    if ids == [] {
      assert seen + Listed(ids) == seen;
    } else {
      RebuildOne(t, st, seen, ids[0]);
      RebuildAll(t, st, ids[1..], seen + {ids[0]});
      ListedFirst(ids, seen);
    }
  }

  lemma ListedFirst(ids: seq<UnitId>, seen: set<UnitId>)
    requires ids != []
    ensures seen + Listed(ids) == (seen + {ids[0]}) + Listed(ids[1..])
  {
    assert ids == [ids[0]] + ids[1..];
  }

  lemma RebuiltFromNothing(t: Topology, st: Facts)
    requires WellBuilt(t)
    ensures Rebuilt(t, st, {}) == Facts(Coherence.Untouched(t).rows, st.results)
  {
    forall u | u in t.graph
      ensures Rebuilt(t, st, {}).rows[u] == t.origin[u]
    {
      assert EntersWell(t, u);
    }
    MapsEqual(Rebuilt(t, st, {}).rows, Coherence.Untouched(t).rows);
  }

  lemma RebuiltFromAll(t: Topology, st: Facts)
    requires Coherent(t, st)
    ensures Rebuilt(t, st, t.graph.Keys) == st
  {
    forall u | u in Rebuilt(t, st, t.graph.Keys).rows
      ensures Rebuilt(t, st, t.graph.Keys).rows[u] == st.rows[u]
    {
      RebuiltRow(t, st, t.graph.Keys, u);
    }
    MapsEqual(Rebuilt(t, st, t.graph.Keys).rows, st.rows);
  }

  lemma GoodIsSupported(st: Facts)
    requires Explained(st)
    ensures AllSupported(st)
  {
    forall u | u in st.results && u in st.rows
      ensures Supported(st.rows[u], st.results[u])
    {
      assert ExplainedAt(st, u);
    }
  }

  /** Reconciliation equals write-time propagation: replaying the stored results of any
      good state onto the untouched draw gives back its slots and its sides. */
  lemma ReconcileRebuilds(t: Topology, st: Facts, ids: seq<UnitId>)
    requires Good(t, st) && InOrder(t.graph, ids, {}) && Listed(ids) == t.graph.Keys
    ensures Replay(t.graph, Facts(Coherence.Untouched(t).rows, st.results), ids) == st
  {
    GoodIsSupported(st);
    RebuildAll(t, st, ids, {});
    RebuiltFromNothing(t, st);
    RebuiltFromAll(t, st);
    assert {} + Listed(ids) == t.graph.Keys;
  }

  // ---- a second call changes nothing -----------------------------------------

  ghost predicate Spent(g: Graph, st: Facts, u: UnitId) {
    Replayable(st, u) ==> forall d :: d in st.rows ==> !Fills(g, u, d, st.rows[d])
  }

  lemma ReplayOneSpends(g: Graph, st: Facts, u: UnitId)
    requires WellFormed(g)
    ensures Spent(g, ReplayOne(g, st, u), u)
  {
    if u in st.rows && u in st.results {
      assert !Fills(g, u, u, st.rows[u]);
    }
  }

  lemma StaysSpent(g: Graph, st: Facts, u: UnitId, v: UnitId)
    requires Spent(g, st, u) && u in g && v !in g[u].deps
    ensures Spent(g, ReplayOne(g, st, v), u)
  {
  }

  lemma {:induction false} ReplaySpends(g: Graph, st: Facts, ids: seq<UnitId>, seen: set<UnitId>)
    requires WellFormed(g) && InOrder(g, ids, seen)
    requires forall w :: w in seen ==> w in g && Spent(g, st, w) && forall d :: d in g[w].deps ==> d in seen
    ensures forall w :: w in seen || w in ids ==> Spent(g, Replay(g, st, ids), w)
    decreases |ids|
  {
    if ids != [] {
      var u := ids[0];
      ReplayOneSpends(g, st, u);
      forall w | w in seen
        ensures Spent(g, ReplayOne(g, st, u), w)
      {
        StaysSpent(g, st, w, u);
      }
      ReplaySpends(g, ReplayOne(g, st, u), ids[1..], seen + {u});
      assert ids == [u] + ids[1..];
    }
  }

  lemma SpentReplaysToItself(g: Graph, st: Facts, u: UnitId)
    requires Spent(g, st, u)
    ensures ReplayOne(g, st, u) == st
  {
    assert ReplayOne(g, st, u).rows == st.rows;
  }

  lemma {:induction false} AllSpent(g: Graph, st: Facts, ids: seq<UnitId>)
    requires forall w :: w in ids ==> Spent(g, st, w)
    ensures Replay(g, st, ids) == st
  {
    if ids != [] {
      SpentReplaysToItself(g, st, ids[0]);
      AllSpent(g, st, ids[1..]);
    }
  }

  /** A second reconciliation changes nothing, on any stored state whatever. */
  lemma ReconcileTwice(g: Graph, st: Facts, ids: seq<UnitId>)
    requires WellFormed(g) && InOrder(g, ids, {})
    ensures Replay(g, Replay(g, st, ids), ids) == Replay(g, st, ids)
  {
    ReplaySpends(g, st, ids, {});
    AllSpent(g, Replay(g, st, ids), ids);
  }

  // ---- which sides survive ---------------------------------------------------

  predicate KeptSide(side: Side, side': Side) {
    side != [] ==> side' == side
  }

  predicate KeptSides(row: Row, row': Row) {
    KeptSide(row.sideA, row'.sideA) && KeptSide(row.sideB, row'.sideB)
  }

  /** A concrete slot whose side says something else. */
  predicate Stale(s: Slot, side: Side) {
    !s.Feeder? && side != [] && side != SideOf(s)
  }

  /** An empty side that waits for a feeder. */
  predicate Vacant(s: Slot, side: Side) {
    s.Feeder? && side == []
  }

  /** A stale side beside an open one: filling the one overwrites the other. */
  predicate Exposed(row: Row) {
    || (Stale(row.slotA, row.sideA) && Vacant(row.slotB, row.sideB))
    || (Stale(row.slotB, row.sideB) && Vacant(row.slotA, row.sideA))
  }

  /** The feeder of the open side of an exposed row. */
  function OpenFeeder(row: Row): UnitId
    requires Exposed(row)
  {
    if Stale(row.slotA, row.sideA) && Vacant(row.slotB, row.sideB) then row.slotB.unit else row.slotA.unit
  }

  ghost predicate NoneExposed(st: Facts) {
    forall d :: d in st.rows ==> !Exposed(st.rows[d])
  }

  lemma FillUnexposed(g: Graph, u: UnitId, from: Row, r: Result, d: UnitId, row: Row)
    requires !Exposed(row)
    ensures !Exposed(Fill(g, u, from, r, d, row)) && KeptSides(row, Fill(g, u, from, r, d, row))
  {
  }

  lemma {:induction false} UnexposedKeepsSides(g: Graph, st: Facts, ids: seq<UnitId>, d: UnitId)
    requires d in st.rows && !Exposed(st.rows[d])
    ensures !Exposed(Replay(g, st, ids).rows[d]) && KeptSides(st.rows[d], Replay(g, st, ids).rows[d])
    decreases |ids|
  {
    if ids != [] {
      if Replayable(st, ids[0]) {
        FillUnexposed(g, ids[0], st.rows[ids[0]], st.results[ids[0]], d, st.rows[d]);
      }
      UnexposedKeepsSides(g, ReplayOne(g, st, ids[0]), ids[1..], d);
    }
  }

  /** No non-empty side is ever overwritten in a state without exposed rows. */
  lemma ReconcileKeepsSides(g: Graph, st: Facts, ids: seq<UnitId>)
    requires NoneExposed(st)
    ensures NoneExposed(Replay(g, st, ids))
    ensures forall d :: d in st.rows ==> KeptSides(st.rows[d], Replay(g, st, ids).rows[d])
  {
    forall d | d in st.rows
      ensures !Exposed(Replay(g, st, ids).rows[d]) && KeptSides(st.rows[d], Replay(g, st, ids).rows[d])
    {
      UnexposedKeepsSides(g, st, ids, d);
    }
  }

  // ---- and exactly which are lost ----------------------------------------------

  /** Reconciliation of `ids` brings the result of `u` to `d`. */
  predicate Reaches(g: Graph, ids: seq<UnitId>, u: UnitId, d: UnitId) {
    u in ids && u in g && d in g && g[u].event == g[d].event && u in g[d].deps
  }

  /** The row of `d` is exposed, to a unit whose result is brought to it. */
  predicate ExposedTo(g: Graph, ids: seq<UnitId>, d: UnitId, row: Row) {
    Exposed(row) && Reaches(g, ids, OpenFeeder(row), d)
  }

  lemma FillExposed(g: Graph, u: UnitId, from: Row, r: Result, d: UnitId, row: Row)
    requires Exposed(row)
    ensures Fills(g, u, d, row) <==> u == OpenFeeder(row) && Reaches(g, [u], u, d)
    ensures Fills(g, u, d, row) ==> !KeptSides(row, Fill(g, u, from, r, d, row)) && Settled(Fill(g, u, from, r, d, row))
    ensures !Fills(g, u, d, row) ==> Fill(g, u, from, r, d, row) == row
  {
  }

  /** Both slots are concrete and the sides show them: nothing fills such a row any more. */
  predicate Settled(row: Row) {
    !row.slotA.Feeder? && !row.slotB.Feeder? && row.sideA == SideOf(row.slotA) && row.sideB == SideOf(row.slotB)
  }

  lemma {:induction false} SettledStays(g: Graph, st: Facts, ids: seq<UnitId>, d: UnitId)
    requires d in st.rows && Settled(st.rows[d])
    ensures Replay(g, st, ids).rows[d] == st.rows[d]
    decreases |ids|
  {
    if ids != [] {
      SettledStays(g, ReplayOne(g, st, ids[0]), ids[1..], d);
    }
  }

  /** In order, the row of a unit is final once its dependencies have been replayed. */
  lemma {:induction false} RowIsFinal(g: Graph, st: Facts, ids: seq<UnitId>, seen: set<UnitId>, u: UnitId)
    requires WellFormed(g) && InOrder(g, ids, seen) && u in g && u in st.rows
    requires forall d :: d in g[u].deps ==> d in seen
    ensures Replay(g, st, ids).rows[u] == st.rows[u]
    decreases |ids|
  {
    if ids != [] {
      assert ids[0] !in g[u].deps;
      RowIsFinal(g, ReplayOne(g, st, ids[0]), ids[1..], seen + {ids[0]}, u);
    }
  }

  /** The stored result of the feeder can be recovered, at the end and so when it is replayed. */
  lemma {:induction false} ExposedRowsFate(g: Graph, st: Facts, ids: seq<UnitId>, seen: set<UnitId>, d: UnitId)
    requires WellFormed(g) && InOrder(g, ids, seen) && d in st.rows && Exposed(st.rows[d])
    ensures KeptSides(st.rows[d], Replay(g, st, ids).rows[d]) <==>
      !(Reaches(g, ids, OpenFeeder(st.rows[d]), d) && Replayable(Replay(g, st, ids), OpenFeeder(st.rows[d])))
    ensures KeptSides(st.rows[d], Replay(g, st, ids).rows[d]) ==> Replay(g, st, ids).rows[d] == st.rows[d]
    decreases |ids|
  {
    if ids != [] {
      var u, one := ids[0], ReplayOne(g, st, ids[0]);
      assert ids == [u] + ids[1..];
      if u in st.rows {
        RowIsFinal(g, one, ids[1..], seen + {u}, u);
        assert one.rows[u] == st.rows[u];
        assert Replayable(Replay(g, st, ids), u) <==> Replayable(st, u);
      }
      if Replayable(st, u) {
        FillExposed(g, u, st.rows[u], st.results[u], d, st.rows[d]);
      }
      if Replayable(st, u) && Fills(g, u, d, st.rows[d]) {
        SettledStays(g, one, ids[1..], d);
      } else {
        NotListedAgain(g, ids, seen);
        ExposedRowsFate(g, one, ids[1..], seen + {u}, d);
      }
    }
  }

  lemma {:induction false} NotListedAgain(g: Graph, ids: seq<UnitId>, seen: set<UnitId>)
    requires InOrder(g, ids, seen) && ids != []
    ensures ids[0] !in ids[1..]
  {
    SeenIsNotListed(g, ids[1..], seen + {ids[0]}, ids[0]);
  }

  lemma {:induction false} SeenIsNotListed(g: Graph, ids: seq<UnitId>, seen: set<UnitId>, u: UnitId)
    requires InOrder(g, ids, seen) && u in seen
    ensures u !in ids
    decreases |ids|
  {
    if ids != [] {
      SeenIsNotListed(g, ids[1..], seen + {ids[0]}, u);
    }
  }

  /** A whole reconciliation overwrites a non-empty side of `d` exactly if its row is exposed to a
      unit whose stored result can be recovered. */
  lemma SidesLostExactly(g: Graph, st: Facts, ids: seq<UnitId>, d: UnitId)
    requires WellFormed(g) && InOrder(g, ids, {}) && d in st.rows
    ensures !KeptSides(st.rows[d], Replay(g, st, ids).rows[d]) <==>
      ExposedTo(g, ids, d, st.rows[d]) && Replayable(Replay(g, st, ids), OpenFeeder(st.rows[d]))
  {
    if Exposed(st.rows[d]) {
      ExposedRowsFate(g, st, ids, {}, d);
    } else {
      UnexposedKeepsSides(g, st, ids, d);
    }
  }

  ghost predicate AllSidesKept(g: Graph, rows: map<UnitId, Row>, results: map<UnitId, Result>, ids: seq<UnitId>) {
    forall d :: d in rows ==> KeptSides(rows[d], Replay(g, Facts(rows, results), ids).rows[d])
  }

  /** What a caller can check of the slots and sides alone: reconciliation keeps every non-empty side,
      whatever results are stored, exactly if no row is exposed to a unit it replays. */
  lemma SidesKeptForAllResults(g: Graph, rows: map<UnitId, Row>, ids: seq<UnitId>)
    requires WellFormed(g) && InOrder(g, ids, {}) && rows.Keys == g.Keys
    ensures (forall results :: AllSidesKept(g, rows, results, ids)) <==>
      forall d :: d in rows ==> !ExposedTo(g, ids, d, rows[d])
  {
    forall d, results | d in rows && !ExposedTo(g, ids, d, rows[d])
      ensures KeptSides(rows[d], Replay(g, Facts(rows, results), ids).rows[d])
    {
      SidesLostExactly(g, Facts(rows, results), ids, d);
    }
    if d :| d in rows && ExposedTo(g, ids, d, rows[d]) {
      var results := map[OpenFeeder(rows[d]) := Result(Neither, true, None, None, None)];
      SidesLostExactly(g, Facts(rows, results), ids, d);
      assert !AllSidesKept(g, rows, results, ids);
    }
  }

  // ---- rows that are never exposed ----------------------------------------------

  /** The slot an importer makes of a side: its first participant, or a bye. */
  function SlotFromSide(side: Side): Slot {
    if side == [] then Bye else OfParticipant(side[0])
  }

  /** The three kinds of rows importers make: an opening match from its sides, a later match from two
      feeders, and a completed historical match, which names both sides and may name feeders too. */
  predicate Imported(row: Row) {
    || (row.slotA == SlotFromSide(row.sideA) && row.slotB == SlotFromSide(row.sideB))
    || (Vacant(row.slotA, row.sideA) && Vacant(row.slotB, row.sideB))
    || (row.sideA != [] && row.sideB != []
        && (row.slotA.Feeder? || row.slotA == SlotFromSide(row.sideA))
        && (row.slotB.Feeder? || row.slotB == SlotFromSide(row.sideB)))
  }

  lemma ReceiveUnexposed(g: Graph, u: UnitId, from: Row, r: Result, d: UnitId, row: Row)
    requires !Exposed(row)
    ensures !Exposed(Receive(g, u, from, r, d, row))
  {
  }

  /** Recording a result exposes no row. */
  lemma RecordingExposesNone(g: Graph, st: Facts, u: UnitId, r: Result)
    requires NoneExposed(st) && u in st.rows
    ensures NoneExposed(Propagate(g, st, u, r))
  {
    forall d | d in st.rows
      ensures !Exposed(Propagate(g, st, u, r).rows[d])
    {
      ReceiveUnexposed(g, u, st.rows[u], r, d, st.rows[d]);
    }
  }

  lemma {:induction false} SweepExposesNone(g: Graph, st: Facts)
    requires Fits(g, st) && NoneExposed(st)
    ensures NoneExposed(Settling.Settle(g, st))
    decreases |Settling.Open(g, st)|
  {
    if !Stable(g, st) {
      var u := Settling.Pick(g, st);
      Settling.FireFits(g, st, u);
      RecordingExposesNone(g, st, u, Walkover(st.rows[u]));
      SweepExposesNone(g, Fire(g, st, u));
    }
  }

  /** Recording `ops` in turn, each followed by the sweep, leads from `st` to `end`. */
  ghost predicate Recordings(g: Graph, st: Facts, ops: seq<(UnitId, Result)>, end: Facts)
    requires Fits(g, st)
    decreases |ops|
  {
    if ops == [] then end == st
    else
      && ops[0].0 in g
      && (Settling.PropagateFits(g, st, ops[0].0, ops[0].1);
          Settling.SettleEnds(g, Propagate(g, st, ops[0].0, ops[0].1));
          Recordings(g, Settling.Settle(g, Propagate(g, st, ops[0].0, ops[0].1)), ops[1..], end))
  }

  /** However results are recorded, no row becomes exposed. */
  lemma {:induction false} RecordingsExposeNone(g: Graph, st: Facts, ops: seq<(UnitId, Result)>, end: Facts)
    requires Fits(g, st) && NoneExposed(st) && Recordings(g, st, ops, end)
    ensures Fits(g, end) && NoneExposed(end)
    decreases |ops|
  {
    if ops != [] {
      var u, r := ops[0].0, ops[0].1;
      Settling.PropagateFits(g, st, u, r);
      Settling.SettleEnds(g, Propagate(g, st, u, r));
      RecordingExposesNone(g, st, u, r);
      SweepExposesNone(g, Propagate(g, st, u, r));
      RecordingsExposeNone(g, Settling.Settle(g, Propagate(g, st, u, r)), ops[1..], end);
    }
  }

  /** Reconciliation never overwrites a non-empty side of an imported draw, pairs and historical matches with
      feeders beside their sides included: neither as imported nor after any recordings, and whatever results
      are stored when it runs, so also if they were stored without being recorded. */
  lemma ImportsKeepSides(g: Graph, st: Facts, ops: seq<(UnitId, Result)>, end: Facts,
                         results: map<UnitId, Result>, ids: seq<UnitId>)
    requires Fits(g, st) && (forall d :: d in st.rows ==> Imported(st.rows[d])) && Recordings(g, st, ops, end)
    ensures forall d :: d in end.rows ==> KeptSides(end.rows[d], Replay(g, Facts(end.rows, results), ids).rows[d])
  {
    forall d | d in st.rows
      ensures !Exposed(st.rows[d])
    {
      assert Imported(st.rows[d]);
    }
    RecordingsExposeNone(g, st, ops, end);
    ReconcileKeepsSides(g, Facts(end.rows, results), ids);
  }

  /** A stale side is lost: a stored pair under a slot that names only its first member, beside a
      slot that a stored result now fills. */
  lemma StaleSideIsLost()
    ensures var g := map["M" := Node("E", [], 0), "F" := Node("E", ["M"], 1)];
            var win := Result(A, false, None, None, None);
            var st := Facts(
                        map["M" := Row(Entrant("a"), Entrant("b"), ["a"], ["b"]),
                            "F" := Row(Entrant("p"), Feeder("M", Winner), ["p", "q"], [])],
                        map["M" := win]);
            Replay(g, st, ["M", "F"]).rows["F"] == Row(Entrant("p"), Entrant("a"), ["p"], ["a"])
  {
    var g := map["M" := Node("E", [], 0), "F" := Node("E", ["M"], 1)];
    var win := Result(A, false, None, None, None);
    var st := Facts(
      map["M" := Row(Entrant("a"), Entrant("b"), ["a"], ["b"]),
          "F" := Row(Entrant("p"), Feeder("M", Winner), ["p", "q"], [])],
      map["M" := win]);
    var one := ReplayOne(g, st, "M");
    assert BYE[0] == '_';
    assert one.rows["F"] == Row(Entrant("p"), Entrant("a"), ["p"], ["a"]);
    assert ["M", "F"][1..] == ["F"] && ["F"][1..] == [];
    assert Replay(g, st, ["M", "F"]) == Replay(g, one, ["F"]) == Replay(g, one, []);
  }
}
