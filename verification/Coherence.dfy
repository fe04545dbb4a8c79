/** What every reachable state of a draw satisfies, and the draw's meaning.

    `Coherent` says, slot by slot, that the state is the untouched draw with the
    recorded results fed forward. `Outcome` is an independent reference: it
    computes, by recursion over rounds, the slots and the result of one unit
    from the untouched draw and the results of the matches actually played. */
module Coherence {
  import opened Bracket
  import Settling

  datatype Pairing = Pairing(a: Slot, b: Slot)

  /** A draw as it was generated or imported: its slots and sides before any result. */
  datatype Topology = Topology(graph: Graph, origin: map<UnitId, Row>)

  /** A side lists its slot's entrant first; an imported pair has its second member after it. */
  predicate Agrees(s: Slot, side: Side) {
    match s
    case Entrant(p) => side != [] && side[0] == p
    case Bye => side == []
    case Feeder(_, _) => side == []
  }

  predicate SidesAgree(row: Row) {
    Agrees(row.slotA, row.sideA) && Agrees(row.slotB, row.sideB)
  }

  /** Sides agree with slots; those of a unit with dependencies hold nobody else. */
  predicate EntersWell(t: Topology, u: UnitId)
    requires u in t.graph && u in t.origin
  {
    && SidesAgree(t.origin[u])
    && (t.graph[u].deps != [] ==> t.origin[u] == RowOf(Pairing(t.origin[u].slotA, t.origin[u].slotB)))
  }

  /** The feeders in a unit's two slots are exactly its dependencies. */
  ghost predicate WellBuilt(t: Topology) {
    && WellFormed(t.graph)
    && t.origin.Keys == t.graph.Keys
    && (forall u, f :: u in t.graph ==>
      (f in t.graph[u].deps <==> Points(t.origin[u].slotA, f) || Points(t.origin[u].slotB, f)))
    && (forall u {:trigger EntersWell(t, u)} :: u in t.graph ==> EntersWell(t, u))
  }

  function Untouched(t: Topology): Facts {
    Facts(t.origin, map[])
  }

  /** The row of `u` when its slots are `a` and `b`: a unit without dependencies keeps the row it
      came with, any other shows its slots. */
  function Shown(t: Topology, u: UnitId, a: Slot, b: Slot): Row
    requires u in t.graph && u in t.origin
  {
    if t.graph[u].deps == [] then t.origin[u] else RowOf(Pairing(a, b))
  }

  function RowOf(p: Pairing): Row {
    Row(p.a, p.b, SideOf(p.a), SideOf(p.b))
  }

  /** The slot `s` of the untouched draw, as the recorded results resolve it. */
  function Resolve(st: Facts, s: Slot): Slot {
    if s.Feeder? && s.unit in st.results && s.unit in st.rows
    then Fed(st.rows[s.unit], st.results[s.unit], s.take) else s
  }

  predicate CoherentAt(t: Topology, st: Facts, u: UnitId)
    requires u in st.rows && u in t.graph && u in t.origin
  {
    && st.rows[u] == Shown(t, u, Resolve(st, t.origin[u].slotA), Resolve(st, t.origin[u].slotB))
    && (u in st.results ==> Ready(t.graph, st, u))
  }

  ghost predicate Coherent(t: Topology, st: Facts) {
    WellBuilt(t) && Fits(t.graph, st) && forall u :: u in t.graph ==> CoherentAt(t, st, u)
  }

  /** A one-sided unit can only carry the walkover the sweep would record. */
  predicate ExplainedAt(st: Facts, u: UnitId)
    requires u in st.rows
  {
    u in st.results && OneSided(st.rows[u]) ==> st.results[u] == Walkover(st.rows[u])
  }

  ghost predicate Explained(st: Facts) {
    forall u :: u in st.rows ==> ExplainedAt(st, u)
  }

  /** The states a registered draw can be in. */
  ghost predicate Good(t: Topology, st: Facts) {
    Coherent(t, st) && Explained(st) && Stable(t.graph, st)
  }

  /** The results an operator entered, as opposed to walkovers of the sweep. */
  function Played(st: Facts): map<UnitId, Result> {
    map u | u in st.results && u in st.rows && !OneSided(st.rows[u]) :: st.results[u]
  }

  // ---- one step -------------------------------------------------------------

  /** The row of a unit that has a result, or just got one, never changes. */
  lemma ResultedRowKept(t: Topology, st: Facts, u: UnitId, r: Result, v: UnitId)
    requires Coherent(t, st) && u in t.graph && u !in st.results
    requires v == u || v in st.results
    ensures v in st.rows && Propagate(t.graph, st, u, r).rows[v] == st.rows[v]
  {
    assert v in t.graph && CoherentAt(t, st, v);
    assert u !in t.graph[v].deps;
    NotFed(t.graph, st, u, r, v);
  }

  lemma CoherentStepAt(t: Topology, st: Facts, u: UnitId, r: Result, d: UnitId)
    requires Coherent(t, st) && u in t.graph && u !in st.results && Ready(t.graph, st, u)
    requires d in t.graph
    ensures CoherentAt(t, Propagate(t.graph, st, u, r), d)
  {
    var st' := Propagate(t.graph, st, u, r);
    assert CoherentAt(t, st, d) && CoherentAt(t, st, u);
    WaitingSlot(t, st, u, d, t.origin[d].slotA);
    WaitingSlot(t, st, u, d, t.origin[d].slotB);
    ResolveStep(t, st, u, r, d, t.origin[d].slotA);
    ResolveStep(t, st, u, r, d, t.origin[d].slotB);
    assert st'.rows[d] == Receive(t.graph, u, st.rows[u], r, d, st.rows[d]);
  }

  /** A slot of a coherent state waits for `u` exactly if it did in the untouched draw. */
  lemma WaitingSlot(t: Topology, st: Facts, u: UnitId, d: UnitId, s: Slot)
    requires Coherent(t, st) && u in t.graph && u !in st.results
    requires d in t.graph && (s == t.origin[d].slotA || s == t.origin[d].slotB)
    ensures Points(Resolve(st, s), u) <==> Points(s, u)
    ensures s.Feeder? ==> s.unit in t.graph[d].deps && s.unit in t.graph && t.graph[s.unit].event == t.graph[d].event
  {
    if s.Feeder? {
      assert s.unit in t.graph[d].deps;
    }
  }

  /** Recording `u` rewires exactly the slots that were waiting for it. */
  lemma ResolveStep(t: Topology, st: Facts, u: UnitId, r: Result, d: UnitId, s: Slot)
    requires Coherent(t, st) && u in t.graph && u !in st.results
    requires d in t.graph && (s == t.origin[d].slotA || s == t.origin[d].slotB)
    ensures Resolve(Propagate(t.graph, st, u, r), s) == Rewire(Resolve(st, s), u, st.rows[u], r)
  {
    WaitingSlot(t, st, u, d, s);
    if s.Feeder? && (s.unit == u || s.unit in st.results) {
      ResultedRowKept(t, st, u, r, s.unit);
    }
  }

  /** Recording a result on a unit whose dependencies are in keeps the state coherent. */
  lemma CoherentStep(t: Topology, st: Facts, u: UnitId, r: Result)
    requires Coherent(t, st) && u in t.graph && u !in st.results && Ready(t.graph, st, u)
    ensures Coherent(t, Propagate(t.graph, st, u, r))
  {
    Settling.PropagateFits(t.graph, st, u, r);
    forall d | d in t.graph
      ensures CoherentAt(t, Propagate(t.graph, st, u, r), d)
    {
      CoherentStepAt(t, st, u, r, d);
    }
  }

  /** A unit with a result, or with both sides known, has all its dependencies in. */
  lemma PlayableIsReady(t: Topology, st: Facts, u: UnitId)
    requires Coherent(t, st) && u in t.graph && !OneSided(st.rows[u])
    ensures Ready(t.graph, st, u)
  {
    assert CoherentAt(t, st, u);
  }

  lemma ExplainedStepAt(t: Topology, st: Facts, u: UnitId, r: Result, v: UnitId)
    requires Coherent(t, st) && u in t.graph && u !in st.results
    requires OneSided(st.rows[u]) ==> r == Walkover(st.rows[u])
    requires v in st.rows && ExplainedAt(st, v)
    ensures ExplainedAt(Propagate(t.graph, st, u, r), v)
  {
    if v == u || v in st.results {
      ResultedRowKept(t, st, u, r, v);
    }
  }

  lemma ExplainedStep(t: Topology, st: Facts, u: UnitId, r: Result)
    requires Coherent(t, st) && Explained(st) && u in t.graph && u !in st.results
    requires OneSided(st.rows[u]) ==> r == Walkover(st.rows[u])
    ensures Explained(Propagate(t.graph, st, u, r))
  {
    forall v | v in Propagate(t.graph, st, u, r).rows
      ensures ExplainedAt(Propagate(t.graph, st, u, r), v)
    {
      ExplainedStepAt(t, st, u, r, v);
    }
  }

  lemma PlayedGrows(st: Facts, st': Facts, u: UnitId, r: Result)
    requires u in st.rows && u !in st.results
    requires st'.rows.Keys == st.rows.Keys && st'.results == st.results[u := r]
    requires forall v :: v in st'.results && v in st.rows ==> st'.rows[v] == st.rows[v]
    ensures Played(st') == if OneSided(st.rows[u]) then Played(st) else Played(st)[u := r]
  {
  }

  /** A step adds its result to what was played exactly when both sides are known. */
  lemma PlayedStep(t: Topology, st: Facts, u: UnitId, r: Result)
    requires Coherent(t, st) && u in t.graph && u !in st.results
    ensures Played(Propagate(t.graph, st, u, r)) ==
      if OneSided(st.rows[u]) then Played(st) else Played(st)[u := r]
  {
    var st' := Propagate(t.graph, st, u, r);
    forall v | v in st'.results && v in st.rows
      ensures st'.rows[v] == st.rows[v]
    {
      ResultedRowKept(t, st, u, r, v);
    }
    PlayedGrows(st, st', u, r);
  }

  lemma {:induction false} SettleCoherent(t: Topology, st: Facts)
    requires Coherent(t, st) && Explained(st)
    ensures Good(t, Settling.Settle(t.graph, st))
    ensures Played(Settling.Settle(t.graph, st)) == Played(st)
    decreases |Settling.Open(t.graph, st)|
  {
    if !Stable(t.graph, st) {
      var u := Settling.Pick(t.graph, st);
      Settling.FireFits(t.graph, st, u);
      CoherentStep(t, st, u, Walkover(st.rows[u]));
      ExplainedStep(t, st, u, Walkover(st.rows[u]));
      PlayedStep(t, st, u, Walkover(st.rows[u]));
      SettleCoherent(t, Fire(t.graph, st, u));
    }
  }

  /** Record a result and sweep. */
  ghost function Record(g: Graph, st: Facts, u: UnitId, r: Result): Facts
    requires Fits(g, st) && u in g
  {
    Settling.PropagateFits(g, st, u, r);
    Settling.Settle(g, Propagate(g, st, u, r))
  }

  /** Recording keeps a good state good and adds just the entered result to what was played. */
  lemma RecordKeepsGood(t: Topology, st: Facts, u: UnitId, r: Result)
    requires Good(t, st) && Playable(t.graph, st, u)
    ensures Good(t, Record(t.graph, st, u, r))
    ensures Played(Record(t.graph, st, u, r)) == Played(st)[u := r]
  {
    PlayableIsReady(t, st, u);
    CoherentStep(t, st, u, r);
    ExplainedStep(t, st, u, r);
    PlayedStep(t, st, u, r);
    SettleCoherent(t, Propagate(t.graph, st, u, r));
  }

  // ---- the meaning of a draw ------------------------------------------------

  datatype Line = Line(row: Row, result: Option<Result>)

  /** Slots, sides and result of `u`, from the untouched draw and the matches played. */
  ghost function Outcome(t: Topology, played: map<UnitId, Result>, u: UnitId): Line
    requires WellBuilt(t) && u in t.graph
    decreases t.graph[u].round, 1
  {
    var p := t.origin[u];
    var row := Shown(t, u, Meaning(t, played, u, p.slotA), Meaning(t, played, u, p.slotB));
    var ready := forall d | d in t.graph[u].deps :: Outcome(t, played, d).result.Some?;
    Line(row,
      if !ready then None
      else if OneSided(row) then Some(Walkover(row))
      else if u in played then Some(played[u])
      else None)
  }

  ghost function Meaning(t: Topology, played: map<UnitId, Result>, u: UnitId, s: Slot): Slot
    requires WellBuilt(t) && u in t.graph && (s == t.origin[u].slotA || s == t.origin[u].slotB)
    decreases t.graph[u].round, 0
  {
    if s.Feeder? then
      assert s.unit in t.graph[u].deps;
      var line := Outcome(t, played, s.unit);
      if line.result.Some? then Fed(line.row, line.result.value, s.take) else s
    else s
  }

  function LineOf(st: Facts, u: UnitId): Line
    requires u in st.rows
  {
    Line(st.rows[u], if u in st.results then Some(st.results[u]) else None)
  }

  lemma MeaningIsResolve(t: Topology, st: Facts, u: UnitId, s: Slot)
    requires Coherent(t, st) && u in t.graph && (s == t.origin[u].slotA || s == t.origin[u].slotB)
    requires forall d :: d in t.graph[u].deps ==> LineOf(st, d) == Outcome(t, Played(st), d)
    ensures Meaning(t, Played(st), u, s) == Resolve(st, s)
  {
    if s.Feeder? {
      assert s.unit in t.graph[u].deps;
      assert LineOf(st, s.unit) == Outcome(t, Played(st), s.unit);
    }
  }

  /** A good state is nothing but the meaning of its draw and of the matches played. */
  lemma {:induction false} GoodIsOutcome(t: Topology, st: Facts, u: UnitId)
    requires Good(t, st) && u in t.graph
    ensures LineOf(st, u) == Outcome(t, Played(st), u)
    decreases t.graph[u].round
  {
    forall d | d in t.graph[u].deps
      ensures LineOf(st, d) == Outcome(t, Played(st), d)
    {
      GoodIsOutcome(t, st, d);
    }
    var p := t.origin[u];
    MeaningIsResolve(t, st, u, p.slotA);
    MeaningIsResolve(t, st, u, p.slotB);
    assert CoherentAt(t, st, u) && ExplainedAt(st, u) && !Eligible(t.graph, st, u);
    if !OneSided(st.rows[u]) {
      PlayableIsReady(t, st, u);
    }
  }

  lemma LinesDetermine(st1: Facts, st2: Facts)
    requires st1.rows.Keys == st2.rows.Keys
    requires st1.results.Keys <= st1.rows.Keys && st2.results.Keys <= st2.rows.Keys
    requires forall u :: u in st1.rows ==> LineOf(st1, u) == LineOf(st2, u)
    ensures st1 == st2
  {
    assert st1.rows == st2.rows;
    forall u | u in st1.rows
      ensures u in st1.results <==> u in st2.results
      ensures u in st1.results ==> st1.results[u] == st2.results[u]
    {
      assert LineOf(st1, u) == LineOf(st2, u);
    }
    assert st1.results == st2.results;
  }

  /** Two good states in which the same matches were played are the same state. */
  lemma GoodStatesAgree(t: Topology, st1: Facts, st2: Facts)
    requires Good(t, st1) && Good(t, st2) && Played(st1) == Played(st2)
    ensures st1 == st2
  {
    forall u | u in st1.rows
      ensures LineOf(st1, u) == LineOf(st2, u)
    {
      GoodIsOutcome(t, st1, u);
      GoodIsOutcome(t, st2, u);
    }
    LinesDetermine(st1, st2);
  }

  /** The untouched draw, swept once, is good: this is the state of a registered draw. */
  lemma RegisteredIsGood(t: Topology)
    requires WellBuilt(t)
    ensures Coherent(t, Untouched(t)) && Explained(Untouched(t))
    ensures Good(t, Settling.Settle(t.graph, Untouched(t)))
    ensures Played(Settling.Settle(t.graph, Untouched(t))) == map[]
  {
    forall u | u in t.graph
      ensures CoherentAt(t, Untouched(t), u)
    {
      assert EntersWell(t, u);
    }
    SettleCoherent(t, Untouched(t));
    assert Played(Untouched(t)) == map[];
  }

  /** A draw as registration leaves it. */
  ghost function Registered(t: Topology): (st: Facts)
    requires WellBuilt(t)
    ensures Good(t, st)
  {
    RegisteredIsGood(t);
    Settling.Settle(t.graph, Untouched(t))
  }
}
