/** The double elimination draw of four entrants, the smallest draw with a loser feed that counts. */
module DoubleElimination {
  import opened Bracket
  import opened Coherence

  /** Ids of the two opening matches, their final, the two losers' matches and the grand final, and the entrants. */
  datatype Names = Names(
    event: EventId,
    w00: UnitId, w01: UnitId, w10: UnitId, l00: UnitId, l10: UnitId, gf: UnitId,
    a: ParticipantId, b: ParticipantId, c: ParticipantId, d: ParticipantId)

  predicate Different(n: Names) {
    && n.w00 != n.w01 && n.w00 != n.w10 && n.w00 != n.l00 && n.w00 != n.l10 && n.w00 != n.gf
    && n.w01 != n.w10 && n.w01 != n.l00 && n.w01 != n.l10 && n.w01 != n.gf
    && n.w10 != n.l00 && n.w10 != n.l10 && n.w10 != n.gf
    && n.l00 != n.l10 && n.l00 != n.gf && n.l10 != n.gf
  }

  function Unfed(a: Slot, b: Slot): Row {
    Row(a, b, [], [])
  }

  function DoubleGraph(n: Names): Graph {
    map[
      n.w00 := Node(n.event, [], 0),
      n.w01 := Node(n.event, [], 0),
      n.w10 := Node(n.event, [n.w00, n.w01], 1),
      n.l00 := Node(n.event, [n.w00, n.w01], 1),
      n.l10 := Node(n.event, [n.l00, n.w10], 2),
      n.gf := Node(n.event, [n.w10, n.l10], 3)]
  }

  function DoubleOrigin(n: Names): map<UnitId, Row> {
    map[
      n.w00 := Row(Entrant(n.a), Entrant(n.b), [n.a], [n.b]),
      n.w01 := Row(Entrant(n.c), Entrant(n.d), [n.c], [n.d]),
      n.w10 := Unfed(Feeder(n.w00, Winner), Feeder(n.w01, Winner)),
      n.l00 := Unfed(Feeder(n.w00, Loser), Feeder(n.w01, Loser)),
      n.l10 := Unfed(Feeder(n.l00, Winner), Feeder(n.w10, Loser)),
      n.gf := Unfed(Feeder(n.w10, Winner), Feeder(n.l10, Winner))]
  }

  function Double(n: Names): Topology {
    Topology(DoubleGraph(n), DoubleOrigin(n))
  }

  /** A unit of two dependencies. */
  lemma TwoDeps(g: Graph, u: UnitId, x: UnitId, y: UnitId)
    requires u in g && g[u].deps == [x, y]
    ensures forall d :: d in g[u].deps <==> d == x || d == y
  {
  }

  lemma DoubleDeps(n: Names)
    requires Different(n)
    ensures var g := DoubleGraph(n);
      && g[n.w00].deps == [] && g[n.w01].deps == []
      && (forall d :: d in g[n.w10].deps <==> d == n.w00 || d == n.w01)
      && (forall d :: d in g[n.l00].deps <==> d == n.w00 || d == n.w01)
      && (forall d :: d in g[n.l10].deps <==> d == n.l00 || d == n.w10)
      && (forall d :: d in g[n.gf].deps <==> d == n.w10 || d == n.l10)
  {
    var g := DoubleGraph(n);
    TwoDeps(g, n.w10, n.w00, n.w01);
    TwoDeps(g, n.l00, n.w00, n.w01);
    TwoDeps(g, n.l10, n.l00, n.w10);
    TwoDeps(g, n.gf, n.w10, n.l10);
  }

  lemma DoubleIsWellFormed(n: Names)
    requires Different(n)
    ensures WellFormed(DoubleGraph(n))
  {
    DoubleDeps(n);
  }

  /** Wired along the dependencies of `u`, and showing nobody its slots do not. */
  ghost predicate WiredAt(t: Topology, u: UnitId)
    requires u in t.graph && u in t.origin
  {
    && (forall f :: f in t.graph[u].deps <==> Points(t.origin[u].slotA, f) || Points(t.origin[u].slotB, f))
    && EntersWell(t, u)
  }

  lemma FedByTwo(t: Topology, u: UnitId, x: UnitId, y: UnitId, forX: Take, forY: Take)
    requires u in t.graph && u in t.origin && t.graph[u].deps == [x, y]
    requires t.origin[u] == Unfed(Feeder(x, forX), Feeder(y, forY))
    ensures WiredAt(t, u)
  {
    TwoDeps(t.graph, u, x, y);
  }

  lemma WiredIsWellBuilt(t: Topology)
    requires WellFormed(t.graph) && t.origin.Keys == t.graph.Keys
    requires forall u :: u in t.graph ==> WiredAt(t, u)
    ensures WellBuilt(t)
  {
    forall u, f | u in t.graph
      ensures f in t.graph[u].deps <==> Points(t.origin[u].slotA, f) || Points(t.origin[u].slotB, f)
    {
      assert WiredAt(t, u);
    }
    forall u | u in t.graph
      ensures EntersWell(t, u)
    {
      assert WiredAt(t, u);
    }
  }

  lemma DoubleIsWellBuilt(n: Names)
    requires Different(n)
    ensures WellBuilt(Double(n))
  {
    var t := Double(n);
    DoubleIsWellFormed(n);
    FedByTwo(t, n.w10, n.w00, n.w01, Winner, Winner);
    FedByTwo(t, n.l00, n.w00, n.w01, Loser, Loser);
    FedByTwo(t, n.l10, n.l00, n.w10, Winner, Loser);
    FedByTwo(t, n.gf, n.w10, n.l10, Winner, Winner);
    WiredIsWellBuilt(t);
  }

  /** Two opening matches of two entrants, their final, and a match that takes the final's loser second: double
      elimination draws of any size have such corners. */
  ghost predicate HasCorner(t: Topology, n: Names) {
    && WellBuilt(t) && n.w00 in t.graph && n.w01 in t.graph && n.w10 in t.graph && n.l10 in t.graph
    && t.graph[n.w00].deps == [] && t.origin[n.w00] == Row(Entrant(n.a), Entrant(n.b), [n.a], [n.b])
    && t.graph[n.w01].deps == [] && t.origin[n.w01] == Row(Entrant(n.c), Entrant(n.d), [n.c], [n.d])
    && t.origin[n.w10] == Unfed(Feeder(n.w00, Winner), Feeder(n.w01, Winner))
    && t.origin[n.l10].slotB == Feeder(n.w10, Loser)
  }

  lemma CornerDeps(t: Topology, n: Names)
    requires HasCorner(t, n)
    ensures n.w00 in t.graph[n.w10].deps && n.w01 in t.graph[n.w10].deps
    ensures n.w10 != n.w00 && n.w10 != n.w01 && t.graph[n.w01].round < t.graph[n.w10].round
  {
    assert Points(t.origin[n.w10].slotA, n.w00) && Points(t.origin[n.w10].slotB, n.w01);
  }

  lemma DoubleHasCorner(n: Names)
    requires Different(n)
    ensures HasCorner(Double(n), n)
  {
    DoubleIsWellBuilt(n);
    DoubleDeps(n);
  }
}
