/** Why results are only accepted for matches with two participants. The recording function alone accepts
    more; exactly the entries the guard would have refused leave the reachable states, and one whose loser
    is fed on is never made good again. */
module Guard {
  import opened Bracket
  import Settling
  import opened Coherence
  import opened Runs
  import Correction
  import opened DoubleElimination

  /** What the recording function itself asks for. */
  predicate Accepts(st: Facts, u: UnitId, r: Result) {
    && u in st.rows && u !in st.results
    && (r.winner == A ==> st.rows[u].sideA != []) && (r.winner == B ==> st.rows[u].sideB != [])
  }

  // ---- one entry ------------------------------------------------------------

  /** Up to the round of `u`, nothing but `u` has changed. */
  ghost predicate SameBelow(g: Graph, st: Facts, st': Facts, u: UnitId)
    requires u in g
  {
    forall v :: v in g && v != u && g[v].round <= g[u].round ==> SameAt(st, st', v)
  }

  predicate SameAt(st: Facts, st': Facts, v: UnitId) {
    v in st.rows && v in st'.rows && st'.rows[v] == st.rows[v] && (v in st'.results <==> v in st.results)
  }

  lemma RecordedBelow(g: Graph, st: Facts, u: UnitId, r: Result)
    requires Fits(g, st) && u in g
    ensures SameBelow(g, st, Propagate(g, st, u, r), u)
  {
    forall v | v in g && v != u && g[v].round <= g[u].round
      ensures SameAt(st, Propagate(g, st, u, r), v)
    {
      assert u !in g[v].deps;
      NotFed(g, st, u, r, v);
    }
  }

  /** A unit that becomes eligible by the entry comes after it. */
  lemma FiredAbove(g: Graph, st: Facts, st': Facts, u: UnitId, w: UnitId)
    requires Fits(g, st) && Stable(g, st) && Fits(g, st') && u in st'.results && SameBelow(g, st, st', u)
    requires Eligible(g, st', w)
    ensures g[w].round > g[u].round
  {
    if g[w].round <= g[u].round {
      assert SameAt(st, st', w);
      forall d | d in g[w].deps
        ensures d in st.results
      {
        assert SameAt(st, st', d);
      }
      assert Eligible(g, st, w);
    }
  }

  lemma {:induction false} SweptBelow(g: Graph, st: Facts, st': Facts, u: UnitId)
    requires Fits(g, st) && Stable(g, st) && Fits(g, st') && u in st'.results && SameBelow(g, st, st', u)
    ensures SameBelow(g, st, Settling.Settle(g, st'), u)
    decreases |Settling.Open(g, st')|
  {
    if !Stable(g, st') {
      var w := Settling.Pick(g, st');
      Settling.FireFits(g, st', w);
      FiredAbove(g, st, st', u, w);
      forall v | v in g && v != u && g[v].round <= g[u].round
        ensures SameAt(st, Fire(g, st', w), v)
      {
        assert SameAt(st, st', v) && w !in g[v].deps;
        NotFed(g, st', w, Walkover(st'.rows[w]), v);
      }
      SweptBelow(g, st, Fire(g, st', w), u);
    }
  }

  lemma RecordBelow(g: Graph, st: Facts, u: UnitId, r: Result)
    requires Fits(g, st) && Stable(g, st) && u in g
    ensures Fits(g, Record(g, st, u, r)) && SameBelow(g, st, Record(g, st, u, r), u)
    ensures u in Record(g, st, u, r).results && Record(g, st, u, r).results[u] == r
  {
    Settling.PropagateFits(g, st, u, r);
    RecordedBelow(g, st, u, r);
    SweptBelow(g, st, Propagate(g, st, u, r), u);
    Settling.SettleEnds(g, Propagate(g, st, u, r));
    Settling.SettleKeepsResult(g, Propagate(g, st, u, r), u);
  }

  /** In a good state, an accepted entry that the guard would refuse has a dependency without a result. */
  lemma UnplayableIsEarly(t: Topology, st: Facts, u: UnitId, r: Result) returns (d: UnitId)
    requires Good(t, st) && u in t.graph && Accepts(st, u, r) && !Playable(t.graph, st, u)
    ensures OneSided(st.rows[u]) && d in t.graph[u].deps && d !in st.results
  {
    assert !Eligible(t.graph, st, u);
    d :| d in t.graph[u].deps && d !in st.results;
  }

  /** The guard is exact: an accepted entry keeps a good state good if and only if the guard lets it pass. */
  lemma EntryNeedsGuard(t: Topology, st: Facts, u: UnitId, r: Result)
    requires Good(t, st) && u in t.graph && Accepts(st, u, r)
    ensures Good(t, Record(t.graph, st, u, r)) <==> Playable(t.graph, st, u)
  {
    if Playable(t.graph, st, u) {
      RecordKeepsGood(t, st, u, r);
    } else {
      var d := UnplayableIsEarly(t, st, u, r);
      RecordBelow(t.graph, st, u, r);
      assert SameAt(st, Record(t.graph, st, u, r), d);
      assert !CoherentAt(t, Record(t.graph, st, u, r), u);
    }
  }

  /** So it leaves the reachable states exactly if the guard would have refused it. */
  lemma EntryLeavesReachable(t: Topology, st: Facts, u: UnitId, r: Result) returns (next: Facts)
    requires WellBuilt(t) && Correction.Reachable(t, st) && u in t.graph && Accepts(st, u, r)
    ensures Fits(t.graph, st) && next == Record(t.graph, st, u, r)
    ensures Correction.Reachable(t, next) <==> Playable(t.graph, st, u)
  {
    Correction.GoodIffReachable(t, st);
    EntryNeedsGuard(t, st, u, r);
    next := Record(t.graph, st, u, r);
    Correction.GoodIffReachable(t, next);
  }

  // ---- unguarded runs -------------------------------------------------------

  lemma RecordFits(g: Graph, st: Facts, u: UnitId, r: Result)
    requires Fits(g, st) && u in g
    ensures Fits(g, Record(g, st, u, r))
  {
    Settling.PropagateFits(g, st, u, r);
    Settling.SettleEnds(g, Propagate(g, st, u, r));
  }

  /** Entries that the recording function accepts, one after the other. */
  ghost predicate AllAccepted(g: Graph, st: Facts, ops: seq<Entry>)
    requires Fits(g, st)
    decreases |ops|
  {
    ops == [] ||
    (&& ops[0].unit in g && Accepts(st, ops[0].unit, ops[0].result)
     && (RecordFits(g, st, ops[0].unit, ops[0].result);
         AllAccepted(g, Record(g, st, ops[0].unit, ops[0].result), ops[1..])))
  }

  ghost function Unguarded(g: Graph, st: Facts, ops: seq<Entry>): (end: Facts)
    requires Fits(g, st) && AllAccepted(g, st, ops)
    ensures Fits(g, end)
    decreases |ops|
  {
    if ops == [] then st
    else
      RecordFits(g, st, ops[0].unit, ops[0].result);
      Unguarded(g, Record(g, st, ops[0].unit, ops[0].result), ops[1..])
  }

  /** Every state on the way is good. */
  ghost predicate AlwaysGood(t: Topology, st: Facts, ops: seq<Entry>)
    requires Fits(t.graph, st) && AllAccepted(t.graph, st, ops)
    decreases |ops|
  {
    Good(t, st) && (ops == [] ||
      (RecordFits(t.graph, st, ops[0].unit, ops[0].result);
       AlwaysGood(t, Record(t.graph, st, ops[0].unit, ops[0].result), ops[1..])))
  }

  /** A run without the guard stays among the good states exactly if it is one with the guard. */
  lemma {:induction false} RunNeedsGuard(t: Topology, st: Facts, ops: seq<Entry>)
    requires Good(t, st) && AllAccepted(t.graph, st, ops)
    ensures AlwaysGood(t, st, ops) <==> Legal(t, st, ops)
    decreases |ops|
  {
    if ops != [] {
      var u, r := ops[0].unit, ops[0].result;
      EntryNeedsGuard(t, st, u, r);
      if Playable(t.graph, st, u) {
        RunNeedsGuard(t, Record(t.graph, st, u, r), ops[1..]);
      } else {
        RecordFits(t.graph, st, u, r);
      }
    }
  }

  // ---- an early entry whose loser is fed on ---------------------------------

  predicate KeepsConcrete(s: Slot, s': Slot) {
    !s.Feeder? ==> s' == s
  }

  /** Concrete slots stay, and so do results. */
  ghost predicate Lasts(st: Facts, st': Facts) {
    && (forall v :: v in st.rows ==> v in st'.rows && LastsAt(st.rows[v], st'.rows[v]))
    && (forall v :: v in st.results ==> v in st'.results && st'.results[v] == st.results[v])
  }

  predicate LastsAt(row: Row, row': Row) {
    KeepsConcrete(row.slotA, row'.slotA) && KeepsConcrete(row.slotB, row'.slotB)
  }

  lemma LastsOn(a: Facts, b: Facts, c: Facts)
    requires Lasts(a, b) && Lasts(b, c)
    ensures Lasts(a, c)
  {
  }

  lemma PropagateLasts(g: Graph, st: Facts, u: UnitId, r: Result)
    requires u in st.rows && u !in st.results
    ensures Lasts(st, Propagate(g, st, u, r))
  {
  }

  lemma {:induction false} SettleLasts(g: Graph, st: Facts)
    requires Fits(g, st)
    ensures Lasts(st, Settling.Settle(g, st))
    decreases |Settling.Open(g, st)|
  {
    if !Stable(g, st) {
      var w := Settling.Pick(g, st);
      Settling.FireFits(g, st, w);
      PropagateLasts(g, st, w, Walkover(st.rows[w]));
      SettleLasts(g, Fire(g, st, w));
      LastsOn(st, Fire(g, st, w), Settling.Settle(g, Fire(g, st, w)));
    }
  }

  lemma RecordLasts(g: Graph, st: Facts, u: UnitId, r: Result)
    requires Fits(g, st) && u in g && u !in st.results
    ensures Lasts(Propagate(g, st, u, r), Record(g, st, u, r)) && Lasts(st, Record(g, st, u, r))
  {
    Settling.PropagateFits(g, st, u, r);
    PropagateLasts(g, st, u, r);
    SettleLasts(g, Propagate(g, st, u, r));
    LastsOn(st, Propagate(g, st, u, r), Record(g, st, u, r));
  }

  lemma {:induction false} UnguardedLasts(g: Graph, st: Facts, ops: seq<Entry>)
    requires Fits(g, st) && AllAccepted(g, st, ops)
    ensures Lasts(st, Unguarded(g, st, ops))
    decreases |ops|
  {
    if ops != [] {
      RecordFits(g, st, ops[0].unit, ops[0].result);
      RecordLasts(g, st, ops[0].unit, ops[0].result);
      var next := Record(g, st, ops[0].unit, ops[0].result);
      UnguardedLasts(g, next, ops[1..]);
      LastsOn(st, next, Unguarded(g, next, ops[1..]));
    }
  }

  /** `v` takes the loser of `u`. */
  predicate TakesLoser(t: Topology, u: UnitId, v: UnitId) {
    v in t.origin && (t.origin[v].slotA == Feeder(u, Loser) || t.origin[v].slotB == Feeder(u, Loser))
  }

  /** A result with a winner, after which the loser plays on. */
  predicate Decisive(r: Result) {
    r.winner != Neither && !r.walkover && r.reason != Some("retired") && r.reason != Some("forfeit")
  }

  predicate LoserSlotIs(t: Topology, st: Facts, u: UnitId, v: UnitId, s: Slot) {
    && v in t.origin && v in st.rows
    && (t.origin[v].slotA == Feeder(u, Loser) ==> st.rows[v].slotA == s)
    && (t.origin[v].slotB == Feeder(u, Loser) ==> st.rows[v].slotB == s)
  }

  /** An early entry has no loser yet, so the slot that waits for one becomes a bye. */
  lemma EarlyLoserIsBye(t: Topology, st: Facts, u: UnitId, r: Result, v: UnitId)
    requires Good(t, st) && u in t.graph && Accepts(st, u, r) && !Playable(t.graph, st, u) && Decisive(r)
    requires TakesLoser(t, u, v)
    ensures v in t.graph && LoserSlotIs(t, Record(t.graph, st, u, r), u, v, Bye)
  {
    var d := UnplayableIsEarly(t, st, u, r);
    assert CoherentAt(t, st, v) && Points(Feeder(u, Loser), u);
    assert u in t.graph[v].deps && LoserOf(st.rows[u], r) == None;
    var step := Propagate(t.graph, st, u, r);
    assert LoserSlotIs(t, step, u, v, Bye);
    RecordLasts(t.graph, st, u, r);
    assert LastsAt(step.rows[v], Record(t.graph, st, u, r).rows[v]);
  }

  /** In a good state, the slot for the loser of a match that went on for both is not a bye, if the side that
      lost came from another match. */
  lemma GoodLoserIsEntrant(t: Topology, end: Facts, u: UnitId, v: UnitId)
    requires Good(t, end) && u in end.results && Decisive(end.results[u]) && TakesLoser(t, u, v) && v in t.graph
    requires end.results[u].winner == A ==> t.origin[u].slotB.Feeder?
    requires end.results[u].winner == B ==> t.origin[u].slotA.Feeder?
    ensures !LoserSlotIs(t, end, u, v, Bye)
  {
    var r := end.results[u];
    assert CoherentAt(t, end, u) && CoherentAt(t, end, v) && ExplainedAt(end, u);
    assert Points(Feeder(u, Loser), u);
    assert u in t.graph[v].deps;
    var lost := if r.winner == A then t.origin[u].slotB else t.origin[u].slotA;
    assert lost.unit in t.graph[u].deps;
    assert Resolve(end, lost).Entrant?;
  }

  /** The side of an early entry that has lost still waits for another match. */
  lemma EarlyLoserComesFromMatch(t: Topology, st: Facts, u: UnitId, r: Result, end: Facts)
    requires Good(t, st) && u in t.graph && Accepts(st, u, r) && !Playable(t.graph, st, u) && Decisive(r)
    requires Good(t, end) && u in end.results && end.results[u] == r && Lasts(st, end)
    ensures r.winner == A ==> t.origin[u].slotB.Feeder?
    ensures r.winner == B ==> t.origin[u].slotA.Feeder?
  {
    var d := UnplayableIsEarly(t, st, u, r);
    assert CoherentAt(t, st, u) && CoherentAt(t, end, u) && ExplainedAt(end, u);
    assert LastsAt(st.rows[u], end.rows[u]);
  }

  /** An early entry whose loser is fed on is never made good: however results are entered after it, the state
      is not one that any legal run reaches. */
  lemma NeverMadeGood(t: Topology, st: Facts, u: UnitId, r: Result, v: UnitId, ops: seq<Entry>)
    requires Good(t, st) && u in t.graph && Accepts(st, u, r) && !Playable(t.graph, st, u) && Decisive(r)
    requires TakesLoser(t, u, v)
    requires Fits(t.graph, Record(t.graph, st, u, r)) && AllAccepted(t.graph, Record(t.graph, st, u, r), ops)
    ensures !Good(t, Unguarded(t.graph, Record(t.graph, st, u, r), ops))
  {
    var first := Record(t.graph, st, u, r);
    var end := Unguarded(t.graph, first, ops);
    EarlyLoserIsBye(t, st, u, r, v);
    RecordLasts(t.graph, st, u, r);
    RecordBelow(t.graph, st, u, r);
    UnguardedLasts(t.graph, first, ops);
    LastsOn(st, first, end);
    assert LastsAt(first.rows[v], end.rows[v]);
    if Good(t, end) {
      EarlyLoserComesFromMatch(t, st, u, r, end);
      GoodLoserIsEntrant(t, end, u, v);
    }
  }

  // ---- two orders -----------------------------------------------------------

  /** The entries `a` and `b`, both with result `r`, are accepted in both orders, with different ends. */
  ghost predicate OrderShows(g: Graph, st: Facts, a: UnitId, b: UnitId, r: Result)
    requires Fits(g, st) && a in g && b in g
  {
    var first, second := Record(g, st, a, r), Record(g, st, b, r);
    && Accepts(st, a, r) && Accepts(st, b, r)
    && Fits(g, first) && Fits(g, second) && Accepts(first, b, r) && Accepts(second, a, r)
    && Record(g, first, b, r) != Record(g, second, a, r)
  }

  /** A unit of the opening round of a good state is open exactly if it has not been played. */
  lemma OpeningIsPlayed(t: Topology, st: Facts, u: UnitId)
    requires Good(t, st) && u in t.graph && t.graph[u].deps == [] && !OneSided(t.origin[u])
    ensures st.rows[u] == t.origin[u] && (u in st.results <==> u in Played(st))
  {
    assert CoherentAt(t, st, u);
  }

  /** One opening match has been won by its first entrant, and the other is still open. */
  predicate HalfOpened(n: Names, st: Facts) {
    && n.w00 in st.results && n.w01 !in st.results && st.results[n.w00].winner == A
    && n.a != BYE && n.a != "" && n.c != BYE && n.c != ""
  }

  /** The winners' final has its first side, and waits for its second. */
  lemma FinalTooEarly(t: Topology, n: Names, st: Facts, r: Result)
    requires HasCorner(t, n) && Good(t, st) && HalfOpened(n, st) && r.winner == A
    ensures n.w10 in t.graph && n.w01 in t.graph && n.w10 !in st.results
    ensures Accepts(st, n.w10, r) && !Playable(t.graph, st, n.w10)
    ensures Accepts(st, n.w01, r) && Playable(t.graph, st, n.w01)
  {
    CornerDeps(t, n);
    OpeningIsPlayed(t, st, n.w00);
    OpeningIsPlayed(t, st, n.w01);
    assert CoherentAt(t, st, n.w10);
  }

  lemma OpeningsDecided(t: Topology, n: Names, st: Facts, r: Result) returns (first: Facts)
    requires HasCorner(t, n) && Good(t, st) && HalfOpened(n, st) && r.winner == A
    ensures n.w01 in t.graph && first == Record(t.graph, st, n.w01, r) && Good(t, first)
    ensures Played(first) == Played(st)[n.w01 := r]
    ensures n.w00 in first.results && first.results[n.w00] == st.results[n.w00]
    ensures n.w01 in first.results && first.results[n.w01] == r
  {
    FinalTooEarly(t, n, st, r);
    first := Record(t.graph, st, n.w01, r);
    RecordKeepsGood(t, st, n.w01, r);
    RecordBelow(t.graph, st, n.w01, r);
    RecordLasts(t.graph, st, n.w01, r);
  }

  /** Once the other opening match is in, the final can be played. */
  lemma FinalInTime(t: Topology, n: Names, st: Facts, r: Result) returns (first: Facts)
    requires HasCorner(t, n) && Good(t, st) && HalfOpened(n, st) && r.winner == A
    ensures n.w01 in t.graph && n.w10 in t.graph
    ensures first == Record(t.graph, st, n.w01, r) && Good(t, first)
    ensures Playable(t.graph, first, n.w10) && Accepts(first, n.w10, r)
  {
    CornerDeps(t, n);
    FinalTooEarly(t, n, st, r);
    first := OpeningsDecided(t, n, st, r);
    BothSidesOfFinal(t, n, first);
    assert n.w10 !in Played(st);
    assert n.w10 in first.results ==> n.w10 in Played(first);
  }

  lemma BothSidesOfFinal(t: Topology, n: Names, st: Facts)
    requires HasCorner(t, n) && Good(t, st)
    requires n.w00 in st.results && n.w01 in st.results
    requires st.results[n.w00].winner == A && st.results[n.w01].winner == A
    requires n.a != BYE && n.a != "" && n.c != BYE && n.c != ""
    ensures n.w10 in st.rows && !OneSided(st.rows[n.w10])
  {
    CornerDeps(t, n);
    OpeningIsPlayed(t, st, n.w00);
    OpeningIsPlayed(t, st, n.w01);
    assert CoherentAt(t, st, n.w10);
  }

  /** The final entered first; the open match is still accepted, but the draw is never good again. */
  lemma FinalFirst(t: Topology, n: Names, st: Facts, r: Result) returns (second: Facts)
    requires HasCorner(t, n) && Good(t, st) && HalfOpened(n, st) && r.winner == A && Decisive(r)
    ensures n.w01 in t.graph && n.w10 in t.graph
    ensures second == Record(t.graph, st, n.w10, r) && Fits(t.graph, second)
    ensures Accepts(second, n.w01, r) && !Good(t, Record(t.graph, second, n.w01, r))
  {
    CornerDeps(t, n);
    FinalTooEarly(t, n, st, r);
    second := Record(t.graph, st, n.w10, r);
    RecordBelow(t.graph, st, n.w10, r);
    assert SameAt(st, second, n.w01);
    RecordFits(t.graph, second, n.w01, r);
    var ops := [Entry(n.w01, r)];
    assert ops[1..] == [];
    NeverMadeGood(t, st, n.w10, r, n.l10, ops);
  }

  /** In every double elimination draw, once one opening match has been won by its first
      entrant and the other is open, the winners' final is accepted too early; its loser's place then becomes
      a bye, so the order in which it and the open match are entered shows. */
  lemma OrderShowsWithoutGuard(t: Topology, n: Names, st: Facts, r: Result)
    requires HasCorner(t, n) && Good(t, st) && HalfOpened(n, st) && r.winner == A && Decisive(r)
    ensures n.w01 in t.graph && n.w10 in t.graph
    ensures Accepts(st, n.w10, r) && !Playable(t.graph, st, n.w10)
    ensures OrderShows(t.graph, st, n.w01, n.w10, r)
  {
    FinalTooEarly(t, n, st, r);
    var first := FinalInTime(t, n, st, r);
    var second := FinalFirst(t, n, st, r);
    RecordKeepsGood(t, first, n.w10, r);
  }

  /** The smallest double elimination draw is an instance. */
  lemma FourEntrantsShowOrder(n: Names, r: Result) returns (st: Facts)
    requires Different(n) && n.a != BYE && n.a != "" && n.c != BYE && n.c != "" && r.winner == A && Decisive(r)
    ensures HasCorner(Double(n), n) && Good(Double(n), st) && HalfOpened(n, st)
    ensures OrderShows(Double(n).graph, st, n.w01, n.w10, r)
  {
    var t := Double(n);
    DoubleHasCorner(n);
    st := HalfOpen(t, n, r);
    OrderShowsWithoutGuard(t, n, st, r);
  }

  /** Registering a draw and recording its first match gets there. */
  lemma HalfOpen(t: Topology, n: Names, r: Result) returns (st: Facts)
    requires HasCorner(t, n) && n.w00 != n.w01 && n.a != BYE && n.a != "" && n.c != BYE && n.c != ""
    requires r.winner == A
    ensures Good(t, st) && HalfOpened(n, st)
  {
    RegisteredIsGood(t);
    var start := Registered(t);
    OpeningIsPlayed(t, start, n.w00);
    OpeningIsPlayed(t, start, n.w01);
    RecordKeepsGood(t, start, n.w00, r);
    st := Record(t.graph, start, n.w00, r);
    RecordBelow(t.graph, start, n.w00, r);
    OpeningIsPlayed(t, st, n.w01);
  }
}
