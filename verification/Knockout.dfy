/** Single elimination: rounds of paired units, each fed by the winners of the round before.
    However the matches go, n entrants need exactly n - 1 of them to leave one champion. */
module Knockout {
  import opened Bracket
  import opened Coherence
  import opened Runs
  import opened Conservation
  import Correction
  import Reconciliation

  type Rounds = seq<seq<UnitId>>

  /** The number of units halves from round to round. */
  predicate Halving(entries: seq<Slot>, rounds: Rounds) {
    && (|rounds| > 0 ==> |entries| == 2 * |rounds[0]|)
    && (forall r | 0 < r < |rounds| :: |rounds[r - 1]| == 2 * |rounds[r]|)
  }

  predicate Seat(rounds: Rounds, r: nat, i: nat) {
    r < |rounds| && i < |rounds[r]|
  }

  /** No unit is listed twice. */
  ghost predicate AllDistinct(rounds: Rounds) {
    forall r: nat, i: nat, s: nat, j: nat {:trigger Seat(rounds, r, i), Seat(rounds, s, j)} ::
      Seat(rounds, r, i) && Seat(rounds, s, j) && (r != s || i != j) ==> rounds[r][i] != rounds[s][j]
  }

  /** What the slots of the i-th unit of round `r` start from. */
  function PairAt(entries: seq<Slot>, rounds: Rounds, r: nat, i: nat): Pairing
    requires Halving(entries, rounds) && Seat(rounds, r, i)
  {
    if r == 0 then Pairing(entries[2 * i], entries[2 * i + 1])
    else Pairing(Feeder(rounds[r - 1][2 * i], Winner), Feeder(rounds[r - 1][2 * i + 1], Winner))
  }

  function NodeAt(event: EventId, entries: seq<Slot>, rounds: Rounds, r: nat, i: nat): Node
    requires Halving(entries, rounds) && Seat(rounds, r, i)
  {
    Node(event, if r == 0 then [] else [rounds[r - 1][2 * i], rounds[r - 1][2 * i + 1]], r)
  }

  function UnitsIn(rounds: Rounds): set<UnitId> {
    set r, i | 0 <= r < |rounds| && 0 <= i < |rounds[r]| :: rounds[r][i]
  }

  /** The i-th unit of round `r` is fed as a knockout feeds it. */
  predicate Placed(t: Topology, event: EventId, entries: seq<Slot>, rounds: Rounds, r: nat, i: nat)
    requires Halving(entries, rounds) && Seat(rounds, r, i)
  {
    var u := rounds[r][i];
    && u in t.graph && u in t.origin && EntersWell(t, u)
    && t.graph[u] == NodeAt(event, entries, rounds, r, i)
    && Pairing(t.origin[u].slotA, t.origin[u].slotB) == PairAt(entries, rounds, r, i)
  }

  /** The rounds of a single elimination draw of `entries` that have been built. */
  ghost predicate BuiltSoFar(t: Topology, event: EventId, entries: seq<Slot>, rounds: Rounds) {
    && Halving(entries, rounds) && AllDistinct(rounds) && (forall k :: 0 <= k < |entries| ==> !entries[k].Feeder?)
    && t.graph.Keys == UnitsIn(rounds) && t.origin.Keys == UnitsIn(rounds)
    && forall r: nat, i: nat {:trigger Placed(t, event, entries, rounds, r, i)} {:trigger Seat(rounds, r, i)} ::
         Seat(rounds, r, i) ==> Placed(t, event, entries, rounds, r, i)
  }

  /** A single elimination draw of `entries`: its rounds go down to one unit, the final. */
  ghost predicate IsKnockout(t: Topology, event: EventId, entries: seq<Slot>, rounds: Rounds) {
    BuiltSoFar(t, event, entries, rounds) && |rounds| > 0 && |rounds[|rounds| - 1]| == 1
  }

  lemma KnockoutAt(t: Topology, event: EventId, entries: seq<Slot>, rounds: Rounds, u: UnitId) returns (r: nat, i: nat)
    requires IsKnockout(t, event, entries, rounds) && u in t.graph
    ensures Seat(rounds, r, i) && rounds[r][i] == u && Placed(t, event, entries, rounds, r, i)
    ensures r > 0 ==> Seat(rounds, r - 1, 2 * i) && Placed(t, event, entries, rounds, r - 1, 2 * i)
    ensures r > 0 ==> Seat(rounds, r - 1, 2 * i + 1) && Placed(t, event, entries, rounds, r - 1, 2 * i + 1)
  {
    r, i :| 0 <= r < |rounds| && 0 <= i < |rounds[r]| && rounds[r][i] == u;
    assert Seat(rounds, r, i);
    if r > 0 {
      assert Seat(rounds, r - 1, 2 * i) && Seat(rounds, r - 1, 2 * i + 1);
    }
  }

  /** The feeders of a knockout draw are its dependencies, always from the round before. */
  lemma KnockoutIsWellBuilt(t: Topology, event: EventId, entries: seq<Slot>, rounds: Rounds)
    requires IsKnockout(t, event, entries, rounds)
    ensures WellBuilt(t)
  {
    forall u, f | u in t.graph
      ensures f in t.graph[u].deps <==> Points(t.origin[u].slotA, f) || Points(t.origin[u].slotB, f)
      ensures f in t.graph[u].deps ==>
        f in t.graph && t.graph[f].event == t.graph[u].event && t.graph[f].round < t.graph[u].round
    {
      var r, i := KnockoutAt(t, event, entries, rounds, u);
      if f in t.graph[u].deps {
        assert f == rounds[r - 1][2 * i] || f == rounds[r - 1][2 * i + 1];
      }
    }
    forall u | u in t.graph
      ensures EntersWell(t, u)
    {
      var r, i := KnockoutAt(t, event, entries, rounds, u);
    }
  }

  /** A unit of the opening round: two entries meet, on sides that show them. */
  predicate OpensAt(t: Topology, entries: seq<Slot>, u: UnitId, i: nat)
    requires u in t.graph && u in t.origin && 2 * i + 1 < |entries|
  {
    var row := t.origin[u];
    && t.graph[u].deps == [] && row.slotA == entries[2 * i] && row.slotB == entries[2 * i + 1]
    && (row.slotA == Bye ==> row.sideA == []) && (row.slotB == Bye ==> row.sideB == [])
    && (row.slotA.Entrant? ==> row.sideA != [] && row.sideA[0] == row.slotA.id)
    && (row.slotB.Entrant? ==> row.sideB != [] && row.sideB[0] == row.slotB.id)
  }

  /** A unit of a later round: it waits for the winners of two units, and nobody is there yet. */
  predicate FollowsAt(t: Topology, u: UnitId, a: UnitId, b: UnitId)
    requires u in t.graph && u in t.origin
  {
    t.graph[u].deps == [a, b] && t.origin[u] == Row(Feeder(a, Winner), Feeder(b, Winner), [], [])
  }

  /** How a single elimination draw is wired: rounds of half as many units each, down to one; the i-th unit of a round
      is fed by the units 2i and 2i + 1 of the round before, or by those entries. */
  ghost predicate WiredAsKnockout(t: Topology, event: EventId, entries: seq<Slot>, rounds: Rounds) {
    && |rounds| > 0 && |entries| == 2 * |rounds[0]| && |rounds[|rounds| - 1]| == 1
    && (forall r :: 0 < r < |rounds| ==> |rounds[r - 1]| == 2 * |rounds[r]|)
    && (forall u :: u in t.graph ==> exists r: nat, i: nat :: Seat(rounds, r, i) && rounds[r][i] == u)
    && forall r: nat, i: nat {:trigger Seat(rounds, r, i)} :: Seat(rounds, r, i) ==>
         WiredAt(t, event, entries, rounds, r, i)
  }

  predicate WiredAt(t: Topology, event: EventId, entries: seq<Slot>, rounds: Rounds, r: nat, i: nat)
    requires r < |rounds| && i < |rounds[r]|
  {
    var u := rounds[r][i];
    && u in t.graph && u in t.origin && t.graph[u].event == event && t.graph[u].round == r
    && (r == 0 ==> 2 * i + 1 < |entries| && OpensAt(t, entries, u, i))
    && (r > 0 ==> 2 * i + 1 < |rounds[r - 1]| && FollowsAt(t, u, rounds[r - 1][2 * i], rounds[r - 1][2 * i + 1]))
  }

  lemma KnockoutInPlainTerms(t: Topology, event: EventId, entries: seq<Slot>, rounds: Rounds)
    requires IsKnockout(t, event, entries, rounds)
    ensures WiredAsKnockout(t, event, entries, rounds)
  {
    forall u | u in t.graph
      ensures exists r: nat, i: nat :: Seat(rounds, r, i) && rounds[r][i] == u
    {
      var r, i := KnockoutAt(t, event, entries, rounds, u);
    }
    forall r: nat, i: nat | Seat(rounds, r, i)
      ensures WiredAt(t, event, entries, rounds, r, i)
    {
      assert Placed(t, event, entries, rounds, r, i);
    }
  }

  // ---- one round ------------------------------------------------------------

  /** The slot that the winner of `u` is fed into. */
  function Advances(st: Facts, u: UnitId): Slot {
    Resolve(st, Feeder(u, Winner))
  }

  function AdvanceAll(st: Facts, ids: seq<UnitId>): (slots: seq<Slot>)
    ensures |slots| == |ids| && forall i :: 0 <= i < |ids| ==> slots[i] == Advances(st, ids[i])
  {
    seq(|ids|, i requires 0 <= i < |ids| => Advances(st, ids[i]))
  }

  /** A bye, or an entrant whose id is not taken for an absent one. */
  predicate Proper(s: Slot) {
    s == Bye || (s.Entrant? && s.id != "" && s.id != BYE)
  }

  function Entrants(slots: seq<Slot>): nat {
    if slots == [] then 0 else (if slots[0].Entrant? then 1 else 0) + Entrants(slots[1..])
  }

  predicate WasContested(st: Facts, u: UnitId) {
    u in st.rows && !OneSided(st.rows[u])
  }

  function Contested(st: Facts, ids: seq<UnitId>): nat {
    if ids == [] then 0 else (if WasContested(st, ids[0]) then 1 else 0) + Contested(st, ids[1..])
  }

  /** `u` has a result; with both sides present one of them won, otherwise it was walked over. */
  predicate Decided(st: Facts, u: UnitId, a: Slot, b: Slot) {
    && u in st.rows && u in st.results && SidesAgree(st.rows[u])
    && st.rows[u].slotA == a && st.rows[u].slotB == b
    && (OneSided(st.rows[u]) ==> st.results[u] == Walkover(st.rows[u]))
    && (!OneSided(st.rows[u]) ==> st.results[u].winner != Neither)
  }

  lemma UnitCounts(st: Facts, u: UnitId, a: Slot, b: Slot)
    requires Proper(a) && Proper(b) && Decided(st, u, a, b)
    ensures WasContested(st, u) <==> a.Entrant? && b.Entrant?
    ensures Advances(st, u) == a || Advances(st, u) == b
    ensures Advances(st, u).Entrant? <==> a.Entrant? || b.Entrant?
  {
  }

  ghost predicate AllProper(slots: seq<Slot>) {
    forall i :: 0 <= i < |slots| ==> Proper(slots[i])
  }

  ghost predicate AllDecided(st: Facts, ins: seq<Slot>, ids: seq<UnitId>)
    requires |ins| == 2 * |ids|
  {
    forall i :: 0 <= i < |ids| ==> Decided(st, ids[i], ins[2 * i], ins[2 * i + 1])
  }

  /** Who is in `outs` was in `ins`. */
  ghost predicate ComeFrom(outs: seq<Slot>, ins: seq<Slot>) {
    forall i :: 0 <= i < |outs| ==> outs[i] in ins
  }

  lemma TwoEntrants(slots: seq<Slot>)
    requires |slots| >= 2
    ensures Entrants(slots) ==
      (if slots[0].Entrant? then 1 else 0) + (if slots[1].Entrant? then 1 else 0) + Entrants(slots[2..])
  {
    assert slots[1..][1..] == slots[2..];
  }

  /** A round eliminates as many entrants as it has contested matches, and never all of them. */
  lemma {:induction false} RoundCounts(st: Facts, ins: seq<Slot>, ids: seq<UnitId>)
    requires |ins| == 2 * |ids| && AllProper(ins) && AllDecided(st, ins, ids)
    ensures Entrants(AdvanceAll(st, ids)) + Contested(st, ids) == Entrants(ins)
    ensures Entrants(ins) > 0 ==> Entrants(AdvanceAll(st, ids)) > 0
    ensures AllProper(AdvanceAll(st, ids)) && ComeFrom(AdvanceAll(st, ids), ins)
    decreases |ids|
  {
    if ids != [] {
      var outs := AdvanceAll(st, ids);
      assert Decided(st, ids[0], ins[2 * 0], ins[2 * 0 + 1]);
      UnitCounts(st, ids[0], ins[0], ins[1]);
      forall i | 0 <= i < |ids| - 1
        ensures Decided(st, ids[1..][i], ins[2..][2 * i], ins[2..][2 * i + 1])
      {
        assert Decided(st, ids[i + 1], ins[2 * (i + 1)], ins[2 * (i + 1) + 1]);
      }
      RoundCounts(st, ins[2..], ids[1..]);
      TwoEntrants(ins);
      assert outs[1..] == AdvanceAll(st, ids[1..]);
      forall i | 0 <= i < |outs|
        ensures Proper(outs[i]) && outs[i] in ins
      {
        if i > 0 {
          assert outs[i] == AdvanceAll(st, ids[1..])[i - 1];
        }
      }
    }
  }

  // ---- the whole draw ---------------------------------------------------------

  /** What goes into round `r`; after the last round, what comes out of the draw. */
  function Into(st: Facts, entries: seq<Slot>, rounds: Rounds, r: nat): seq<Slot>
    requires r <= |rounds|
  {
    if r == 0 then entries else AdvanceAll(st, rounds[r - 1])
  }

  function ContestedBefore(st: Facts, rounds: Rounds, r: nat): nat
    requires r <= |rounds|
  {
    if r == 0 then 0 else ContestedBefore(st, rounds, r - 1) + Contested(st, rounds[r - 1])
  }

  /** Every unit has a result, and every match that was played has a winner. */
  ghost predicate Complete(t: Topology, st: Facts) {
    Good(t, st) && t.graph.Keys <= st.results.Keys && forall u :: u in Played(st) ==> Played(st)[u].winner != Neither
  }

  lemma SeatDecided(t: Topology, event: EventId, entries: seq<Slot>, rounds: Rounds, st: Facts, r: nat, i: nat)
    requires IsKnockout(t, event, entries, rounds) && Complete(t, st) && Seat(rounds, r, i)
    requires |Into(st, entries, rounds, r)| == 2 * |rounds[r]|
    ensures var ins := Into(st, entries, rounds, r); Decided(st, rounds[r][i], ins[2 * i], ins[2 * i + 1])
  {
    var ins, u := Into(st, entries, rounds, r), rounds[r][i];
    assert Placed(t, event, entries, rounds, r, i);
    assert CoherentAt(t, st, u) && ExplainedAt(st, u);
    assert Resolve(st, t.origin[u].slotA) == ins[2 * i] && Resolve(st, t.origin[u].slotB) == ins[2 * i + 1];
    assert !OneSided(st.rows[u]) ==> u in Played(st);
  }

  lemma RoundDecided(t: Topology, event: EventId, entries: seq<Slot>, rounds: Rounds, st: Facts, r: nat)
    requires IsKnockout(t, event, entries, rounds) && Complete(t, st) && r < |rounds|
    ensures |Into(st, entries, rounds, r)| == 2 * |rounds[r]|
    ensures AllDecided(st, Into(st, entries, rounds, r), rounds[r])
  {
    var ins := Into(st, entries, rounds, r);
    forall i | 0 <= i < |rounds[r]|
      ensures Decided(st, rounds[r][i], ins[2 * i], ins[2 * i + 1])
    {
      SeatDecided(t, event, entries, rounds, st, r, i);
    }
  }

  lemma {:induction false} RoundsCount(t: Topology, event: EventId, entries: seq<Slot>, rounds: Rounds, st: Facts,
                                       r: nat)
    requires IsKnockout(t, event, entries, rounds) && Complete(t, st) && AllProper(entries) && r <= |rounds|
    ensures Entrants(Into(st, entries, rounds, r)) + ContestedBefore(st, rounds, r) == Entrants(entries)
    ensures Entrants(entries) > 0 ==> Entrants(Into(st, entries, rounds, r)) > 0
    ensures AllProper(Into(st, entries, rounds, r)) && ComeFrom(Into(st, entries, rounds, r), entries)
    decreases r
  {
    if r > 0 {
      RoundsCount(t, event, entries, rounds, st, r - 1);
      RoundDecided(t, event, entries, rounds, st, r - 1);
      RoundCounts(st, Into(st, entries, rounds, r - 1), rounds[r - 1]);
    }
  }

  // ---- counting the matches ---------------------------------------------------

  function ContestedIn(st: Facts, ids: seq<UnitId>): set<UnitId> {
    set u | u in ids && WasContested(st, u)
  }

  lemma {:induction false} ContestedInOne(st: Facts, ids: seq<UnitId>)
    requires NoDuplicates(ids)
    ensures |ContestedIn(st, ids)| == Contested(st, ids)
    decreases |ids|
  {
    if ids != [] {
      ContestedInOne(st, ids[1..]);
      var rest := ContestedIn(st, ids[1..]);
      assert ids[0] !in rest;
      assert ContestedIn(st, ids) == rest + (if WasContested(st, ids[0]) then {ids[0]} else {});
    } else {
      assert ContestedIn(st, ids) == {};
    }
  }

  function ContestedSoFar(st: Facts, rounds: Rounds, r: nat): set<UnitId>
    requires r <= |rounds|
  {
    if r == 0 then {} else ContestedSoFar(st, rounds, r - 1) + ContestedIn(st, rounds[r - 1])
  }

  lemma {:induction false} ContestedSoFarAt(st: Facts, rounds: Rounds, r: nat, u: UnitId)
    requires r <= |rounds|
    ensures u in ContestedSoFar(st, rounds, r) <==>
      WasContested(st, u) && exists s: nat, i: nat :: s < r && Seat(rounds, s, i) && rounds[s][i] == u
    decreases r
  {
    if r > 0 {
      ContestedSoFarAt(st, rounds, r - 1, u);
      if u in rounds[r - 1] {
        var i :| 0 <= i < |rounds[r - 1]| && rounds[r - 1][i] == u;
        assert Seat(rounds, r - 1, i);
      }
    }
  }

  lemma RoundsDiffer(rounds: Rounds, r: nat, i: nat, s: nat, u: UnitId)
    requires AllDistinct(rounds) && Seat(rounds, r, i) && rounds[r][i] == u && s < |rounds| && s != r
    ensures u !in rounds[s]
  {
    if u in rounds[s] {
      var j :| 0 <= j < |rounds[s]| && rounds[s][j] == u;
      assert Seat(rounds, s, j);
    }
  }

  lemma RoundIsDistinct(rounds: Rounds, r: nat)
    requires AllDistinct(rounds) && r < |rounds|
    ensures NoDuplicates(rounds[r])
  {
    forall i, j | 0 <= i < |rounds[r]| && 0 <= j < |rounds[r]| && i != j
      ensures rounds[r][i] != rounds[r][j]
    {
      assert Seat(rounds, r, i) && Seat(rounds, r, j);
    }
  }

  lemma {:induction false} ContestedAreCounted(st: Facts, rounds: Rounds, r: nat)
    requires AllDistinct(rounds) && r <= |rounds|
    ensures |ContestedSoFar(st, rounds, r)| == ContestedBefore(st, rounds, r)
    decreases r
  {
    if r > 0 {
      ContestedAreCounted(st, rounds, r - 1);
      RoundIsDistinct(rounds, r - 1);
      ContestedInOne(st, rounds[r - 1]);
      var before, now := ContestedSoFar(st, rounds, r - 1), ContestedIn(st, rounds[r - 1]);
      forall u | u in now
        ensures u !in before
      {
        ContestedSoFarAt(st, rounds, r - 1, u);
        if u in before {
          var s: nat, i: nat :| s < r - 1 && Seat(rounds, s, i) && rounds[s][i] == u;
          RoundsDiffer(rounds, s, i, r - 1, u);
        }
      }
      assert before !! now;
    }
  }

  lemma PlayedAreContested(t: Topology, event: EventId, entries: seq<Slot>, rounds: Rounds, st: Facts)
    requires IsKnockout(t, event, entries, rounds) && Complete(t, st)
    ensures Played(st).Keys == ContestedSoFar(st, rounds, |rounds|)
  {
    forall u
      ensures u in Played(st) <==> u in ContestedSoFar(st, rounds, |rounds|)
    {
      ContestedSoFarAt(st, rounds, |rounds|, u);
      if u in Played(st) {
        var r, i := KnockoutAt(t, event, entries, rounds, u);
      }
    }
  }

  /** The positions of the entrants. */
  ghost function EntrantsOf(entries: seq<Slot>): set<nat> {
    set k: nat | k < |entries| && entries[k].Entrant?
  }

  lemma {:induction false} EntrantsFrom(entries: seq<Slot>, n: nat)
    requires n <= |entries|
    ensures Entrants(entries[n..]) == |set k: nat | n <= k < |entries| && entries[k].Entrant?|
    decreases |entries| - n
  {
    var here := set k: nat | n <= k < |entries| && entries[k].Entrant?;
    if n == |entries| {
      assert here == {};
    } else {
      var later := set k: nat | n + 1 <= k < |entries| && entries[k].Entrant?;
      EntrantsFrom(entries, n + 1);
      assert entries[n..][1..] == entries[n + 1..];
      if entries[n].Entrant? {
        assert here == later + {n};
      } else {
        assert here == later;
      }
    }
  }

  lemma EntrantsAreCounted(entries: seq<Slot>)
    ensures Entrants(entries) == |EntrantsOf(entries)|
  {
    EntrantsFrom(entries, 0);
    assert entries[0..] == entries;
    assert EntrantsOf(entries) == set k: nat | 0 <= k < |entries| && entries[k].Entrant?;
  }

  /** The units with a result and with somebody on both sides. */
  ghost function PlayedOn(st: Facts): set<UnitId> {
    set u | u in st.results && u in st.rows && st.rows[u].sideA != [] && st.rows[u].sideB != []
  }

  /** The first of the side that won is one of the entrants. */
  predicate Champion(entries: seq<Slot>, row: Row, r: Result) {
    || (r.winner == A && row.sideA != [] && Entrant(row.sideA[0]) in entries)
    || (r.winner == B && row.sideB != [] && Entrant(row.sideB[0]) in entries)
  }

  function Final(rounds: Rounds): UnitId
    requires |rounds| > 0 && |rounds[|rounds| - 1]| == 1
  {
    rounds[|rounds| - 1][0]
  }

  lemma OneEntrant(s: Slot)
    ensures Entrants([s]) == if s.Entrant? then 1 else 0
  {
    assert [s][1..] == [];
  }

  lemma WinnerIsChampion(entries: seq<Slot>, st: Facts, u: UnitId)
    requires u in st.rows && u in st.results && Advances(st, u).Entrant? && Advances(st, u) in entries
    ensures Champion(entries, st.rows[u], st.results[u])
  {
  }

  lemma FinalIsDecided(t: Topology, event: EventId, entries: seq<Slot>, rounds: Rounds, st: Facts)
    requires IsKnockout(t, event, entries, rounds) && Complete(t, st)
    ensures Final(rounds) in st.results && Final(rounds) in st.rows
    ensures Into(st, entries, rounds, |rounds|) == [Advances(st, Final(rounds))]
  {
    assert Seat(rounds, |rounds| - 1, 0) && Placed(t, event, entries, rounds, |rounds| - 1, 0);
  }

  /** What comes out of the draw is the winner of the final. */
  lemma LastOneIn(t: Topology, event: EventId, entries: seq<Slot>, rounds: Rounds, st: Facts)
    requires IsKnockout(t, event, entries, rounds) && Complete(t, st)
    requires Entrants(Into(st, entries, rounds, |rounds|)) > 0 && ComeFrom(Into(st, entries, rounds, |rounds|), entries)
    ensures Final(rounds) in st.results && Final(rounds) in st.rows
    ensures Champion(entries, st.rows[Final(rounds)], st.results[Final(rounds)])
    ensures Entrants(Into(st, entries, rounds, |rounds|)) == 1
  {
    FinalIsDecided(t, event, entries, rounds, st);
    var out := Into(st, entries, rounds, |rounds|);
    OneEntrant(out[0]);
    assert out[0] in entries;
    WinnerIsChampion(entries, st, Final(rounds));
  }

  lemma PlayedIsCounted(st: Facts)
    ensures |Played(st)| == |PlayedOn(st)|
  {
    assert Played(st).Keys == PlayedOn(st);
  }

  /** When every unit of a knockout draw has a result, the winner of the final is one of the
      entrants, and exactly one match fewer than there were entrants has been played,
      whatever the byes, the results and the order they came in. */
  lemma OneChampion(t: Topology, event: EventId, entries: seq<Slot>, rounds: Rounds, st: Facts)
    requires IsKnockout(t, event, entries, rounds) && AllProper(entries) && Entrants(entries) > 0 && Complete(t, st)
    ensures Final(rounds) in st.results && Final(rounds) in st.rows
    ensures Champion(entries, st.rows[Final(rounds)], st.results[Final(rounds)])
    ensures |Played(st)| == |PlayedOn(st)| == |EntrantsOf(entries)| - 1
  {
    PlayedIsCounted(st);
    EntrantsAreCounted(entries);
    RoundsCount(t, event, entries, rounds, st, |rounds|);
    ContestedAreCounted(st, rounds, |rounds|);
    PlayedAreContested(t, event, entries, rounds, st);
    LastOneIn(t, event, entries, rounds, st);
  }

  // ---- whole runs ---------------------------------------------------------------

  lemma NotEnteredAgain(t: Topology, st: Facts, ops: seq<Entry>)
    requires Good(t, st) && Legal(t, st, ops) && ops != []
    ensures ops[0].unit !in Entered(ops[1..])
  {
    var u, r := ops[0].unit, ops[0].result;
    if u in Entered(ops[1..]) {
      EnteredComesFrom(ops[1..], u);
      var e :| e in ops[1..] && e.unit == u;
      RecordKeepsGood(t, st, u, r);
      EntriesAreDistinct(t, Record(t.graph, st, u, r), ops[1..], e);
      Correction.RecordGrows(t.graph, st, u, r);
    }
  }

  lemma {:induction false} EnteredOnce(t: Topology, st: Facts, ops: seq<Entry>)
    requires Good(t, st) && Legal(t, st, ops)
    ensures |Entered(ops)| == |ops|
    decreases |ops|
  {
    if ops != [] {
      NotEnteredAgain(t, st, ops);
      RecordKeepsGood(t, st, ops[0].unit, ops[0].result);
      EnteredOnce(t, Record(t.graph, st, ops[0].unit, ops[0].result), ops[1..]);
      OneKeyMore(Entered(ops[1..]), ops[0].unit, ops[0].result);
    }
  }

  lemma OneKeyMore<K, V>(m: map<K, V>, k: K, v: V)
    requires k !in m
    ensures |map[k := v] + m| == |m| + 1
  {
    assert (map[k := v] + m).Keys == {k} + m.Keys;
  }

  /** A run that gives every match it enters a winner and ends when no match is left to play. */
  ghost predicate PlayedOut(t: Topology, ops: seq<Entry>) {
    && WellBuilt(t) && Legal(t, Registered(t), ops)
    && (forall e :: e in ops ==> e.result.winner != Neither)
    && (forall u :: !Playable(t.graph, Run(t, Registered(t), ops), u))
  }

  lemma PlayedOutHasResult(t: Topology, st: Facts, u: UnitId)
    requires Good(t, st) && u in t.graph && forall v :: !Playable(t.graph, st, v)
    ensures u in st.results
  {
    if u !in st.results {
      NeverStuck(t, st, u);
    }
  }

  lemma WinnersEntered(ops: seq<Entry>)
    requires forall e :: e in ops ==> e.result.winner != Neither
    ensures forall u :: u in Entered(ops) ==> Entered(ops)[u].winner != Neither
  {
    forall u | u in Entered(ops)
      ensures Entered(ops)[u].winner != Neither
    {
      EnteredComesFrom(ops, u);
    }
  }

  lemma PlayedOutIsComplete(t: Topology, ops: seq<Entry>)
    requires PlayedOut(t, ops)
    ensures Complete(t, Run(t, Registered(t), ops)) && Played(Run(t, Registered(t), ops)) == Entered(ops)
  {
    RegisteredIsGood(t);
    RunPlays(t, Registered(t), ops);
    WinnersEntered(ops);
    Correction.AddToNothing(Entered(ops));
    forall u | u in t.graph
      ensures u in Run(t, Registered(t), ops).results
    {
      PlayedOutHasResult(t, Run(t, Registered(t), ops), u);
    }
  }

  /** Every run of a knockout draw of n >= 1 entrants that is played out takes exactly n - 1
      matches, and leaves one of the entrants as the winner of the final. */
  lemma {:induction false} EveryKnockoutRun(t: Topology, event: EventId, entries: seq<Slot>, rounds: Rounds,
                                            ops: seq<Entry>)
    requires IsKnockout(t, event, entries, rounds) && AllProper(entries) && Entrants(entries) > 0 && PlayedOut(t, ops)
    ensures |ops| == |EntrantsOf(entries)| - 1
    ensures var end := Run(t, Registered(t), ops);
      && Final(rounds) in end.results && Final(rounds) in end.rows
      && Champion(entries, end.rows[Final(rounds)], end.results[Final(rounds)])
  {
    PlayedOutIsComplete(t, ops);
    EnteredOnce(t, Registered(t), ops);
    OneChampion(t, event, entries, rounds, Run(t, Registered(t), ops));
  }

  // ---- nobody is in two places ---------------------------------------------------

  ghost predicate EntrantsDiffer(entries: seq<Slot>) {
    forall k, l {:trigger entries[k], entries[l]} ::
      0 <= k < |entries| && 0 <= l < |entries| && k != l && entries[k] == entries[l] ==> entries[k] == Bye
  }

  lemma PlaceOf(t: Topology, event: EventId, entries: seq<Slot>, rounds: Rounds, p: Conservation.Position)
    returns (r: nat, k: nat)
    requires IsKnockout(t, event, entries, rounds) && p.unit in t.graph
    ensures Seat(rounds, r, k / 2) && rounds[r][k / 2] == p.unit && p.first == (k % 2 == 0)
    ensures r == 0 ==> k < |entries| && SlotAt(t.origin[p.unit], p.first) == entries[k]
    ensures r > 0 ==> Seat(rounds, r - 1, k) && SlotAt(t.origin[p.unit], p.first) == Feeder(rounds[r - 1][k], Winner)
  {
    var i;
    r, i := KnockoutAt(t, event, entries, rounds, p.unit);
    k := if p.first then 2 * i else 2 * i + 1;
  }

  /** A knockout draw of different entrants has no entrant and no feed in two places. */
  lemma KnockoutPlacesDistinct(t: Topology, event: EventId, entries: seq<Slot>, rounds: Rounds)
    requires IsKnockout(t, event, entries, rounds) && EntrantsDiffer(entries)
    ensures PlacesDistinct(t)
  {
    forall p: Conservation.Position, q: Conservation.Position | p.unit in t.origin && q.unit in t.origin && p != q
      && SlotAt(t.origin[p.unit], p.first) == SlotAt(t.origin[q.unit], q.first)
      ensures SlotAt(t.origin[p.unit], p.first) == Bye
    {
      var r, k := PlaceOf(t, event, entries, rounds, p);
      var s, l := PlaceOf(t, event, entries, rounds, q);
    }
  }

  /** Whoever loses a match of a knockout draw is on no side of an open unit afterwards,
      whatever was played before and is played after. */
  lemma LosersAreOut(t: Topology, event: EventId, entries: seq<Slot>, rounds: Rounds,
                     before: seq<Entry>, u: UnitId, r: Result, after: seq<Entry>) returns (st: Facts)
    requires IsKnockout(t, event, entries, rounds) && EntrantsDiffer(entries) && WellBuilt(t)
    requires Legal(t, Registered(t), before) && Playable(t.graph, Run(t, Registered(t), before), u)
    requires r.winner != Neither
    requires (RunPlays(t, Registered(t), before); RecordKeepsGood(t, Run(t, Registered(t), before), u, r);
              Legal(t, Record(t.graph, Run(t, Registered(t), before), u, r), after))
    ensures st == Run(t, Registered(t), before) && Good(t, st)
    ensures (RecordKeepsGood(t, st, u, r);
             Gone(Run(t, Record(t.graph, st, u, r), after), LosingParticipant(st, u, r)))
  {
    st := Run(t, Registered(t), before);
    RunPlays(t, Registered(t), before);
    KnockoutPlacesDistinct(t, event, entries, rounds);
    RegisteredConserved(t);
    RunConserved(t, Registered(t), before);
    NoLoserFeeds(t, event, entries, rounds, u, r);
    OutForGood(t, st, u, r, after);
  }

  lemma NoLoserFeeds(t: Topology, event: EventId, entries: seq<Slot>, rounds: Rounds, u: UnitId, r: Result)
    requires IsKnockout(t, event, entries, rounds)
    ensures LoserDropsOut(t, u, r)
  {
    forall v | v in t.origin
      ensures t.origin[v].slotA != Feeder(u, Loser) && t.origin[v].slotB != Feeder(u, Loser)
    {
      var s, i := KnockoutAt(t, event, entries, rounds, v);
    }
  }

  // ---- generation ------------------------------------------------------------------

  predicate PowerOfTwo(n: nat) {
    n == 1 || (n > 0 && n % 2 == 0 && PowerOfTwo(n / 2))
  }

  function TwoTo(k: nat): nat {
    if k == 0 then 1 else 2 * TwoTo(k - 1)
  }

  lemma {:induction false} PowersOfTwo(n: nat)
    ensures PowerOfTwo(n) <==> exists k: nat :: n == TwoTo(k)
    decreases n
  {
    if n > 1 && n % 2 == 0 {
      PowersOfTwo(n / 2);
      if PowerOfTwo(n / 2) {
        var k: nat :| n / 2 == TwoTo(k);
        assert n == TwoTo(k + 1);
      }
    } else if n == 1 {
      assert n == TwoTo(0);
    }
    if k: nat :| n == TwoTo(k) {
      assert k > 0 ==> n == 2 * TwoTo(k - 1) && n / 2 == TwoTo(k - 1);
      TwoToIsPositive(k);
    }
  }

  lemma {:induction false} TwoToIsPositive(k: nat)
    ensures TwoTo(k) > 0 && (k > 0 ==> TwoTo(k - 1) > 0)
  {
    if k > 0 {
      TwoToIsPositive(k - 1);
    }
  }

  /** Unit ids tell round and position. */
  ghost predicate Naming(name: (nat, nat) -> UnitId) {
    forall r: nat, i: nat, s: nat, j: nat {:trigger name(r, i), name(s, j)} ::
      name(r, i) == name(s, j) ==> r == s && i == j
  }

  ghost predicate Named(rounds: Rounds, name: (nat, nat) -> UnitId) {
    forall r: nat, i: nat {:trigger Seat(rounds, r, i)} :: Seat(rounds, r, i) ==> rounds[r][i] == name(r, i)
  }

  lemma NamedAreDistinct(rounds: Rounds, name: (nat, nat) -> UnitId)
    requires Naming(name) && Named(rounds, name)
    ensures AllDistinct(rounds)
  {
  }

  /** The last of `rounds` is built up to its n-th unit. */
  ghost predicate LastBuilt(t: Topology, event: EventId, entries: seq<Slot>, rounds: Rounds, n: nat)
    requires |rounds| > 0 && Halving(entries, rounds) && n <= |rounds[|rounds| - 1]|
  {
    && t.graph.Keys == UnitsIn(rounds[..|rounds| - 1]) + Reconciliation.Listed(rounds[|rounds| - 1][..n])
    && t.origin.Keys == t.graph.Keys
    && forall r: nat, i: nat {:trigger Seat(rounds, r, i)} ::
         Seat(rounds, r, i) && (r < |rounds| - 1 || i < n) ==> Placed(t, event, entries, rounds, r, i)
  }

  function Place(t: Topology, event: EventId, entries: seq<Slot>, rounds: Rounds, r: nat, i: nat): Topology
    requires Halving(entries, rounds) && Seat(rounds, r, i)
  {
    Topology(t.graph[rounds[r][i] := NodeAt(event, entries, rounds, r, i)],
             t.origin[rounds[r][i] := RowOf(PairAt(entries, rounds, r, i))])
  }

  lemma PlaceNext(t: Topology, event: EventId, entries: seq<Slot>, rounds: Rounds, n: nat)
    requires |rounds| > 0 && Halving(entries, rounds) && AllDistinct(rounds) && n < |rounds[|rounds| - 1]|
    requires LastBuilt(t, event, entries, rounds, n)
    ensures Seat(rounds, |rounds| - 1, n)
    ensures LastBuilt(Place(t, event, entries, rounds, |rounds| - 1, n), event, entries, rounds, n + 1)
  {
    var last := |rounds| - 1;
    assert Seat(rounds, last, n);
    var t' := Place(t, event, entries, rounds, last, n);
    assert rounds[last][..n + 1] == rounds[last][..n] + [rounds[last][n]];
    forall r: nat, i: nat | Seat(rounds, r, i) && (r < last || i < n + 1)
      ensures Placed(t', event, entries, rounds, r, i)
    {
      if r < last || i < n {
        assert Placed(t, event, entries, rounds, r, i);
      }
    }
  }

  lemma RoundStarts(t: Topology, event: EventId, entries: seq<Slot>, rounds: Rounds, ids: seq<UnitId>)
    requires BuiltSoFar(t, event, entries, rounds) && Halving(entries, rounds + [ids])
    ensures LastBuilt(t, event, entries, rounds + [ids], 0)
  {
    var more := rounds + [ids];
    assert more[..|more| - 1] == rounds;
    forall r: nat, i: nat | Seat(more, r, i) && r < |more| - 1
      ensures Placed(t, event, entries, more, r, i)
    {
      assert Seat(rounds, r, i) && Placed(t, event, entries, rounds, r, i);
    }
  }

  lemma RoundEnds(t: Topology, event: EventId, entries: seq<Slot>, rounds: Rounds)
    requires |rounds| > 0 && Halving(entries, rounds) && AllDistinct(rounds)
    requires forall k :: 0 <= k < |entries| ==> !entries[k].Feeder?
    requires LastBuilt(t, event, entries, rounds, |rounds[|rounds| - 1]|)
    ensures BuiltSoFar(t, event, entries, rounds)
  {
    var last := |rounds| - 1;
    assert rounds[last][..|rounds[last]|] == rounds[last];
    forall u
      ensures u in UnitsIn(rounds) <==> u in UnitsIn(rounds[..last]) || u in rounds[last]
    {
    }
  }

  /** The number of units of the last round, or of entries before the first. */
  function Width(entries: seq<Slot>, rounds: Rounds): nat {
    if rounds == [] then |entries| else |rounds[|rounds| - 1]|
  }

  lemma NextHalves(entries: seq<Slot>, rounds: Rounds, ids: seq<UnitId>)
    requires Halving(entries, rounds) && Width(entries, rounds) == 2 * |ids|
    ensures Halving(entries, rounds + [ids])
  {
    var more := rounds + [ids];
    forall r | 0 < r < |more|
      ensures |more[r - 1]| == 2 * |more[r]|
    {
      assert r < |rounds| ==> |rounds[r - 1]| == 2 * |rounds[r]|;
    }
  }

  /** Place the units of the last round, one by one. */
  method FillRound(t: Topology, event: EventId, entries: seq<Slot>, rounds: Rounds) returns (t': Topology)
    requires |rounds| > 0 && Halving(entries, rounds) && AllDistinct(rounds)
    requires forall k :: 0 <= k < |entries| ==> !entries[k].Feeder?
    requires LastBuilt(t, event, entries, rounds, 0)
    ensures BuiltSoFar(t', event, entries, rounds)
  {
    t' := t;
    for i := 0 to |rounds[|rounds| - 1]|
      invariant LastBuilt(t', event, entries, rounds, i)
    {
      PlaceNext(t', event, entries, rounds, i);
      t' := Place(t', event, entries, rounds, |rounds| - 1, i);
    }
    RoundEnds(t', event, entries, rounds);
  }

  /** Add one round: its units are fed by pairs of entries, or by pairs of units of the round before. */
  method AddRound(t: Topology, event: EventId, entries: seq<Slot>, rounds: Rounds, name: (nat, nat) -> UnitId)
    returns (t': Topology, rounds': Rounds)
    requires BuiltSoFar(t, event, entries, rounds) && Naming(name) && Named(rounds, name)
    requires Width(entries, rounds) % 2 == 0
    ensures BuiltSoFar(t', event, entries, rounds') && Named(rounds', name)
    ensures |rounds'| == |rounds| + 1 && Width(entries, rounds') == Width(entries, rounds) / 2
  {
    var n := Width(entries, rounds) / 2;
    var r := |rounds|;
    var ids := seq(n, i requires 0 <= i < n => name(r, i));
    rounds' := rounds + [ids];
    NextHalves(entries, rounds, ids);
    NextIsNamed(rounds, ids, name);
    NamedAreDistinct(rounds', name);
    RoundStarts(t, event, entries, rounds, ids);
    t' := FillRound(t, event, entries, rounds');
  }

  lemma NextIsNamed(rounds: Rounds, ids: seq<UnitId>, name: (nat, nat) -> UnitId)
    requires Named(rounds, name) && forall i :: 0 <= i < |ids| ==> ids[i] == name(|rounds|, i)
    ensures Named(rounds + [ids], name)
  {
    forall r: nat, i: nat | Seat(rounds + [ids], r, i)
      ensures (rounds + [ids])[r][i] == name(r, i)
    {
      assert r < |rounds| ==> Seat(rounds, r, i);
    }
  }

  /** Generate the draw of a list of entries, round by round; refused unless the size of the
      bracket is a power of two, and at least two. */
  method Generate(event: EventId, entries: seq<Slot>, name: (nat, nat) -> UnitId)
    returns (draw: Option<(Topology, Rounds)>)
    requires Naming(name) && forall k :: 0 <= k < |entries| ==> !entries[k].Feeder?
    ensures draw.Some? <==> |entries| >= 2 && exists k: nat :: |entries| == TwoTo(k)
    ensures draw.Some? ==> IsKnockout(draw.value.0, event, entries, draw.value.1)
    ensures draw.Some? ==> WiredAsKnockout(draw.value.0, event, entries, draw.value.1)
    ensures draw.Some? ==> Named(draw.value.1, name)
  {
    PowersOfTwo(|entries|);
    if |entries| < 2 || !PowerOfTwo(|entries|) {
      return None;
    }
    var t, rounds := AddRound(Topology(map[], map[]), event, entries, [], name);
    while |rounds[|rounds| - 1]| > 1
      invariant |rounds| > 0 && PowerOfTwo(|rounds[|rounds| - 1]|)
      invariant BuiltSoFar(t, event, entries, rounds) && Named(rounds, name)
      decreases |rounds[|rounds| - 1]|
    {
      t, rounds := AddRound(t, event, entries, rounds, name);
    }
    KnockoutInPlainTerms(t, event, entries, rounds);
    return Some((t, rounds));
  }
}
