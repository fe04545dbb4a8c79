/** Participants are conserved: nobody is ever in two places, and who cannot
    continue never comes back. */
module Conservation {
  import opened Bracket
  import Settling
  import opened Coherence
  import opened Runs

  datatype Position = Position(unit: UnitId, first: bool)

  function SlotAt(row: Row, first: bool): Slot {
    if first then row.slotA else row.slotB
  }

  /** No two places of the untouched draw hold the same entrant or the same feed. */
  ghost predicate PlacesDistinct(t: Topology) {
    forall p: Position, q: Position ::
      p.unit in t.origin && q.unit in t.origin && p != q
      && SlotAt(t.origin[p.unit], p.first) == SlotAt(t.origin[q.unit], q.first)
      ==> SlotAt(t.origin[p.unit], p.first) == Bye
  }

  predicate Live(st: Facts, u: UnitId) {
    u in st.rows && u !in st.results
  }

  predicate Apart(st: Facts, p: Position, q: Position)
    requires p.unit in st.rows && q.unit in st.rows
  {
    SlotAt(st.rows[p.unit], p.first) == SlotAt(st.rows[q.unit], q.first) ==>
      SlotAt(st.rows[p.unit], p.first) == Bye
  }

  /** Among units without a result no entrant and no feed occurs twice, and no unit
      ever has the same entrant on both sides. */
  ghost predicate Conserved(st: Facts) {
    && (forall p: Position, q: Position :: Live(st, p.unit) && Live(st, q.unit) && p != q ==> Apart(st, p, q))
    && (forall u :: u in st.rows ==> Apart(st, Position(u, true), Position(u, false)))
  }

  lemma StepSlot(t: Topology, st: Facts, u: UnitId, r: Result, p: Position)
    requires Coherent(t, st) && u in t.graph && u !in st.results && p.unit in t.graph
    ensures SlotAt(Propagate(t.graph, st, u, r).rows[p.unit], p.first) ==
      Rewire(SlotAt(st.rows[p.unit], p.first), u, st.rows[u], r)
    ensures SidesAgree(st.rows[u])
  {
    assert CoherentAt(t, st, p.unit) && CoherentAt(t, st, u) && EntersWell(t, u) && EntersWell(t, p.unit);
    WaitingSlot(t, st, u, p.unit, if p.first then t.origin[p.unit].slotA else t.origin[p.unit].slotB);
  }

  predicate Differ(x: Slot, y: Slot) {
    x == y ==> x == Bye
  }

  /** The slots of the recorded unit cannot end up in two places. */
  lemma RewireApart(row: Row, u: UnitId, r: Result, x: Slot, y: Slot)
    requires SidesAgree(row) && Differ(row.slotA, row.slotB) && Differ(x, y)
    requires Differ(x, row.slotA) && Differ(x, row.slotB) && Differ(y, row.slotA) && Differ(y, row.slotB)
    ensures Differ(Rewire(x, u, row, r), Rewire(y, u, row, r))
  {
  }

  lemma StepApart(t: Topology, st: Facts, u: UnitId, r: Result, p: Position, q: Position)
    requires Coherent(t, st) && Conserved(st) && u in t.graph && u !in st.results
    requires Live(st, p.unit) && Live(st, q.unit) && p.unit != u && q.unit != u && p != q
    ensures Apart(Propagate(t.graph, st, u, r), p, q)
  {
    StepSlot(t, st, u, r, p);
    StepSlot(t, st, u, r, q);
    var a, b := Position(u, true), Position(u, false);
    assert Live(st, u);
    assert Apart(st, p, q) && Apart(st, a, b) && Apart(st, p, a);
    assert Apart(st, p, b) && Apart(st, q, a) && Apart(st, q, b);
    RewireApart(st.rows[u], u, r,
      SlotAt(st.rows[p.unit], p.first), SlotAt(st.rows[q.unit], q.first));
  }

  lemma ConservedStep(t: Topology, st: Facts, u: UnitId, r: Result)
    requires Coherent(t, st) && Conserved(st) && u in t.graph && u !in st.results
    ensures Conserved(Propagate(t.graph, st, u, r))
  {
    var st' := Propagate(t.graph, st, u, r);
    forall p: Position, q: Position | Live(st', p.unit) && Live(st', q.unit) && p != q
      ensures Apart(st', p, q)
    {
      StepApart(t, st, u, r, p, q);
    }
    forall v | v in st'.rows
      ensures Apart(st', Position(v, true), Position(v, false))
    {
      if v == u || v in st.results {
        ResultedRowKept(t, st, u, r, v);
      } else {
        StepApart(t, st, u, r, Position(v, true), Position(v, false));
      }
    }
  }

  lemma {:induction false} SettleConserved(t: Topology, st: Facts)
    requires Coherent(t, st) && Conserved(st)
    ensures Conserved(Settling.Settle(t.graph, st))
    decreases |Settling.Open(t.graph, st)|
  {
    if !Stable(t.graph, st) {
      var u := Settling.Pick(t.graph, st);
      Settling.FireFits(t.graph, st, u);
      CoherentStep(t, st, u, Walkover(st.rows[u]));
      ConservedStep(t, st, u, Walkover(st.rows[u]));
      SettleConserved(t, Fire(t.graph, st, u));
    }
  }

  lemma {:induction false} RunConserved(t: Topology, st: Facts, ops: seq<Entry>)
    requires Good(t, st) && Conserved(st) && Legal(t, st, ops)
    ensures Conserved(Run(t, st, ops))
    decreases |ops|
  {
    if ops != [] {
      var u, r := ops[0].unit, ops[0].result;
      RecordKeepsGood(t, st, u, r);
      PlayableIsReady(t, st, u);
      CoherentStep(t, st, u, r);
      ConservedStep(t, st, u, r);
      SettleConserved(t, Propagate(t.graph, st, u, r));
      RunConserved(t, Record(t.graph, st, u, r), ops[1..]);
    }
  }

  /** The participant on a side: the one the engine feeds forward. */
  function OnSide(st: Facts, p: Position): Option<ParticipantId> {
    if p.unit !in st.rows then None else Head(if p.first then st.rows[p.unit].sideA else st.rows[p.unit].sideB)
  }

  lemma SideComesFromSlot(t: Topology, st: Facts, p: Position)
    requires Coherent(t, st) && p.unit in t.graph
    ensures OnSide(st, p).Some? ==> SlotAt(st.rows[p.unit], p.first) == Entrant(OnSide(st, p).value)
  {
    assert CoherentAt(t, st, p.unit) && EntersWell(t, p.unit);
  }

  lemma ConservedSides(t: Topology, st: Facts, p: Position, q: Position)
    requires Coherent(t, st) && Conserved(st) && p.unit in t.graph && q.unit in t.graph && p != q
    requires p.unit == q.unit || (p.unit !in st.results && q.unit !in st.results)
    ensures OnSide(st, p) == OnSide(st, q) ==> OnSide(st, p) == None
  {
    SideComesFromSlot(t, st, p);
    SideComesFromSlot(t, st, q);
    if p.unit == q.unit {
      assert Apart(st, Position(p.unit, true), Position(p.unit, false));
    } else {
      assert Live(st, p.unit) && Live(st, q.unit);
      assert Apart(st, p, q);
    }
  }

  /** Conservation over whole runs: from a draw whose places are distinct, in every
      reachable state a participant is on at most one side of the units without a
      result, and no unit has the same participant on both sides. */
  lemma ParticipantsConserved(t: Topology, ops: seq<Entry>, p: Position, q: Position)
    requires WellBuilt(t) && PlacesDistinct(t) && Legal(t, Registered(t), ops)
    requires p.unit in t.graph && q.unit in t.graph && p != q
    ensures var end := Run(t, Registered(t), ops);
            p.unit == q.unit || (p.unit !in end.results && q.unit !in end.results) ==>
            OnSide(end, p) == OnSide(end, q) ==> OnSide(end, p) == None
  {
    RegisteredIsGood(t);
    RegisteredConserved(t);
    RunPlays(t, Registered(t), ops);
    RunConserved(t, Registered(t), ops);
    var end := Run(t, Registered(t), ops);
    if p.unit == q.unit || (p.unit !in end.results && q.unit !in end.results) {
      ConservedSides(t, end, p, q);
    }
  }

  lemma RegisteredConserved(t: Topology)
    requires WellBuilt(t) && PlacesDistinct(t)
    ensures Conserved(Registered(t))
  {
    RegisteredIsGood(t);
    assert Conserved(Untouched(t));
    SettleConserved(t, Untouched(t));
  }

  // ---- leaving the draw -----------------------------------------------------

  /** `who` is on no side of a unit without a result. */
  ghost predicate Gone(st: Facts, who: ParticipantId) {
    forall p: Position :: Live(st, p.unit) ==> SlotAt(st.rows[p.unit], p.first) != Entrant(who)
  }

  lemma RewireGone(row: Row, u: UnitId, r: Result, x: Slot, who: ParticipantId)
    requires SidesAgree(row) && row.slotA != Entrant(who) && row.slotB != Entrant(who) && x != Entrant(who)
    ensures Rewire(x, u, row, r) != Entrant(who)
  {
  }

  lemma GoneStepAt(t: Topology, st: Facts, u: UnitId, r: Result, who: ParticipantId, p: Position)
    requires Coherent(t, st) && Gone(st, who) && u in t.graph && u !in st.results && Live(st, p.unit)
    ensures SlotAt(Propagate(t.graph, st, u, r).rows[p.unit], p.first) != Entrant(who)
  {
    var a, b := Position(u, true), Position(u, false);
    assert Live(st, a.unit) && Live(st, b.unit);
    StepSlot(t, st, u, r, p);
    assert SlotAt(st.rows[a.unit], a.first) != Entrant(who) && SlotAt(st.rows[b.unit], b.first) != Entrant(who);
    RewireGone(st.rows[u], u, r, SlotAt(st.rows[p.unit], p.first), who);
  }

  lemma GoneStep(t: Topology, st: Facts, u: UnitId, r: Result, who: ParticipantId)
    requires Coherent(t, st) && Gone(st, who) && u in t.graph && u !in st.results
    ensures Gone(Propagate(t.graph, st, u, r), who)
  {
    var st' := Propagate(t.graph, st, u, r);
    forall p: Position | Live(st', p.unit)
      ensures SlotAt(st'.rows[p.unit], p.first) != Entrant(who)
    {
      GoneStepAt(t, st, u, r, who, p);
    }
  }

  lemma {:induction false} SettleGone(t: Topology, st: Facts, who: ParticipantId)
    requires Coherent(t, st) && Gone(st, who)
    ensures Gone(Settling.Settle(t.graph, st), who)
    decreases |Settling.Open(t.graph, st)|
  {
    if !Stable(t.graph, st) {
      var u := Settling.Pick(t.graph, st);
      Settling.FireFits(t.graph, st, u);
      CoherentStep(t, st, u, Walkover(st.rows[u]));
      GoneStep(t, st, u, Walkover(st.rows[u]), who);
      SettleGone(t, Fire(t.graph, st, u), who);
    }
  }

  lemma {:induction false} RunGone(t: Topology, st: Facts, ops: seq<Entry>, who: ParticipantId)
    requires Good(t, st) && Gone(st, who) && Legal(t, st, ops)
    ensures Gone(Run(t, st, ops), who)
    decreases |ops|
  {
    if ops != [] {
      var u, r := ops[0].unit, ops[0].result;
      RecordKeepsGood(t, st, u, r);
      PlayableIsReady(t, st, u);
      CoherentStep(t, st, u, r);
      GoneStep(t, st, u, r, who);
      SettleGone(t, Propagate(t.graph, st, u, r), who);
      RunGone(t, Record(t.graph, st, u, r), ops[1..], who);
    }
  }

  /** Nothing takes the loser of `u`: it was a walkover, a retirement or a forfeit, or no slot asks for it. */
  ghost predicate LoserDropsOut(t: Topology, u: UnitId, r: Result) {
    || r.walkover || r.reason == Some("retired") || r.reason == Some("forfeit")
    || forall v :: v in t.origin ==> t.origin[v].slotA != Feeder(u, Loser) && t.origin[v].slotB != Feeder(u, Loser)
  }

  /** No slot of an open unit receives the loser `who` of a unit with row `row`. */
  lemma RewireWithoutLoser(row: Row, u: UnitId, r: Result, x: Slot, who: ParticipantId)
    requires SidesAgree(row) && Differ(row.slotA, row.slotB) && Differ(x, row.slotA) && Differ(x, row.slotB)
    requires (r.winner == A && row.slotB == Entrant(who)) || (r.winner == B && row.slotA == Entrant(who))
    requires LoserCannotContinue(r) || x != Feeder(u, Loser)
    ensures Rewire(x, u, row, r) != Entrant(who)
  {
  }

  lemma LoserGoneAt(t: Topology, st: Facts, u: UnitId, r: Result, p: Position)
    requires Coherent(t, st) && Conserved(st) && Playable(t.graph, st, u)
    requires r.winner != Neither && LoserDropsOut(t, u, r) && Live(st, p.unit) && p.unit != u
    ensures SlotAt(Propagate(t.graph, st, u, r).rows[p.unit], p.first) !=
      Entrant(LosingParticipant(st, u, r))
  {
    var a, b := Position(u, true), Position(u, false);
    assert Live(st, u);
    assert Apart(st, a, b) && Apart(st, p, a) && Apart(st, p, b);
    StepSlot(t, st, u, r, p);
    NoLoserFeed(t, st, u, r, p);
    RewireWithoutLoser(st.rows[u], u, r, SlotAt(st.rows[p.unit], p.first),
      LosingParticipant(st, u, r));
  }

  lemma LoserGone(t: Topology, st: Facts, u: UnitId, r: Result)
    requires Coherent(t, st) && Conserved(st) && Playable(t.graph, st, u)
    requires r.winner != Neither && LoserDropsOut(t, u, r)
    ensures Gone(Propagate(t.graph, st, u, r), LosingParticipant(st, u, r))
  {
    var st' := Propagate(t.graph, st, u, r);
    forall p: Position | Live(st', p.unit)
      ensures SlotAt(st'.rows[p.unit], p.first) != Entrant(LosingParticipant(st, u, r))
    {
      LoserGoneAt(t, st, u, r, p);
    }
  }

  lemma NoLoserFeed(t: Topology, st: Facts, u: UnitId, r: Result, p: Position)
    requires Coherent(t, st) && LoserDropsOut(t, u, r) && u in t.graph && u !in st.results && p.unit in t.graph
    ensures LoserCannotContinue(r) || SlotAt(st.rows[p.unit], p.first) != Feeder(u, Loser)
  {
    assert CoherentAt(t, st, p.unit);
    WaitingSlot(t, st, u, p.unit, if p.first then t.origin[p.unit].slotA else t.origin[p.unit].slotB);
  }

  function LosingParticipant(st: Facts, u: UnitId, r: Result): ParticipantId
    requires u in st.rows && !OneSided(st.rows[u])
  {
    if r.winner == A then st.rows[u].sideB[0] else st.rows[u].sideA[0]
  }

  /** Who loses by walkover, retirement or forfeit, or where nobody takes the loser,
      is on no side of an open unit afterwards, however the draw goes on. */
  lemma OutForGood(t: Topology, st: Facts, u: UnitId, r: Result, ops: seq<Entry>)
    requires Good(t, st) && Conserved(st) && Playable(t.graph, st, u)
    requires r.winner != Neither && LoserDropsOut(t, u, r)
    requires (RecordKeepsGood(t, st, u, r); Legal(t, Record(t.graph, st, u, r), ops))
    ensures (RecordKeepsGood(t, st, u, r);
             Gone(Run(t, Record(t.graph, st, u, r), ops), LosingParticipant(st, u, r)))
  {
    RecordKeepsGood(t, st, u, r);
    PlayableIsReady(t, st, u);
    CoherentStep(t, st, u, r);
    LoserGone(t, st, u, r);
    SettleGone(t, Propagate(t.graph, st, u, r), LosingParticipant(st, u, r));
    RunGone(t, Record(t.graph, st, u, r), ops, LosingParticipant(st, u, r));
  }
}
