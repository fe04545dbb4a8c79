/** The engine in place: play units, draws and the tournament state as objects that
    the operations mutate. `Views` is their abstract value. */
module Advancement {
  import opened Bracket
  import Settling
  import opened Frontier
  import opened Reconciliation
  import Coherence

  class PlayUnit {
    const id: UnitId
    const event: EventId
    const dependencies: seq<UnitId>
    const round: nat
    var sideA: Side
    var sideB: Side

    constructor (id: UnitId, event: EventId, dependencies: seq<UnitId>, round: nat, sideA: Side, sideB: Side)
      ensures this.id == id && this.event == event && this.dependencies == dependencies && this.round == round
      ensures this.sideA == sideA && this.sideB == sideB
    {
      this.id, this.event, this.dependencies, this.round := id, event, dependencies, round;
      this.sideA, this.sideB := sideA, sideB;
    }
  }

  class Draw {
    const event: EventId
    const playUnits: map<UnitId, PlayUnit>
    const order: seq<UnitId>
    const rounds: seq<seq<UnitId>>
    var slots: map<UnitId, Coherence.Pairing>

    constructor (event: EventId, playUnits: map<UnitId, PlayUnit>, order: seq<UnitId>,
                 rounds: seq<seq<UnitId>>, slots: map<UnitId, Coherence.Pairing>)
      ensures this.event == event && this.playUnits == playUnits && this.order == order
      ensures this.rounds == rounds && this.slots == slots
    {
      this.event, this.playUnits, this.order := event, playUnits, order;
      this.rounds, this.slots := rounds, slots;
    }
  }

  datatype Assignment = Assignment(slotId: int, courtId: int, durationSlots: int, actualStartSlot: Option<int>)

  class TournamentState {
    const playUnits: map<UnitId, PlayUnit>
    const order: seq<UnitId>
    var results: map<UnitId, Result>
    var assignments: map<UnitId, Assignment>

    constructor (playUnits: map<UnitId, PlayUnit>, order: seq<UnitId>,
                 results: map<UnitId, Result>, assignments: map<UnitId, Assignment>)
      ensures this.playUnits == playUnits && this.order == order
      ensures this.results == results && this.assignments == assignments
    {
      this.playUnits, this.order, this.results, this.assignments := playUnits, order, results, assignments;
    }
  }

  type Draws = map<EventId, Draw>

  datatype Outcome<+T> = Ok(value: T) | Failed(error: Error)
  datatype Error = UnknownPlayUnit | NoDraw | AlreadyRecorded | EmptySide

  // ---- the abstract value ---------------------------------------------------

  function DrawGraph(draw: Draw): Graph {
    map u | u in draw.playUnits ::
      Node(draw.playUnits[u].event, draw.playUnits[u].dependencies, draw.playUnits[u].round)
  }

  /** The fixed part of a draw: every unit is listed once, under its own id. */
  ghost predicate DrawWired(draw: Draw) {
    && NoDuplicates(draw.order) && (forall u :: u in draw.playUnits <==> u in draw.order)
    && (forall u :: u in draw.playUnits ==> draw.playUnits[u].id == u && draw.playUnits[u].event == draw.event)
    && WellFormed(DrawGraph(draw))
  }

  ghost predicate DrawValid(draw: Draw)
    reads draw
  {
    DrawWired(draw) && draw.slots.Keys == draw.playUnits.Keys
  }

  /** The draw's units are the state's own objects, namely those of its event. */
  ghost predicate Shares(state: TournamentState, draw: Draw)
  {
    && (forall u :: u in draw.playUnits ==> u in state.playUnits && draw.playUnits[u] == state.playUnits[u])
    && (forall u :: u in state.playUnits && state.playUnits[u].event == draw.event ==> u in draw.playUnits)
  }

  /** The fixed part of a set of draws; no play unit id is used by two of them. */
  ghost predicate DrawsWired(draws: Draws) {
    && (forall e :: e in draws ==> draws[e].event == e && DrawWired(draws[e]))
    && (forall e, f, u {:trigger u in draws[e].playUnits, u in draws[f].playUnits} ::
      e in draws && f in draws && u in draws[e].playUnits && u in draws[f].playUnits ==> e == f)
  }

  ghost predicate Wired(state: TournamentState, draws: Draws) {
    && DrawsWired(draws)
    && (forall u :: u in state.playUnits <==> u in state.order)
    && (forall u :: u in state.playUnits ==> state.playUnits[u].id == u)
    && (forall e :: e in draws ==> Shares(state, draws[e]))
  }

  ghost predicate Slotted(draws: Draws)
    reads draws.Values
  {
    forall e :: e in draws ==> draws[e].slots.Keys == draws[e].playUnits.Keys
  }

  function RowAt(draw: Draw, u: UnitId): Row
    requires u in draw.playUnits && u in draw.slots
    reads draw, draw.playUnits[u]
  {
    Row(draw.slots[u].a, draw.slots[u].b, draw.playUnits[u].sideA, draw.playUnits[u].sideB)
  }

  function DrawRows(draw: Draw): (rows: map<UnitId, Row>)
    requires DrawValid(draw)
    reads draw, draw.playUnits.Values
    ensures rows.Keys == draw.playUnits.Keys
  {
    map u | u in draw.playUnits :: RowAt(draw, u)
  }

  function Restrict<V>(m: map<UnitId, V>, keys: set<UnitId>): map<UnitId, V> {
    map k | k in m && k in keys :: m[k]
  }

  // ---- operations -----------------------------------------------------------

  method RefreshPlayUnitSides(draw: Draw, u: UnitId)
    requires u in draw.playUnits && u in draw.slots
    modifies draw.playUnits[u]
    ensures RowAt(draw, u) == Resync(draw.slots[u].a, draw.slots[u].b, old(RowAt(draw, u)))
  {
    var pu := draw.playUnits[u];
    match draw.slots[u].a {
      case Entrant(p) => pu.sideA := [p];
      case Bye => pu.sideA := [];
      case Feeder(_, _) =>
    }
    match draw.slots[u].b {
      case Entrant(p) => pu.sideB := [p];
      case Bye => pu.sideB := [];
      case Feeder(_, _) =>
    }
  }

  /** Resolve the slots of `d` that wait for `u`. */
  method ResolveSlots(draw: Draw, u: UnitId, from: Row, r: Result, repair: bool, d: UnitId) returns (changed: bool)
    requires draw.slots.Keys == draw.playUnits.Keys && u in draw.playUnits && d in draw.playUnits
    requires draw.playUnits[u].event == draw.playUnits[d].event
    modifies draw, draw.playUnits[d]
    ensures d in draw.slots && draw.slots == old(draw.slots)[d := draw.slots[d]]
    ensures RowAt(draw, d) == Deliver(DrawGraph(draw), u, from, r, repair, d, old(RowAt(draw, d)))
    ensures changed <==> Awaits(DrawGraph(draw), u, repair, d, old(RowAt(draw, d)))
  {
    changed := false;
    if u in draw.playUnits[d].dependencies {
      var slots := draw.slots[d];
      if Points(slots.a, u) && (repair ==> draw.playUnits[d].sideA == []) {
        slots := slots.(a := Fed(from, r, slots.a.take));
        changed := true;
      }
      if Points(slots.b, u) && (repair ==> draw.playUnits[d].sideB == []) {
        slots := slots.(b := Fed(from, r, slots.b.take));
        changed := true;
      }
      if changed {
        draw.slots := draw.slots[d := slots];
        RefreshPlayUnitSides(draw, d);
      }
    }
  }

  method ResolveRow(draw: Draw, u: UnitId, from: Row, r: Result, repair: bool, d: UnitId) returns (changed: bool)
    requires DrawValid(draw) && u in draw.playUnits && d in draw.playUnits
    modifies draw, draw.playUnits[d]
    ensures DrawValid(draw)
    ensures DrawRows(draw) ==
      old(DrawRows(draw))[d := Deliver(DrawGraph(draw), u, from, r, repair, d, old(DrawRows(draw))[d])]
    ensures changed <==> Awaits(DrawGraph(draw), u, repair, d, old(DrawRows(draw))[d])
  {
    ghost var rows := DrawRows(draw);
    changed := ResolveSlots(draw, u, from, r, repair, d);
    forall v | v in draw.playUnits && v != d
      ensures RowAt(draw, v) == rows[v]
    {
      assert draw.playUnits[v].id != draw.playUnits[d].id;
    }
    MapsEqual(DrawRows(draw), rows[d := Deliver(DrawGraph(draw), u, from, r, repair, d, rows[d])]);
  }

  /** Feed the result `r` of `u` to every unit of the draw that waits for it, in their order. */
  method FeedInOrder(draw: Draw, u: UnitId, from: Row, r: Result, repair: bool) returns (resolved: seq<UnitId>)
    requires DrawValid(draw) && u in draw.playUnits
    modifies draw, draw.playUnits.Values
    ensures DrawValid(draw)
    ensures DrawRows(draw) == ReceivedBy(DrawGraph(draw), u, from, r, repair, old(DrawRows(draw)), draw.order)
    ensures resolved == Waiting(DrawGraph(draw), u, repair, old(DrawRows(draw)), draw.order)
  {
    ghost var g, before := DrawGraph(draw), DrawRows(draw);
    resolved := [];
    for i := 0 to |draw.order|
      invariant DrawValid(draw)
      invariant DrawRows(draw) == ReceivedBy(g, u, from, r, repair, before, draw.order[..i])
      invariant resolved == Waiting(g, u, repair, before, draw.order[..i])
    {
      var d := draw.order[i];
      FeedNext(g, u, from, r, repair, before, draw.order, i);
      var changed := ResolveRow(draw, u, from, r, repair, d);
      if changed {
        resolved := resolved + [d];
      }
    }
    assert draw.order[..|draw.order|] == draw.order;
  }

  lemma FedInOrder(g: Graph, u: UnitId, from: Row, r: Result, repair: bool, rows: map<UnitId, Row>, order: seq<UnitId>)
    requires NoDuplicates(order) && forall d :: d in rows <==> d in order
    ensures NoDuplicates(Waiting(g, u, repair, rows, order))
    ensures forall d :: d in Waiting(g, u, repair, rows, order) <==> d in rows && Awaits(g, u, repair, d, rows[d])
    ensures forall d :: d in rows ==> d in ReceivedBy(g, u, from, r, repair, rows, order)
    ensures forall d :: d in rows ==>
      ReceivedBy(g, u, from, r, repair, rows, order)[d] == Deliver(g, u, from, r, repair, d, rows[d])
  {
    WaitingUnits(g, u, repair, rows, order);
    forall d | d in rows
      ensures d in ReceivedBy(g, u, from, r, repair, rows, order)
      ensures ReceivedBy(g, u, from, r, repair, rows, order)[d] == Deliver(g, u, from, r, repair, d, rows[d])
    {
      ReceivedByAt(g, u, from, r, repair, rows, order, d);
    }
  }

  /** Feed the result `r` of `u` to every unit of the draw that waits for it. */
  method FeedForward(draw: Draw, u: UnitId, from: Row, r: Result, repair: bool) returns (resolved: seq<UnitId>)
    requires DrawValid(draw) && u in draw.playUnits
    modifies draw, draw.playUnits.Values
    ensures DrawValid(draw) && NoDuplicates(resolved)
    ensures forall d :: d in draw.playUnits ==>
      DrawRows(draw)[d] == Deliver(DrawGraph(draw), u, from, r, repair, d, old(DrawRows(draw))[d])
    ensures forall d :: d in resolved <==>
      d in draw.playUnits && Awaits(DrawGraph(draw), u, repair, d, old(DrawRows(draw))[d])
  {
    FedInOrder(DrawGraph(draw), u, from, r, repair, DrawRows(draw), draw.order);
    resolved := FeedInOrder(draw, u, from, r, repair);
  }

  lemma PrefixGrows(s: seq<UnitId>, i: nat)
    requires NoDuplicates(s) && i < |s|
    ensures s[..i + 1][..i] == s[..i] && s[..i + 1][i] == s[i]
    ensures s[i] !in s[..i] && NoDuplicates(s[..i])
  {
  }

  /** `rows` when the units in `done` have received the result of `u` in turn. */
  ghost function ReceivedBy(g: Graph, u: UnitId, from: Row, r: Result, repair: bool, rows: map<UnitId, Row>,
                            done: seq<UnitId>): map<UnitId, Row>
  {
    if done == [] then rows
    else
      var before, d := ReceivedBy(g, u, from, r, repair, rows, done[..|done| - 1]), done[|done| - 1];
      if d in before then before[d := Deliver(g, u, from, r, repair, d, before[d])] else before
  }

  lemma {:induction false} ReceivedByAt(g: Graph, u: UnitId, from: Row, r: Result, repair: bool,
                                        rows: map<UnitId, Row>, done: seq<UnitId>, d: UnitId)
    requires NoDuplicates(done) && d in rows
    ensures d in ReceivedBy(g, u, from, r, repair, rows, done)
    ensures ReceivedBy(g, u, from, r, repair, rows, done)[d] ==
      if d in done then Deliver(g, u, from, r, repair, d, rows[d]) else rows[d]
  {
    if done != [] {
      PrefixGrows(done, |done| - 1);
      assert done == done[..|done| - 1] + [done[|done| - 1]];
      ReceivedByAt(g, u, from, r, repair, rows, done[..|done| - 1], d);
    }
  }

  /** The units of `done` that wait for `u`, in their order. */
  ghost function Waiting(g: Graph, u: UnitId, repair: bool, rows: map<UnitId, Row>, done: seq<UnitId>): seq<UnitId> {
    if done == [] then []
    else
      var d := done[|done| - 1];
      Waiting(g, u, repair, rows, done[..|done| - 1]) +
      (if d in rows && Awaits(g, u, repair, d, rows[d]) then [d] else [])
  }

  lemma {:induction false} WaitingUnits(g: Graph, u: UnitId, repair: bool, rows: map<UnitId, Row>, done: seq<UnitId>)
    requires NoDuplicates(done)
    ensures NoDuplicates(Waiting(g, u, repair, rows, done))
    ensures forall d :: d in Waiting(g, u, repair, rows, done) <==>
      d in done && d in rows && Awaits(g, u, repair, d, rows[d])
  {
    if done != [] {
      PrefixGrows(done, |done| - 1);
      assert done == done[..|done| - 1] + [done[|done| - 1]];
      WaitingUnits(g, u, repair, rows, done[..|done| - 1]);
    }
  }

  lemma FeedNext(g: Graph, u: UnitId, from: Row, r: Result, repair: bool, rows: map<UnitId, Row>, order: seq<UnitId>,
                 i: nat)
    requires NoDuplicates(order) && i < |order| && order[i] in rows
    ensures var d, done := order[i], order[..i];
      && d in ReceivedBy(g, u, from, r, repair, rows, done)
      && ReceivedBy(g, u, from, r, repair, rows, done)[d] == rows[d]
      && ReceivedBy(g, u, from, r, repair, rows, order[..i + 1]) ==
         ReceivedBy(g, u, from, r, repair, rows, done)[d := Deliver(g, u, from, r, repair, d, rows[d])]
      && Waiting(g, u, repair, rows, order[..i + 1]) ==
         Waiting(g, u, repair, rows, done) + (if Awaits(g, u, repair, d, rows[d]) then [d] else [])
  {
    PrefixGrows(order, i);
    ReceivedByAt(g, u, from, r, repair, rows, order[..i], order[i]);
  }

  lemma RestrictUpdate<V>(m: map<UnitId, V>, u: UnitId, x: V, keys: set<UnitId>)
    ensures Restrict(m[u := x], keys) == if u in keys then Restrict(m, keys)[u := x] else Restrict(m, keys)
  {
  }

  // ---- several draws --------------------------------------------------------

  function UnitsOf(draws: Draws): set<PlayUnit> {
    set e, v | e in draws && v in draws[e].playUnits :: draws[e].playUnits[v]
  }

  ghost function AllRows(draws: Draws): (rows: map<EventId, map<UnitId, Row>>)
    requires DrawsWired(draws) && Slotted(draws)
    reads draws.Values, UnitsOf(draws)
    ensures rows.Keys == draws.Keys
  {
    map e | e in draws :: DrawRows(draws[e])
  }

  lemma DisjointDraws(draws: Draws, draw: Draw, e: EventId)
    requires DrawsWired(draws) && draw.event in draws && draws[draw.event] == draw
    requires e in draws && e != draw.event
    ensures draws[e] != draw
    ensures draws[e].playUnits.Values !! draw.playUnits.Values
  {
  }

  method FeedAmong(draws: Draws, draw: Draw, u: UnitId, from: Row, r: Result, repair: bool)
    returns (resolved: seq<UnitId>)
    requires DrawsWired(draws) && Slotted(draws)
    requires draw.event in draws && draws[draw.event] == draw && u in draw.playUnits
    modifies draw, draw.playUnits.Values
    ensures Slotted(draws)
    ensures forall e :: e in draws && e != draw.event ==> AllRows(draws)[e] == old(AllRows(draws))[e]
    ensures forall d :: d in draw.playUnits ==>
      AllRows(draws)[draw.event][d] ==
      Deliver(DrawGraph(draw), u, from, r, repair, d, old(AllRows(draws))[draw.event][d])
    ensures NoDuplicates(resolved)
    ensures forall d :: d in resolved <==>
      d in draw.playUnits && Awaits(DrawGraph(draw), u, repair, d, old(AllRows(draws))[draw.event][d])
  {
    resolved := FeedForward(draw, u, from, r, repair);
    forall e | e in draws && e != draw.event
      ensures DrawValid(draws[e]) && DrawRows(draws[e]) == old(DrawRows(draws[e]))
    {
      DisjointDraws(draws, draw, e);
      var other := draws[e];
      assert unchanged(other) && unchanged(other.playUnits.Values);
    }
  }

  /** The rows of all draws once the result `r` of `u`, a unit of `event`, has been fed forward. */
  ghost function Spread(draws: Draws, rows: map<EventId, map<UnitId, Row>>, event: EventId, u: UnitId, r: Result,
                        repair: bool)
    : (rows': map<EventId, map<UnitId, Row>>)
    requires event in draws && event in rows && u in rows[event]
    ensures rows'.Keys == rows.Keys
  {
    rows[event :=
      map d | d in rows[event] :: Deliver(DrawGraph(draws[event]), u, rows[event][u], r, repair, d, rows[event][d])]
  }

  /** A draw fed unit by unit, with the others unchanged, is `Spread`. */
  lemma SpreadFrom(draws: Draws, before: map<EventId, map<UnitId, Row>>, after: map<EventId, map<UnitId, Row>>,
                   event: EventId, u: UnitId, r: Result, repair: bool)
    requires event in draws && event in before && u in before[event] && after.Keys == before.Keys
    requires after[event].Keys == before[event].Keys
    requires forall d :: d in before[event] ==>
      after[event][d] == Deliver(DrawGraph(draws[event]), u, before[event][u], r, repair, d, before[event][d])
    requires forall e :: e in before && e != event ==> after[e] == before[e]
    ensures after == Spread(draws, before, event, u, r, repair)
  {
    MapsEqual(after[event], Spread(draws, before, event, u, r, repair)[event]);
    MapsEqual(after, Spread(draws, before, event, u, r, repair));
  }

  method FeedAll(draws: Draws, draw: Draw, u: UnitId, from: Row, r: Result, repair: bool)
    returns (resolved: seq<UnitId>)
    requires DrawsWired(draws) && Slotted(draws)
    requires draw.event in draws && draws[draw.event] == draw && u in draw.playUnits && from == RowAt(draw, u)
    modifies draw, draw.playUnits.Values
    ensures Slotted(draws)
    ensures AllRows(draws) == Spread(draws, old(AllRows(draws)), draw.event, u, r, repair)
    ensures NoDuplicates(resolved)
    ensures forall d :: d in resolved <==>
      d in draw.playUnits && Awaits(DrawGraph(draw), u, repair, d, old(AllRows(draws))[draw.event][d])
  {
    ghost var before := AllRows(draws);
    resolved := FeedAmong(draws, draw, u, from, r, repair);
    ghost var event, after := draw.event, AllRows(draws);
    SpreadFrom(draws, before, after, event, u, r, repair);
  }

  /** The abstract values of the draws, from their rows and the recorded results. */
  ghost function Assemble(draws: Draws, rows: map<EventId, map<UnitId, Row>>, results: map<UnitId, Result>)
    : (views: map<EventId, Facts>)
    requires rows.Keys == draws.Keys
    ensures views.Keys == draws.Keys
  {
    map e | e in draws :: Facts(rows[e], Restrict(results, draws[e].playUnits.Keys))
  }

  /** The abstract value of a session: for each draw its slots, sides and results. */
  ghost function Views(state: TournamentState, draws: Draws): (views: map<EventId, Facts>)
    requires DrawsWired(draws) && Slotted(draws)
    reads state`results, draws.Values, UnitsOf(draws)
    ensures views.Keys == draws.Keys
    ensures forall e :: e in draws ==> Fits(DrawGraph(draws[e]), views[e])
  {
    Assemble(draws, AllRows(draws), state.results)
  }

  /** `views` once `r` is recorded on the unit `u` of `event`. */
  ghost function Step(draws: Draws, views: map<EventId, Facts>, event: EventId, u: UnitId, r: Result)
    : (views': map<EventId, Facts>)
    requires event in draws && event in views && u in views[event].rows
    ensures views'.Keys == views.Keys
  {
    views[event := Propagate(DrawGraph(draws[event]), views[event], u, r)]
  }

  lemma RestrictedElsewhere(draws: Draws, u: UnitId, r: Result, results: map<UnitId, Result>, event: EventId,
                            e: EventId)
    requires DrawsWired(draws) && event in draws && u in draws[event].playUnits && e in draws
    ensures Restrict(results[u := r], draws[e].playUnits.Keys) ==
      if e == event then Restrict(results, draws[e].playUnits.Keys)[u := r]
      else Restrict(results, draws[e].playUnits.Keys)
  {
    RestrictUpdate(results, u, r, draws[e].playUnits.Keys);
    assert u in draws[e].playUnits <==> e == event;
  }

  lemma StepAssemblesAt(draws: Draws, event: EventId, u: UnitId, r: Result, results: map<UnitId, Result>,
                        rows: map<EventId, map<UnitId, Row>>, e: EventId)
    requires DrawsWired(draws) && rows.Keys == draws.Keys && e in draws
    requires event in draws && u in draws[event].playUnits && rows[event].Keys == draws[event].playUnits.Keys
    ensures Assemble(draws, Spread(draws, rows, event, u, r, false), results[u := r])[e] ==
      Step(draws, Assemble(draws, rows, results), event, u, r)[e]
  {
    RestrictedElsewhere(draws, u, r, results, event, e);
    if e == event {
      MapsEqual(Spread(draws, rows, event, u, r, false)[e],
        Step(draws, Assemble(draws, rows, results), event, u, r)[e].rows);
    }
  }

  lemma StepAssembles(draws: Draws, event: EventId, u: UnitId, r: Result, results: map<UnitId, Result>,
                      rows: map<EventId, map<UnitId, Row>>)
    requires DrawsWired(draws) && rows.Keys == draws.Keys
    requires event in draws && u in draws[event].playUnits && rows[event].Keys == draws[event].playUnits.Keys
    ensures Assemble(draws, Spread(draws, rows, event, u, r, false), results[u := r]) ==
      Step(draws, Assemble(draws, rows, results), event, u, r)
  {
    var left, right := Assemble(draws, Spread(draws, rows, event, u, r, false), results[u := r]),
      Step(draws, Assemble(draws, rows, results), event, u, r);
    forall e | e in left
      ensures left[e] == right[e]
    {
      StepAssemblesAt(draws, event, u, r, results, rows, e);
    }
    MapsEqual(left, right);
  }

  /** One recorded result: it is stored and fed forward, and walkovers it makes possible are left for the sweep. */
  method RecordAndPropagate(state: TournamentState, draws: Draws, draw: Draw, u: UnitId, r: Result)
    returns (resolved: seq<UnitId>)
    requires DrawsWired(draws) && Slotted(draws)
    requires draw.event in draws && draws[draw.event] == draw && u in draw.playUnits
    modifies state`results, draw, draw.playUnits.Values
    ensures Slotted(draws)
    ensures state.results == old(state.results)[u := r]
    ensures Views(state, draws) == Step(draws, old(Views(state, draws)), draw.event, u, r)
    ensures NoDuplicates(resolved)
    ensures forall d :: d in resolved <==>
      d in draw.playUnits && Feeds(DrawGraph(draw), u, d, old(Views(state, draws))[draw.event].rows[d])
  {
    ghost var rows, results := AllRows(draws), state.results;
    var from := RowAt(draw, u);
    state.results := state.results[u := r];
    label stored:
    assert unchanged(draws.Values) && unchanged(UnitsOf(draws));
    assert AllRows(draws) == rows;
    resolved := FeedAll(draws, draw, u, from, r, false);
    assert unchanged@stored(state) by { assert forall o :: o in draw.playUnits.Values ==> (o as object) != state; }
    StepAssembles(draws, draw.event, u, r, results, rows);
    assert Views(state, draws) == Assemble(draws, Spread(draws, rows, draw.event, u, r, false), results[u := r]);
  }

  // ---- the walkover sweep ---------------------------------------------------

  /** A registered unit that the sweep walks over. */
  predicate EligibleIn(state: TournamentState, draws: Draws, views: map<EventId, Facts>, u: UnitId) {
    && u in state.playUnits && state.playUnits[u].event in draws && state.playUnits[u].event in views
    && Eligible(DrawGraph(draws[state.playUnits[u].event]), views[state.playUnits[u].event], u)
  }

  /** A unit's own draw lists it, with the very same object. */
  lemma OwnDraw(state: TournamentState, draws: Draws, u: UnitId)
    requires Wired(state, draws) && u in state.playUnits && state.playUnits[u].event in draws
    ensures u in draws[state.playUnits[u].event].playUnits
    ensures draws[state.playUnits[u].event].playUnits[u] == state.playUnits[u]
    ensures draws[state.playUnits[u].event].event == state.playUnits[u].event
    ensures forall d :: d in state.playUnits[u].dependencies ==> d in draws[state.playUnits[u].event].playUnits
  {
    var draw := draws[state.playUnits[u].event];
    assert draw.event == state.playUnits[u].event && Shares(state, draw) && DrawWired(draw);
    assert u in draw.playUnits;
    forall d | d in state.playUnits[u].dependencies
      ensures d in draw.playUnits
    {
      var g := DrawGraph(draw);
      assert WellFormed(g) && u in g && d in g[u].deps;
      assert d in g;
    }
  }

  lemma EligibleHere(state: TournamentState, draws: Draws, u: UnitId)
    requires Wired(state, draws) && Slotted(draws) && u in state.playUnits && state.playUnits[u].event in draws
    ensures EligibleIn(state, draws, Views(state, draws), u) <==> WalksOver(state, draws, u)
    ensures u in Views(state, draws)[state.playUnits[u].event].rows
    ensures Views(state, draws)[state.playUnits[u].event].rows[u] ==
      RowAt(draws[state.playUnits[u].event], u)
  {
    OwnDraw(state, draws, u);
  }

  /** The sweep's test, on the objects. */
  predicate WalksOver(state: TournamentState, draws: Draws, u: UnitId)
    requires u in state.playUnits
    reads state, state.playUnits[u]
  {
    var pu := state.playUnits[u];
    && u !in state.results
    && (forall d | d in pu.dependencies :: d in state.results)
    && (pu.sideA == [] || pu.sideB == [])
    && pu.event in draws
  }

  /** Where a sweep ends: every draw settled. */
  ghost function SettleAll(draws: Draws, views: map<EventId, Facts>): (settled: map<EventId, Facts>)
    requires views.Keys == draws.Keys
    requires forall e :: e in draws ==> Fits(DrawGraph(draws[e]), views[e])
    ensures settled.Keys == draws.Keys
  {
    map e | e in draws :: Settling.Settle(DrawGraph(draws[e]), views[e])
  }

  function IdsOf(draws: Draws): set<UnitId> {
    set e, u | e in draws && u in draws[e].playUnits :: u
  }

  /** `touched` names exactly the units that differ between `start` and `views`. */
  ghost predicate Touched(draws: Draws, start: map<EventId, Facts>, views: map<EventId, Facts>, touched: seq<UnitId>)
    requires start.Keys == views.Keys == draws.Keys
  {
    && (forall u :: u in touched ==> u in IdsOf(draws))
    && (forall e, u :: e in draws && u in draws[e].playUnits ==>
      (u in touched <==> Changed(start[e], views[e], u)))
  }

  ghost predicate SweptAll(draws: Draws, start: map<EventId, Facts>, views: map<EventId, Facts>)
    requires start.Keys == views.Keys == draws.Keys
  {
    forall e :: e in draws ==> Swept(DrawGraph(draws[e]), start[e], views[e])
  }

  lemma SweptAllStep(draws: Draws, start: map<EventId, Facts>, views: map<EventId, Facts>, event: EventId, u: UnitId)
    requires start.Keys == views.Keys == draws.Keys && SweptAll(draws, start, views)
    requires event in draws && Eligible(DrawGraph(draws[event]), views[event], u)
    ensures SweptAll(draws, start, Step(draws, views, event, u, Walkover(views[event].rows[u])))
  {
    SweptStep(DrawGraph(draws[event]), start[event], views[event], u);
  }

  lemma TouchedStep(draws: Draws, start: map<EventId, Facts>, views: map<EventId, Facts>, touched: seq<UnitId>,
                    event: EventId, u: UnitId, r: Result, downstream: seq<UnitId>)
    requires DrawsWired(draws) && start.Keys == views.Keys == draws.Keys && Touched(draws, start, views, touched)
    requires event in draws && Fits(DrawGraph(draws[event]), views[event]) && Grown(start[event], views[event])
    requires u in draws[event].playUnits && u !in views[event].results
    requires forall d :: d in downstream <==>
      d in draws[event].playUnits && Feeds(DrawGraph(draws[event]), u, d, views[event].rows[d])
    ensures Touched(draws, start, Step(draws, views, event, u, r), touched + [u] + downstream)
  {
    var views', touched' := Step(draws, views, event, u, r), touched + [u] + downstream;
    forall e, v | e in draws && v in draws[e].playUnits
      ensures v in touched' <==> Changed(start[e], views'[e], v)
    {
      TouchedStepAt(draws, start, views, event, u, r, e, v);
    }
  }

  /** Whether `u` or a unit it feeds is `v`. */
  predicate Reaches(draws: Draws, views: map<EventId, Facts>, event: EventId, u: UnitId, v: UnitId)
    requires event in draws && event in views && views[event].rows.Keys == draws[event].playUnits.Keys
  {
    v == u || (v in draws[event].playUnits && Feeds(DrawGraph(draws[event]), u, v, views[event].rows[v]))
  }

  lemma TouchedStepAt(draws: Draws, start: map<EventId, Facts>, views: map<EventId, Facts>,
                      event: EventId, u: UnitId, r: Result, e: EventId, v: UnitId)
    requires DrawsWired(draws) && start.Keys == views.Keys == draws.Keys
    requires event in draws && Fits(DrawGraph(draws[event]), views[event]) && Grown(start[event], views[event])
    requires u in draws[event].playUnits && u !in views[event].results
    requires e in draws && v in draws[e].playUnits
    ensures Changed(start[e], Step(draws, views, event, u, r)[e], v) <==>
      Changed(start[e], views[e], v) || Reaches(draws, views, event, u, v)
  {
    if e == event {
      StepChanges(DrawGraph(draws[event]), start[event], views[event], u, r, v);
    } else {
      assert v !in draws[event].playUnits;
    }
  }

  function OpenIds(draws: Draws, results: map<UnitId, Result>): set<UnitId> {
    IdsOf(draws) - results.Keys
  }

  lemma OneLessOpen(draws: Draws, before: map<UnitId, Result>, after: map<UnitId, Result>, u: UnitId)
    requires u in OpenIds(draws, before) && after.Keys == before.Keys + {u}
    ensures |OpenIds(draws, after)| < |OpenIds(draws, before)|
  {
    assert OpenIds(draws, after) == OpenIds(draws, before) - {u};
  }

  /** Record the walkover of an eligible unit. */
  method WalkOver(state: TournamentState, draws: Draws, u: UnitId) returns (downstream: seq<UnitId>)
    requires Wired(state, draws) && Slotted(draws)
    requires EligibleIn(state, draws, Views(state, draws), u)
    modifies state`results, draws.Values, UnitsOf(draws)
    ensures Slotted(draws)
    ensures var e, views := state.playUnits[u].event, old(Views(state, draws));
            Views(state, draws) == Step(draws, views, e, u, Walkover(views[e].rows[u]))
    ensures var e, views := state.playUnits[u].event, old(Views(state, draws));
            forall d :: d in downstream <==>
              d in draws[e].playUnits && Feeds(DrawGraph(draws[e]), u, d, views[e].rows[d])
    ensures u in state.results && state.results == old(state.results)[u := state.results[u]]
  {
    var pu := state.playUnits[u];
    EligibleHere(state, draws, u);
    OwnDraw(state, draws, u);
    var winner := if pu.sideA == [] && pu.sideB == [] then Neither else if pu.sideA == [] then B else A;
    downstream := RecordAndPropagate(state, draws, draws[pu.event], u, Result(winner, true, None, None, None));
  }

  /** Only units of the registered draws got new results. */
  ghost predicate Added(draws: Draws, before: map<UnitId, Result>, after: map<UnitId, Result>) {
    && (forall v :: v in before ==> v in after && after[v] == before[v])
    && (forall v :: v in after ==> v in before || v in IdsOf(draws))
  }

  ghost predicate SweepInvariant(draws: Draws, start: map<EventId, Facts>, views: map<EventId, Facts>,
                                 touched: seq<UnitId>)
  {
    && start.Keys == views.Keys == draws.Keys
    && SweptAll(draws, start, views) && Touched(draws, start, views, touched)
  }

  lemma SweepStarts(draws: Draws, start: map<EventId, Facts>)
    requires DrawsWired(draws) && start.Keys == draws.Keys
    requires forall e :: e in draws ==> Fits(DrawGraph(draws[e]), start[e])
    ensures SweepInvariant(draws, start, start, [])
  {
  }

  lemma SweepInvariantStep(draws: Draws, start: map<EventId, Facts>, views: map<EventId, Facts>, touched: seq<UnitId>,
                           event: EventId, u: UnitId, downstream: seq<UnitId>)
    requires DrawsWired(draws) && SweepInvariant(draws, start, views, touched)
    requires event in draws && Eligible(DrawGraph(draws[event]), views[event], u)
    requires forall d :: d in downstream <==>
      d in draws[event].playUnits && Feeds(DrawGraph(draws[event]), u, d, views[event].rows[d])
    ensures SweepInvariant(draws, start, Step(draws, views, event, u, Walkover(views[event].rows[u])),
      touched + [u] + downstream)
  {
    SweptAllStep(draws, start, views, event, u);
    assert Swept(DrawGraph(draws[event]), start[event], views[event]);
    TouchedStep(draws, start, views, touched, event, u, Walkover(views[event].rows[u]), downstream);
  }

  /** Walk `u` over if it is eligible; returns the units this resolved. */
  method TryWalkover(state: TournamentState, draws: Draws, u: UnitId) returns (fired: bool, downstream: seq<UnitId>)
    requires Wired(state, draws) && Slotted(draws) && u in state.playUnits
    modifies state`results, draws.Values, UnitsOf(draws)
    ensures Slotted(draws)
    ensures fired == EligibleIn(state, draws, old(Views(state, draws)), u)
    ensures !fired ==> Views(state, draws) == old(Views(state, draws)) && state.results == old(state.results)
    ensures fired ==>
      var e, views := state.playUnits[u].event, old(Views(state, draws));
      && Views(state, draws) == Step(draws, views, e, u, Walkover(views[e].rows[u]))
      && (forall d :: d in downstream <==>
        d in draws[e].playUnits && Feeds(DrawGraph(draws[e]), u, d, views[e].rows[d]))
      && u in OpenIds(draws, old(state.results))
      && u in state.results && state.results == old(state.results)[u := state.results[u]]
  {
    if state.playUnits[u].event in draws {
      EligibleHere(state, draws, u);
      OwnDraw(state, draws, u);
    }
    fired := WalksOver(state, draws, u);
    downstream := [];
    if fired {
      downstream := WalkOver(state, draws, u);
    }
  }

  lemma AddedStep(draws: Draws, before: map<UnitId, Result>, after: map<UnitId, Result>, u: UnitId)
    requires u in OpenIds(draws, before) && u in after && after == before[u := after[u]]
    ensures Added(draws, before, after) && |OpenIds(draws, after)| < |OpenIds(draws, before)|
  {
    OneLessOpen(draws, before, after, u);
  }

  lemma AddedTransitive(draws: Draws, a: map<UnitId, Result>, b: map<UnitId, Result>, c: map<UnitId, Result>)
    requires Added(draws, a, b) && Added(draws, b, c)
    ensures Added(draws, a, c)
  {
  }

  /** `TryWalkover` as a step of a sweep that started at `start`. */
  method SweepOne(state: TournamentState, draws: Draws, u: UnitId,
                  ghost start: map<EventId, Facts>, ghost views: map<EventId, Facts>, touched: seq<UnitId>)
    returns (fired: bool, touched': seq<UnitId>, ghost views': map<EventId, Facts>)
    requires Wired(state, draws) && Slotted(draws) && u in state.playUnits
    requires views == Views(state, draws) && SweepInvariant(draws, start, views, touched)
    modifies state`results, draws.Values, UnitsOf(draws)
    ensures Slotted(draws) && views' == Views(state, draws)
    ensures SweepInvariant(draws, start, views', touched')
    ensures fired == EligibleIn(state, draws, views, u)
    ensures !fired ==> views' == views && touched' == touched && state.results == old(state.results)
    ensures Added(draws, old(state.results), state.results)
    ensures fired ==> |OpenIds(draws, state.results)| < |OpenIds(draws, old(state.results))|
  {
    var downstream;
    fired, downstream := TryWalkover(state, draws, u);
    touched', views' := touched, views;
    if fired {
      ghost var event := state.playUnits[u].event;
      AddedStep(draws, old(state.results), state.results, u);
      SweepInvariantStep(draws, start, views, touched, event, u, downstream);
      views' := Step(draws, views, event, u, Walkover(views[event].rows[u]));
      touched' := touched + [u] + downstream;
    }
  }

  /** No registered unit among the first `n` of the state's order is eligible. */
  ghost predicate NoneEligible(state: TournamentState, draws: Draws, views: map<EventId, Facts>, n: nat)
    requires n <= |state.order|
  {
    forall j :: 0 <= j < n ==> !EligibleIn(state, draws, views, state.order[j])
  }

  lemma OneMoreNotEligible(state: TournamentState, draws: Draws, views: map<EventId, Facts>, n: nat)
    requires n < |state.order| && NoneEligible(state, draws, views, n)
    requires !EligibleIn(state, draws, views, state.order[n])
    ensures NoneEligible(state, draws, views, n + 1)
  {
  }

  lemma PassWithoutChange(state: TournamentState, draws: Draws, start: map<EventId, Facts>, views: map<EventId, Facts>)
    requires Wired(state, draws) && start.Keys == views.Keys == draws.Keys && SweptAll(draws, start, views)
    requires NoneEligible(state, draws, views, |state.order|)
    ensures forall e :: e in draws ==> Fits(DrawGraph(draws[e]), start[e])
    ensures views == SettleAll(draws, start)
  {
    forall e | e in draws
      ensures Swept(DrawGraph(draws[e]), start[e], views[e]) && Stable(DrawGraph(draws[e]), views[e])
    {
      assert Swept(DrawGraph(draws[e]), start[e], views[e]);
      forall u
        ensures !Eligible(DrawGraph(draws[e]), views[e], u)
      {
        if u in draws[e].playUnits {
          assert draws[e].event == e && DrawWired(draws[e]) && Shares(state, draws[e]);
          assert u in state.order;
          assert !EligibleIn(state, draws, views, u);
        }
      }
    }
    MapsEqual(views, SettleAll(draws, start));
  }

  /** One pass of the sweep over all units of the state. */
  method SweepPass(state: TournamentState, draws: Draws, ghost start: map<EventId, Facts>, touched0: seq<UnitId>)
    returns (changed: bool, touched: seq<UnitId>)
    requires Wired(state, draws) && Slotted(draws)
    requires SweepInvariant(draws, start, Views(state, draws), touched0)
    modifies state`results, draws.Values, UnitsOf(draws)
    ensures Slotted(draws)
    ensures SweepInvariant(draws, start, Views(state, draws), touched)
    ensures Added(draws, old(state.results), state.results)
    ensures changed ==> |OpenIds(draws, state.results)| < |OpenIds(draws, old(state.results))|
    ensures !changed ==> state.results == old(state.results)
    ensures !changed ==> NoneEligible(state, draws, Views(state, draws), |state.order|)
  {
    changed, touched := false, touched0;
    ghost var views := Views(state, draws);
    for i := 0 to |state.order|
      invariant Slotted(draws) && views == Views(state, draws)
      invariant SweepInvariant(draws, start, views, touched)
      invariant Added(draws, old(state.results), state.results)
      invariant changed ==> |OpenIds(draws, state.results)| < |OpenIds(draws, old(state.results))|
      invariant !changed ==> state.results == old(state.results)
      invariant !changed ==> NoneEligible(state, draws, views, i)
    {
      ghost var results, before := state.results, views;
      var fired;
      fired, touched, views := SweepOne(state, draws, state.order[i], start, views, touched);
      AddedTransitive(draws, old(state.results), results, state.results);
      if fired {
        changed := true;
      } else if !changed {
        OneMoreNotEligible(state, draws, before, i);
      }
    }
  }

  /** Walk over every eligible unit of the registered draws, until none is left. */
  method SweepWalkovers(state: TournamentState, draws: Draws) returns (touched: seq<UnitId>)
    requires Wired(state, draws) && Slotted(draws)
    modifies state`results, draws.Values, UnitsOf(draws)
    ensures Slotted(draws)
    ensures Views(state, draws) == SettleAll(draws, old(Views(state, draws)))
    ensures SweepInvariant(draws, old(Views(state, draws)), Views(state, draws), touched)
    ensures Added(draws, old(state.results), state.results)
  {
    touched := [];
    ghost var start := Views(state, draws);
    SweepStarts(draws, start);
    var changed := true;
    while changed
      invariant Slotted(draws)
      invariant SweepInvariant(draws, start, Views(state, draws), touched)
      invariant Added(draws, old(state.results), state.results)
      invariant !changed ==> NoneEligible(state, draws, Views(state, draws), |state.order|)
      decreases |OpenIds(draws, state.results)|, changed
    {
      changed, touched := SweepPass(state, draws, start, touched);
    }
    PassWithoutChange(state, draws, start, Views(state, draws));
  }

  // ---- recording a result ---------------------------------------------------

  /** `affected` names the units whose slots or sides changed and those, other than
      the recorded one, that got a result. */
  ghost predicate Affects(draws: Draws, start: map<EventId, Facts>, end: map<EventId, Facts>, u: UnitId,
                          affected: seq<UnitId>)
    requires start.Keys == end.Keys == draws.Keys
  {
    && NoDuplicates(affected) && (forall v :: v in affected ==> v in IdsOf(draws))
    && (forall e, v :: e in draws && v in draws[e].playUnits ==>
      (v in affected <==> RowChanged(start[e], end[e], v) || (v != u && Resulted(start[e], end[e], v))))
  }

  lemma AffectsAt(draws: Draws, start: map<EventId, Facts>, end: map<EventId, Facts>,
                  event: EventId, u: UnitId, r: Result, e: EventId, v: UnitId)
    requires DrawsWired(draws) && start.Keys == end.Keys == draws.Keys && event in draws
    requires Fits(DrawGraph(draws[event]), start[event]) && u in draws[event].playUnits && u !in start[event].results
    requires e in draws && v in draws[e].playUnits && Grown(Step(draws, start, event, u, r)[e], end[e])
    ensures RowChanged(start[e], end[e], v) || (v != u && Resulted(start[e], end[e], v)) <==>
      (e == event && Feeds(DrawGraph(draws[e]), u, v, start[e].rows[v])) ||
      Changed(Step(draws, start, event, u, r)[e], end[e], v)
  {
    if e == event {
      PropagateIsGrown(DrawGraph(draws[e]), start[e], u, r);
      ChangesAddUp(start[e], Step(draws, start, event, u, r)[e], end[e], v);
      PropagateGrows(DrawGraph(draws[e]), start[e], u, r, v);
    } else {
      assert v !in draws[event].playUnits;
    }
  }

  lemma AffectsAll(draws: Draws, start: map<EventId, Facts>, end: map<EventId, Facts>,
                   event: EventId, u: UnitId, r: Result, resolved: seq<UnitId>, swept: seq<UnitId>,
                   affected: seq<UnitId>)
    requires DrawsWired(draws) && start.Keys == end.Keys == draws.Keys && event in draws
    requires Fits(DrawGraph(draws[event]), start[event]) && u in draws[event].playUnits && u !in start[event].results
    requires forall d :: d in resolved <==>
      d in draws[event].playUnits && Feeds(DrawGraph(draws[event]), u, d, start[event].rows[d])
    requires SweepInvariant(draws, Step(draws, start, event, u, r), end, swept)
    requires NoDuplicates(affected) && forall v :: v in affected <==> v in resolved || v in swept
    ensures Affects(draws, start, end, u, affected)
  {
    forall e, v | e in draws && v in draws[e].playUnits
      ensures v in affected <==> RowChanged(start[e], end[e], v) || (v != u && Resulted(start[e], end[e], v))
    {
      assert Swept(DrawGraph(draws[e]), Step(draws, start, event, u, r)[e], end[e]);
      AffectsAt(draws, start, end, event, u, r, e, v);
      assert v in resolved ==> e == event;
    }
  }

  /** The value of a session after recording `r` on `u`. */
  ghost function Recorded(draws: Draws, views: map<EventId, Facts>, event: EventId, u: UnitId,
                          r: Result): (views': map<EventId, Facts>)
    requires views.Keys == draws.Keys && event in draws && u in views[event].rows
    requires forall e :: e in draws ==> Fits(DrawGraph(draws[e]), views[e])
    ensures views'.Keys == draws.Keys
  {
    Settling.PropagateFits(DrawGraph(draws[event]), views[event], u, r);
    SettleAll(draws, Step(draws, views, event, u, r))
  }

  /** Store a result, feed it forward and sweep. */
  method RecordAndSweep(state: TournamentState, draws: Draws, u: UnitId, r: Result)
    returns (resolved: seq<UnitId>, swept: seq<UnitId>)
    requires Wired(state, draws) && Slotted(draws)
    requires u in state.playUnits && state.playUnits[u].event in draws && u !in state.results
    modifies state`results, draws.Values, UnitsOf(draws)
    ensures Slotted(draws)
    ensures NoDuplicates(resolved)
    ensures var e, views := state.playUnits[u].event, old(Views(state, draws));
      && u in draws[e].playUnits && u !in views[e].results
      && (forall d :: d in resolved <==>
        d in draws[e].playUnits && Feeds(DrawGraph(draws[e]), u, d, views[e].rows[d]))
      && Views(state, draws) == Recorded(draws, views, e, u, r)
      && SweepInvariant(draws, Step(draws, views, e, u, r), Views(state, draws), swept)
    ensures Added(draws, old(state.results)[u := r], state.results)
  {
    EligibleHere(state, draws, u);
    OwnDraw(state, draws, u);
    resolved := RecordAndPropagate(state, draws, draws[state.playUnits[u].event], u, r);
    swept := SweepWalkovers(state, draws);
  }

  /** Why a result cannot be recorded, in the order the checks are made. */
  function Refusal(state: TournamentState, draws: Draws, u: UnitId, r: Result): Option<Error>
    reads state, if u in state.playUnits then {state.playUnits[u]} else {}
  {
    if u !in state.playUnits then Some(UnknownPlayUnit)
    else if state.playUnits[u].event !in draws then Some(NoDraw)
    else if u in state.results then Some(AlreadyRecorded)
    else if r.winner == A && state.playUnits[u].sideA == [] then Some(EmptySide)
    else if r.winner == B && state.playUnits[u].sideB == [] then Some(EmptySide)
    else None
  }

  /** `merged` lists the ids of both lists, each once. */
  ghost predicate Merged(resolved: seq<UnitId>, swept: seq<UnitId>, merged: seq<UnitId>) {
    NoDuplicates(merged) && forall v :: v in merged <==> v in resolved || v in swept
  }

  lemma MergedOneMore(resolved: seq<UnitId>, swept: seq<UnitId>, i: nat, merged: seq<UnitId>)
    requires i < |swept| && Merged(resolved, swept[..i], merged)
    ensures Merged(resolved, swept[..i + 1], if swept[i] in merged then merged else merged + [swept[i]])
  {
    assert swept[..i + 1] == swept[..i] + [swept[i]];
  }

  lemma MergedAll(resolved: seq<UnitId>, swept: seq<UnitId>, merged: seq<UnitId>)
    requires Merged(resolved, swept[..|swept|], merged)
    ensures Merged(resolved, swept, merged)
  {
    assert swept[..|swept|] == swept;
  }

  method RecordAccepted(state: TournamentState, draws: Draws, u: UnitId, r: Result) returns (affected: seq<UnitId>)
    requires Wired(state, draws) && Slotted(draws)
    requires u in state.playUnits && state.playUnits[u].event in draws && u !in state.results
    modifies state`results, draws.Values, UnitsOf(draws)
    ensures Slotted(draws)
    ensures u in old(Views(state, draws))[state.playUnits[u].event].rows
    ensures Views(state, draws) == Recorded(draws, old(Views(state, draws)), state.playUnits[u].event, u, r)
    ensures Affects(draws, old(Views(state, draws)), Views(state, draws), u, affected)
    ensures Added(draws, old(state.results)[u := r], state.results)
  {
    ghost var views := Views(state, draws);
    var resolved, swept := RecordAndSweep(state, draws, u, r);
    affected := resolved;
    ghost var end, results := Views(state, draws), state.results;
    for i := 0 to |swept|
      invariant Slotted(draws) && Views(state, draws) == end && state.results == results
      invariant Merged(resolved, swept[..i], affected)
    {
      MergedOneMore(resolved, swept, i, affected);
      if swept[i] !in affected {
        affected := affected + [swept[i]];
      }
    }
    MergedAll(resolved, swept, affected);
    AffectsAll(draws, views, end, state.playUnits[u].event, u, r, resolved, swept, affected);
  }

  /** Store a result, feed it forward and sweep; returns the units this changed. */
  method RecordResult(state: TournamentState, draws: Draws, u: UnitId, r: Result)
    returns (outcome: Outcome<seq<UnitId>>)
    requires Wired(state, draws) && Slotted(draws)
    modifies state`results, draws.Values, UnitsOf(draws)
    ensures Slotted(draws)
    ensures match old(Refusal(state, draws, u, r))
            case Some(error) =>
              && outcome == Failed(error)
              && Views(state, draws) == old(Views(state, draws)) && state.results == old(state.results)
            case None =>
              var e, views := state.playUnits[u].event, old(Views(state, draws));
              && outcome.Ok? && u in views[e].rows
              && Views(state, draws) == Recorded(draws, views, e, u, r)
              && Affects(draws, views, Views(state, draws), u, outcome.value)
              && Added(draws, old(state.results)[u := r], state.results)
  {
    if u !in state.playUnits {
      return Failed(UnknownPlayUnit);
    }
    var pu := state.playUnits[u];
    if pu.event !in draws {
      return Failed(NoDraw);
    }
    if u in state.results {
      return Failed(AlreadyRecorded);
    }
    if r.winner == A && pu.sideA == [] {
      return Failed(EmptySide);
    }
    if r.winner == B && pu.sideB == [] {
      return Failed(EmptySide);
    }
    var affected := RecordAccepted(state, draws, u, r);
    return Ok(affected);
  }
}
