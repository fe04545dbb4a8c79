/** The bracket as data: play units, slots, sides and results, and the one step
    every operation is made of, recording a result and feeding it forward.

    A `Facts` value holds what the engine mutates: for each play unit the two
    slots of the draw and the two sides of the unit, and the recorded results.
    `Graph` holds what never changes: event, dependencies and round of a unit. */
module Bracket {

  datatype Option<+T> = None | Some(value: T)

  type UnitId = string
  type EventId = string
  type ParticipantId = string

  /** A side is a list of participant ids; the empty list stands for an absent side. */
  type Side = seq<ParticipantId>

  const BYE: ParticipantId := "__BYE__"

  datatype Take = Winner | Loser

  /** Exactly one of a participant, a bye placeholder and a feed from another unit. */
  datatype Slot = Entrant(id: ParticipantId) | Bye | Feeder(unit: UnitId, take: Take)

  datatype WinnerSide = A | B | Neither

  datatype Result = Result(
    winner: WinnerSide,
    walkover: bool,
    reason: Option<string>,
    finishedAtSlot: Option<int>,
    score: Option<string>)

  datatype Node = Node(event: EventId, deps: seq<UnitId>, round: nat)
  type Graph = map<UnitId, Node>

  datatype Row = Row(slotA: Slot, slotB: Slot, sideA: Side, sideB: Side)
  datatype Facts = Facts(rows: map<UnitId, Row>, results: map<UnitId, Result>)

  ghost predicate NoDuplicates(s: seq<UnitId>) {
    forall i, j :: 0 <= i < j < |s| ==> s[i] != s[j]
  }

  /** Dependencies stay inside the draw and point to strictly earlier rounds. */
  ghost predicate WellFormed(g: Graph) {
    forall u, d {:trigger d in g[u].deps} :: u in g && d in g[u].deps ==>
      d in g && g[d].event == g[u].event && g[d].round < g[u].round
  }

  ghost predicate Fits(g: Graph, st: Facts) {
    WellFormed(g) && st.rows.Keys == g.Keys && st.results.Keys <= g.Keys
  }

  // ---- what a result feeds forward ------------------------------------------

  /** A walkover, a retirement or a forfeit leaves nobody for a loser feed. */
  predicate LoserCannotContinue(r: Result) {
    r.walkover || r.reason == Some("retired") || r.reason == Some("forfeit")
  }

  function Head(s: Side): Option<ParticipantId> {
    if s == [] then None else Some(s[0])
  }

  function WinnerOf(row: Row, r: Result): Option<ParticipantId> {
    match r.winner
    case A => Head(row.sideA)
    case B => Head(row.sideB)
    case Neither => None
  }

  function LoserOf(row: Row, r: Result): Option<ParticipantId> {
    if LoserCannotContinue(r) then None else
      match r.winner
      case A => Head(row.sideB)
      case B => Head(row.sideA)
      case Neither => None
  }

  /** The slot of a participant id, with the bye sentinel recognised. */
  function OfParticipant(id: ParticipantId): Slot {
    if id == BYE then Bye else Entrant(id)
  }

  /** An absent (or empty) id becomes a bye. */
  function OrBye(who: Option<ParticipantId>): Slot {
    if who.None? || who.value == "" then Bye else OfParticipant(who.value)
  }

  /** The slot that a feed `take` of a unit with row `row` and result `r` resolves to. */
  function Fed(row: Row, r: Result, take: Take): (s: Slot)
    ensures !s.Feeder?
  {
    OrBye(if take.Winner? then WinnerOf(row, r) else LoserOf(row, r))
  }

  predicate Points(s: Slot, u: UnitId) {
    s.Feeder? && s.unit == u
  }

  function Rewire(s: Slot, u: UnitId, row: Row, r: Result): Slot {
    if Points(s, u) then Fed(row, r, s.take) else s
  }

  /** The side a slot imposes; a feeder slot leaves the side alone. */
  function Refresh(s: Slot, side: Side): Side {
    match s
    case Entrant(p) => [p]
    case Bye => []
    case Feeder(_, _) => side
  }

  function SideOf(s: Slot): Side {
    Refresh(s, [])
  }

  function Resync(a: Slot, b: Slot, row: Row): Row {
    Row(a, b, Refresh(a, row.sideA), Refresh(b, row.sideB))
  }

  // ---- the step -------------------------------------------------------------

  /** `u` is listed as a dependency of `d` in the same draw and a slot of `d` points to it. */
  predicate Feeds(g: Graph, u: UnitId, d: UnitId, row: Row) {
    && u in g && d in g
    && g[d].event == g[u].event && u in g[d].deps
    && (Points(row.slotA, u) || Points(row.slotB, u))
  }

  /** The row of `d` once the result `r` of `u`, whose row is `from`, reaches it. */
  function Receive(g: Graph, u: UnitId, from: Row, r: Result, d: UnitId, row: Row): Row {
    if Feeds(g, u, d, row)
    then Resync(Rewire(row.slotA, u, from, r), Rewire(row.slotB, u, from, r), row)
    else row
  }

  /** Record `r` on `u` and rewrite the slots it feeds; no walkover sweep. */
  function Propagate(g: Graph, st: Facts, u: UnitId, r: Result): (st': Facts)
    requires u in st.rows
    ensures st'.rows.Keys == st.rows.Keys
  {
    Facts(map d | d in st.rows :: Receive(g, u, st.rows[u], r, d, st.rows[d]), st.results[u := r])
  }

  predicate Ready(g: Graph, st: Facts, u: UnitId) {
    u in g && forall d | d in g[u].deps :: d in st.results
  }

  predicate OneSided(row: Row) {
    row.sideA == [] || row.sideB == []
  }

  /** A unit the sweep walks over: no result, all dependencies in, an empty side. */
  predicate Eligible(g: Graph, st: Facts, u: UnitId) {
    && u in st.rows && u !in st.results && Ready(g, st, u) && OneSided(st.rows[u])
  }

  /** The result a sweep records. */
  function Walkover(row: Row): Result {
    Result(
      if row.sideA == [] && row.sideB == [] then Neither else if row.sideA == [] then B else A,
      true, None, None, None)
  }

  function Fire(g: Graph, st: Facts, u: UnitId): Facts
    requires u in st.rows
  {
    Propagate(g, st, u, Walkover(st.rows[u]))
  }

  ghost predicate Stable(g: Graph, st: Facts) {
    forall u :: !Eligible(g, st, u)
  }

  /** A match an operator may record: both participants are known. */
  predicate Playable(g: Graph, st: Facts, u: UnitId) {
    u in g && u in st.rows && u !in st.results && !OneSided(st.rows[u])
  }

  /** Firing a unit never touches a unit that does not depend on it. */
  lemma NotFed(g: Graph, st: Facts, u: UnitId, r: Result, v: UnitId)
    requires Fits(g, st) && u in g && v in g
    requires u !in g[v].deps
    ensures Propagate(g, st, u, r).rows[v] == st.rows[v]
  {
  }

  lemma MapsEqual<K, V>(m: map<K, V>, n: map<K, V>)
    requires m.Keys == n.Keys && forall k :: k in m ==> m[k] == n[k]
    ensures m == n
  {
  }
}
