/** Scheduling in waves: each solve places the matches that are ready, after everything placed so far.
    The engine is taken at its word: it keeps to availability and books no court and no player twice
    within a solve. That waves stay apart is proved from what the adapter asks of it. */
module Waves {
  import opened Bracket
  import Courts
  import opened Intervals
  import opened Availability

  /** A match to be placed, and its players on both sides. */
  datatype Match = Match(duration: nat, players: set<PlayerId>)

  /** A placed match. `wave` counts the solves before the one that placed it. */
  datatype Assigned = Assigned(game: Match, start: int, court: nat, actualEnd: Option<int>, wave: nat)

  datatype Config = Config(base: int, rest: int, total: int, courts: nat)

  datatype Floor = Floor(placed: map<UnitId, Assigned>, waves: nat)

  function PlannedEnd(a: Assigned): int {
    a.start + a.game.duration
  }

  /** The recorded end of a match, the planned one as long as none is recorded. */
  function Finish(a: Assigned): int {
    if a.actualEnd.Some? then a.actualEnd.value else PlannedEnd(a)
  }

  // ---- what is asked of the engine ------------------------------------------

  datatype Spot = Spot(start: int, court: nat)

  datatype Problem = Problem(matches: map<UnitId, Match>, availability: map<PlayerId, seq<Block>>)

  /** By `slot` the match has ended: as recorded, or else as planned. */
  predicate EndedBy(a: Assigned, slot: int) {
    && (a.actualEnd.Some? ==> a.actualEnd.value <= slot)
    && (a.actualEnd.None? ==> a.start + a.game.duration <= slot)
  }

  /** By `slot` everything placed has ended, and had its rest. */
  ghost predicate AllOver(config: Config, placed: map<UnitId, Assigned>, slot: int) {
    forall u :: u in placed ==> EndedBy(placed[u], slot) && EndedBy(placed[u], slot - config.rest)
  }

  /** The window of the next round starts at its base slot, or as soon as everything placed is over. */
  ghost predicate NextSlot(config: Config, placed: map<UnitId, Assigned>, slot: int) {
    if placed == map[] then slot == config.base
    else AllOver(config, placed, slot) && !AllOver(config, placed, slot - 1)
  }

  /** The next slot on the ends of the matches. */
  lemma NextSlotIsLatest(config: Config, placed: map<UnitId, Assigned>, slot: int)
    requires placed != map[]
    ensures NextSlot(config, placed, slot) <==>
      && (forall u :: u in placed ==> Finish(placed[u]) + Courts.Max(0, config.rest) <= slot)
      && exists u :: u in placed && Finish(placed[u]) + Courts.Max(0, config.rest) == slot
  {
    forall x
      ensures AllOver(config, placed, x) <==>
        forall u :: u in placed ==> Finish(placed[u]) + Courts.Max(0, config.rest) <= x
    {
    }
  }

  /** Matches take time and have players; players have windows inside the round, or, if the round has
      no slots, none, which does not limit them. */
  ghost predicate AsksFor(config: Config, slot: int, problem: Problem) {
    && (forall u :: u in problem.matches ==> ProperMatch(problem, problem.matches[u]))
    && forall p :: p in problem.availability ==> RoundWindows(slot, config.total, problem.availability[p])
  }

  predicate ProperMatch(problem: Problem, m: Match) {
    m.duration >= 1 && m.players != {} && m.players <= problem.availability.Keys
  }

  ghost predicate RoundWindows(slot: int, total: int, windows: seq<Block>) {
    if slot < 0 || total <= slot then windows == []
    else windows != [] && forall w :: w in windows ==> Inside(w, Block(slot, total))
  }

  /** The engine takes a player without windows as free all day. */
  ghost predicate Admits(windows: seq<Block>, start: int, end: int) {
    windows == [] || exists w :: w in windows && w.start <= start && end <= w.end
  }

  predicate Contend(m: Match, court: nat, n: Match, other: nat) {
    court == other || m.players * n.players != {}
  }

  predicate DoNotMeet(m: Match, spot: Spot, n: Match, other: Spot) {
    Contend(m, spot.court, n, other.court) ==>
      Disjoint(Block(spot.start, spot.start + m.duration), Block(other.start, other.start + n.duration))
  }

  ghost predicate SolvedMatch(config: Config, problem: Problem, m: Match, spot: Spot) {
    && 0 <= spot.start && spot.start + m.duration <= config.total && 1 <= spot.court <= config.courts
    && forall p :: p in m.players && p in problem.availability ==>
      Admits(problem.availability[p], spot.start, spot.start + m.duration)
  }

  /** What the engine promises of a solution. */
  ghost predicate Solves(config: Config, problem: Problem, solution: map<UnitId, Spot>) {
    && solution.Keys == problem.matches.Keys
    && (forall u :: u in solution ==> SolvedMatch(config, problem, problem.matches[u], solution[u]))
    && forall u, v :: u in solution && v in solution && u != v ==>
      DoNotMeet(problem.matches[u], solution[u], problem.matches[v], solution[v])
  }

  // ---- steps ----------------------------------------------------------------

  /** A solved wave, or the clock of a placed match set or reset. */
  datatype Step =
    | Solved(slot: int, problem: Problem, solution: map<UnitId, Spot>)
    | Clock(unit: UnitId, end: Option<int>)

  function WithWave(floor: Floor, problem: Problem, solution: map<UnitId, Spot>): (floor': Floor)
    requires solution.Keys == problem.matches.Keys
    ensures floor'.placed.Keys == floor.placed.Keys + solution.Keys
  {
    Floor(
      map u | u in floor.placed.Keys + solution.Keys ::
        if u in solution then Assigned(problem.matches[u], solution[u].start, solution[u].court, None, floor.waves)
        else floor.placed[u],
      floor.waves + 1)
  }

  function WithClock(floor: Floor, u: UnitId, end: Option<int>): (floor': Floor)
    requires u in floor.placed
    ensures floor'.placed.Keys == floor.placed.Keys
  {
    floor.(placed := floor.placed[u := floor.placed[u].(actualEnd := end)])
  }

  /** Ready matches are not placed yet, and solves are asked for from the next slot. */
  ghost predicate Legal(config: Config, floor: Floor, step: Step) {
    match step
    case Solved(slot, problem, solution) =>
      && floor.placed.Keys !! problem.matches.Keys && problem.matches != map[]
      && NextSlot(config, floor.placed, slot) && AsksFor(config, slot, problem)
      && Solves(config, problem, solution)
    case Clock(u, _) => u in floor.placed
  }

  function After(floor: Floor, step: Step): Floor
    requires step.Solved? ==> step.solution.Keys == step.problem.matches.Keys
    requires step.Clock? ==> step.unit in floor.placed
  {
    match step
    case Solved(_, problem, solution) => WithWave(floor, problem, solution)
    case Clock(u, end) => WithClock(floor, u, end)
  }

  // ---- waves apart ----------------------------------------------------------

  /** `b` has to wait for `a`: it belongs to a later wave, or comes later in the same wave on the same
      court or with a common player. */
  predicate Follows(a: Assigned, b: Assigned) {
    a.wave < b.wave || (a.wave == b.wave && Contend(a.game, a.court, b.game, b.court) && a.start < b.start)
  }

  /** The rest between two waves. */
  function Gap(config: Config, a: Assigned, b: Assigned): int {
    if a.wave < b.wave then Courts.Max(0, config.rest) else 0
  }

  predicate Waits(config: Config, end: int, a: Assigned, b: Assigned) {
    Follows(a, b) ==> end + Gap(config, a, b) <= b.start
  }

  /** Whatever has to wait for a match starts after it has ended, and rested. */
  ghost predicate Apart(config: Config, floor: Floor) {
    forall u, v :: u in floor.placed && v in floor.placed ==>
      Waits(config, Finish(floor.placed[u]), floor.placed[u], floor.placed[v])
  }

  predicate SharePlayer(m: Match, n: Match) {
    exists p | p in m.players :: p in n.players
  }

  lemma ContendMeans(m: Match, court: nat, n: Match, other: nat)
    ensures Contend(m, court, n, other) <==> court == other || SharePlayer(m, n)
  {
    if SharePlayer(m, n) {
      var p :| p in m.players && p in n.players;
      assert p in m.players * n.players;
    }
    if m.players * n.players != {} {
      var p :| p in m.players * n.players;
      assert p in m.players && p in n.players;
    }
  }

  /** What waves that stay apart are: a match is over, and rested, before any match of a later wave, and over
      before what follows it in its wave on its court or with one of its players. */
  lemma ApartInPlainTerms(config: Config, floor: Floor)
    ensures Apart(config, floor) <==> forall u, v :: u in floor.placed && v in floor.placed ==>
      BeforeInPlainTerms(config, floor.placed[u], floor.placed[v])
  {
    forall u, v | u in floor.placed && v in floor.placed
      ensures Waits(config, Finish(floor.placed[u]), floor.placed[u], floor.placed[v]) <==>
        BeforeInPlainTerms(config, floor.placed[u], floor.placed[v])
    {
      var a, b := floor.placed[u], floor.placed[v];
      ContendMeans(a.game, a.court, b.game, b.court);
    }
  }

  predicate BeforeInPlainTerms(config: Config, a: Assigned, b: Assigned) {
    && (a.wave < b.wave ==> EndedBy(a, b.start) && EndedBy(a, b.start - config.rest))
    && (a.wave == b.wave && a.start < b.start && (a.court == b.court || SharePlayer(a.game, b.game)) ==>
      EndedBy(a, b.start))
  }

  /** As planned, matches of one wave do not meet on a court or for a player. */
  predicate PlannedApart(a: Assigned, b: Assigned) {
    a.wave == b.wave && Contend(a.game, a.court, b.game, b.court) ==>
      Disjoint(Block(a.start, PlannedEnd(a)), Block(b.start, PlannedEnd(b)))
  }

  predicate Proper(waves: nat, a: Assigned) {
    a.game.duration >= 1 && a.wave < waves
  }

  ghost predicate Orderly(floor: Floor) {
    && (forall u :: u in floor.placed ==> Proper(floor.waves, floor.placed[u]))
    && forall u, v :: u in floor.placed && v in floor.placed && u != v ==>
      PlannedApart(floor.placed[u], floor.placed[v])
  }

  /** Two matches on one court, or with a common player, are never on at the same time, and those of
      different waves have the rest between them. */
  lemma ApartNeverMeet(config: Config, floor: Floor, u: UnitId, v: UnitId)
    requires Orderly(floor) && Apart(config, floor) && u in floor.placed && v in floor.placed && u != v
    requires Contend(floor.placed[u].game, floor.placed[u].court, floor.placed[v].game, floor.placed[v].court)
    ensures var a, b := floor.placed[u], floor.placed[v];
      var gap := if a.wave == b.wave then 0 else Courts.Max(0, config.rest);
      Finish(a) + gap <= b.start || Finish(b) + gap <= a.start
  {
    var a, b := floor.placed[u], floor.placed[v];
    assert PlannedApart(a, b) && Proper(floor.waves, a) && Proper(floor.waves, b);
    assert Waits(config, Finish(a), a, b) && Waits(config, Finish(b), b, a);
  }

  lemma SolvedIsOrderly(config: Config, floor: Floor, problem: Problem, solution: map<UnitId, Spot>, slot: int)
    requires Orderly(floor) && AsksFor(config, slot, problem) && Solves(config, problem, solution)
    requires floor.placed.Keys !! problem.matches.Keys
    ensures Orderly(WithWave(floor, problem, solution))
  {
    var after := WithWave(floor, problem, solution).placed;
    forall u | u in after
      ensures Proper(floor.waves + 1, after[u])
    {
      if u in solution {
        assert ProperMatch(problem, problem.matches[u]);
      } else {
        assert Proper(floor.waves, floor.placed[u]);
      }
    }
    forall u, v | u in after && v in after && u != v
      ensures PlannedApart(after[u], after[v])
    {
      if u in solution && v in solution {
        assert DoNotMeet(problem.matches[u], solution[u], problem.matches[v], solution[v]);
      } else if u in solution || v in solution {
        assert u !in solution ==> Proper(floor.waves, floor.placed[u]);
        assert v !in solution ==> Proper(floor.waves, floor.placed[v]);
      } else {
        assert PlannedApart(floor.placed[u], floor.placed[v]);
      }
    }
  }

  /** A solved match starts in the round, if the round has slots. */
  lemma SolvedInRound(config: Config, slot: int, problem: Problem, solution: map<UnitId, Spot>, u: UnitId)
    requires AsksFor(config, slot, problem) && Solves(config, problem, solution) && u in solution
    ensures slot < config.total ==> slot <= solution[u].start
    ensures config.total <= slot ==> solution[u].start < slot
  {
    var m, spot := problem.matches[u], solution[u];
    assert SolvedMatch(config, problem, m, spot) && ProperMatch(problem, m);
    if 0 <= slot < config.total {
      var p :| p in m.players;
      assert RoundWindows(slot, config.total, problem.availability[p]);
      var w :| w in problem.availability[p] && w.start <= spot.start && spot.start + m.duration <= w.end;
      assert Inside(w, Block(slot, config.total));
    }
  }

  lemma WaveWaits(config: Config, floor: Floor, slot: int, problem: Problem, solution: map<UnitId, Spot>, u: UnitId,
                  v: UnitId)
    requires Orderly(floor) && Apart(config, floor) && Legal(config, floor, Solved(slot, problem, solution))
    requires floor.placed == map[] || slot < config.total
    requires u in floor.placed.Keys + solution.Keys && v in floor.placed.Keys + solution.Keys
    ensures var after := WithWave(floor, problem, solution).placed;
      Waits(config, Finish(after[u]), after[u], after[v])
  {
    var after := WithWave(floor, problem, solution);
    SolvedIsOrderly(config, floor, problem, solution, slot);
    assert Proper(after.waves, after.placed[u]) && Proper(after.waves, after.placed[v]);
    if u in solution {
      if v in solution {
        assert u != v ==> PlannedApart(after.placed[u], after.placed[v]);
      } else {
        assert Proper(floor.waves, floor.placed[v]);
      }
    } else {
      assert Proper(floor.waves, floor.placed[u]);
      if v in solution {
        SolvedInRound(config, slot, problem, solution, v);
        NextSlotIsLatest(config, floor.placed, slot);
      } else {
        assert Waits(config, Finish(floor.placed[u]), floor.placed[u], floor.placed[v]);
      }
    }
  }

  /** A wave of a round without slots starts before an earlier match has ended and rested. */
  lemma LateWaveBreaks(config: Config, floor: Floor, slot: int, problem: Problem, solution: map<UnitId, Spot>)
    requires Orderly(floor) && Legal(config, floor, Solved(slot, problem, solution))
    requires floor.placed != map[] && config.total <= slot
    ensures !Apart(config, WithWave(floor, problem, solution))
  {
    var after := WithWave(floor, problem, solution).placed;
    NextSlotIsLatest(config, floor.placed, slot);
    var u :| u in floor.placed && Finish(floor.placed[u]) + Courts.Max(0, config.rest) == slot;
    var v :| v in problem.matches;
    SolvedInRound(config, slot, problem, solution, v);
    assert Proper(floor.waves, floor.placed[u]) && after[u] == floor.placed[u];
    assert !Waits(config, Finish(after[u]), after[u], after[v]);
  }

  /** A new wave stays apart from all earlier ones exactly if the next slot is before the end of the
      schedule: a round without slots asks for no windows, and then nothing holds the wave back. */
  lemma WaveStaysApart(config: Config, floor: Floor, slot: int, problem: Problem, solution: map<UnitId, Spot>)
    requires Orderly(floor) && Apart(config, floor) && Legal(config, floor, Solved(slot, problem, solution))
    ensures Apart(config, WithWave(floor, problem, solution)) <==> floor.placed == map[] || slot < config.total
  {
    if floor.placed == map[] || slot < config.total {
      var after := WithWave(floor, problem, solution).placed;
      forall u, v | u in after && v in after
        ensures Waits(config, Finish(after[u]), after[u], after[v])
      {
        WaveWaits(config, floor, slot, problem, solution, u, v);
      }
    } else {
      LateWaveBreaks(config, floor, slot, problem, solution);
    }
  }

  /** A schedule of two slots with a match over both: the next slot is the third, nothing holds the next
      wave back, and the engine may place its match on the same court at the same time. */
  lemma LateWaveMeets(first: UnitId, second: UnitId, p: PlayerId, q: PlayerId)
    returns (config: Config, floor: Floor, step: Step)
    requires first != second
    ensures Orderly(floor) && Apart(config, floor) && Legal(config, floor, step) && step.Solved?
    ensures var after := After(floor, step).placed;
      first in after && second in after &&
      after[first].court == after[second].court && after[first].start == after[second].start
  {
    config := Config(0, 1, 2, 1);
    floor := Floor(map[first := Assigned(Match(2, {p}), 0, 1, None, 0)], 1);
    var m := Match(2, {q});
    var problem := Problem(map[second := m], map[q := []]);
    assert q in m.players;
    assert Finish(floor.placed[first]) + Courts.Max(0, config.rest) == 3;
    var solution := map[second := Spot(0, 1)];
    step := Solved(3, problem, solution);
    NextSlotIsLatest(config, floor.placed, 3);
    assert NextSlot(config, floor.placed, 3);
    assert AsksFor(config, 3, problem);
    assert SolvedMatch(config, problem, m, solution[second]);
    assert Solves(config, problem, solution);
    assert second in problem.matches;
  }

  // ---- clocks ---------------------------------------------------------------

  /** Everything that has to wait for the match still does if it ends at `end`. */
  ghost predicate InTime(config: Config, floor: Floor, u: UnitId, end: Option<int>)
    requires u in floor.placed
  {
    forall v :: v in floor.placed ==>
      Waits(config, Finish(floor.placed[u].(actualEnd := end)), floor.placed[u], floor.placed[v])
  }

  lemma ClockIsOrderly(floor: Floor, u: UnitId, end: Option<int>)
    requires Orderly(floor) && u in floor.placed
    ensures Orderly(WithClock(floor, u, end))
  {
    var after := WithClock(floor, u, end).placed;
    forall v | v in after
      ensures Proper(floor.waves, after[v])
    {
      assert Proper(floor.waves, floor.placed[v]);
    }
    forall v, w | v in after && w in after && v != w
      ensures PlannedApart(after[v], after[w])
    {
      assert PlannedApart(floor.placed[v], floor.placed[w]);
    }
  }

  /** Who waits for whom does not depend on recorded ends. */
  lemma SameWaits(config: Config, end: int, a: Assigned, b: Assigned, a': Assigned, b': Assigned)
    requires a' == a.(actualEnd := a'.actualEnd) && b' == b.(actualEnd := b'.actualEnd)
    ensures Waits(config, end, a', b') <==> Waits(config, end, a, b)
  {
  }

  lemma ClockWaits(config: Config, floor: Floor, u: UnitId, end: Option<int>, v: UnitId, w: UnitId)
    requires u in floor.placed && v in floor.placed && w in floor.placed
    ensures var before, after := floor.placed, WithClock(floor, u, end).placed;
      Waits(config, Finish(after[v]), after[v], after[w]) <==> Waits(config, Finish(after[v]), before[v], before[w])
  {
    var before, after := floor.placed, WithClock(floor, u, end).placed;
    SameWaits(config, Finish(after[v]), before[v], before[w], after[v], after[w]);
  }

  /** Recording or clearing an end keeps the waves apart exactly if it is in time. */
  lemma ClockStaysApart(config: Config, floor: Floor, u: UnitId, end: Option<int>)
    requires Apart(config, floor) && u in floor.placed
    ensures Apart(config, WithClock(floor, u, end)) <==> InTime(config, floor, u, end)
  {
    var after := WithClock(floor, u, end).placed;
    if InTime(config, floor, u, end) {
      forall v, w | v in after && w in after
        ensures Waits(config, Finish(after[v]), after[v], after[w])
      {
        ClockWaits(config, floor, u, end, v, w);
        assert Waits(config, Finish(floor.placed[v]), floor.placed[v], floor.placed[w]);
      }
    } else {
      var w :| w in floor.placed && !Waits(config, Finish(after[u]), floor.placed[u], floor.placed[w]);
      ClockWaits(config, floor, u, end, u, w);
    }
  }

  ghost predicate InLastWave(floor: Floor, u: UnitId)
    requires u in floor.placed
  {
    forall v :: v in floor.placed ==> floor.placed[v].wave <= floor.placed[u].wave
  }

  /** Ending no later than expected so far is always in time; so is ending no later than planned, as long
      as no later wave has been placed. */
  lemma NoLaterIsInTime(config: Config, floor: Floor, u: UnitId, end: int)
    requires Orderly(floor) && Apart(config, floor) && u in floor.placed
    requires end <= Finish(floor.placed[u]) || (end <= PlannedEnd(floor.placed[u]) && InLastWave(floor, u))
    ensures InTime(config, floor, u, Some(end))
  {
    var a := floor.placed[u];
    forall v | v in floor.placed
      ensures Waits(config, end, a, floor.placed[v])
    {
      assert Waits(config, Finish(a), a, floor.placed[v]);
      assert u != v ==> PlannedApart(a, floor.placed[v]);
      assert Proper(floor.waves, a) && Proper(floor.waves, floor.placed[v]);
    }
  }

  // ---- runs -----------------------------------------------------------------

  /** The condition a caller can check before each step. */
  ghost predicate Timely(config: Config, floor: Floor, step: Step)
    requires Legal(config, floor, step)
  {
    match step
    case Solved(slot, _, _) => floor.placed == map[] || slot < config.total
    case Clock(u, end) => InTime(config, floor, u, end)
  }

  ghost predicate LegalRun(config: Config, floor: Floor, steps: seq<Step>)
    decreases |steps|
  {
    steps != [] ==> Legal(config, floor, steps[0]) && LegalRun(config, After(floor, steps[0]), steps[1..])
  }

  ghost predicate TimelyRun(config: Config, floor: Floor, steps: seq<Step>)
    requires LegalRun(config, floor, steps)
    decreases |steps|
  {
    steps != [] ==> Timely(config, floor, steps[0]) && TimelyRun(config, After(floor, steps[0]), steps[1..])
  }

  ghost predicate AlwaysApart(config: Config, floor: Floor, steps: seq<Step>)
    requires LegalRun(config, floor, steps)
    decreases |steps|
  {
    Apart(config, floor) && (steps != [] ==> AlwaysApart(config, After(floor, steps[0]), steps[1..]))
  }

  lemma StepStaysApart(config: Config, floor: Floor, step: Step)
    requires Orderly(floor) && Apart(config, floor) && Legal(config, floor, step)
    ensures Orderly(After(floor, step))
    ensures Apart(config, After(floor, step)) <==> Timely(config, floor, step)
  {
    match step
    case Solved(slot, problem, solution) =>
      SolvedIsOrderly(config, floor, problem, solution, slot);
      WaveStaysApart(config, floor, slot, problem, solution);
    case Clock(u, end) =>
      ClockIsOrderly(floor, u, end);
      ClockStaysApart(config, floor, u, end);
  }

  /** Over any run, the waves stay apart throughout exactly if every step is timely. */
  lemma {:induction false} WavesStayApart(config: Config, floor: Floor, steps: seq<Step>)
    requires Orderly(floor) && Apart(config, floor) && LegalRun(config, floor, steps)
    ensures AlwaysApart(config, floor, steps) <==> TimelyRun(config, floor, steps)
    decreases |steps|
  {
    if steps != [] {
      StepStaysApart(config, floor, steps[0]);
      if Timely(config, floor, steps[0]) {
        WavesStayApart(config, After(floor, steps[0]), steps[1..]);
      }
    }
  }

  /** The floor a run ends with. */
  function RunOf(config: Config, floor: Floor, steps: seq<Step>): Floor
    requires LegalRun(config, floor, steps)
    decreases |steps|
  {
    if steps == [] then floor else RunOf(config, After(floor, steps[0]), steps[1..])
  }

  lemma {:induction false} TimelyRunEndsApart(config: Config, floor: Floor, steps: seq<Step>)
    requires Orderly(floor) && Apart(config, floor) && LegalRun(config, floor, steps)
    requires TimelyRun(config, floor, steps)
    ensures Orderly(RunOf(config, floor, steps)) && Apart(config, RunOf(config, floor, steps))
    decreases |steps|
  {
    if steps != [] {
      StepStaysApart(config, floor, steps[0]);
      TimelyRunEndsApart(config, After(floor, steps[0]), steps[1..]);
    }
  }

  /** From an empty floor, after any timely run: two matches on one court, or with a common player, are never
      on at the same time. */
  lemma NobodyIsCalledTwice(config: Config, steps: seq<Step>, u: UnitId, v: UnitId)
    requires LegalRun(config, Floor(map[], 0), steps) && TimelyRun(config, Floor(map[], 0), steps)
    requires var placed := RunOf(config, Floor(map[], 0), steps).placed;
      && u in placed && v in placed && u != v
      && (placed[u].court == placed[v].court || SharePlayer(placed[u].game, placed[v].game))
    ensures var placed := RunOf(config, Floor(map[], 0), steps).placed;
      EndedBy(placed[u], placed[v].start) || EndedBy(placed[v], placed[u].start)
  {
    TimelyRunEndsApart(config, Floor(map[], 0), steps);
    var placed := RunOf(config, Floor(map[], 0), steps).placed;
    ContendMeans(placed[u].game, placed[u].court, placed[v].game, placed[v].court);
    ApartNeverMeet(config, RunOf(config, Floor(map[], 0), steps), u, v);
  }

  // ---- the driver -----------------------------------------------------------

  /** A match that may be played now, with its sides. */
  datatype Ready = Ready(sideA: Side, sideB: Side, expected: nat)

  /** Its players; a match without an expected duration takes one slot. */
  function MatchOf(participants: map<ParticipantId, Participant>, r: Ready): Match {
    Match(
      if r.expected == 0 then 1 else r.expected,
      set id, p | id in r.sideA + r.sideB && p in People(participants, id) :: p)
  }

  /** The match is as it is listed: one slot if no duration is expected, and everybody on either side. */
  ghost predicate AsListed(participants: map<ParticipantId, Participant>, r: Ready, m: Match) {
    && (r.expected > 0 ==> m.duration == r.expected) && (r.expected == 0 ==> m.duration == 1)
    && forall p :: p in m.players <==>
         exists id :: (id in r.sideA || id in r.sideB) && p in People(participants, id)
  }

  lemma MatchIsAsListed(participants: map<ParticipantId, Participant>, r: Ready)
    ensures AsListed(participants, r, MatchOf(participants, r))
  {
  }

  /** Every ready match is there, as it is listed, and nothing else is. */
  ghost predicate AllAsListed(participants: map<ParticipantId, Participant>, ready: map<UnitId, Ready>,
                              matches: map<UnitId, Match>)
  {
    matches.Keys == ready.Keys && forall u :: u in ready ==> AsListed(participants, ready[u], matches[u])
  }

  predicate Collected(participants: map<ParticipantId, Participant>, r: Ready, m: Match, people: set<PlayerId>) {
    m == MatchOf(participants, r) && m.duration >= 1 && m.players != {} && m.players <= people
  }

  function MatchesOf(participants: map<ParticipantId, Participant>, ready: map<UnitId, Ready>): map<UnitId, Match> {
    map u | u in ready :: MatchOf(participants, ready[u])
  }

  lemma CollectedAsks(config: Config, participants: map<ParticipantId, Participant>, extras: map<PlayerId, Extras>,
                      ready: map<UnitId, Ready>, slot: int, problem: Problem)
    requires problem.matches.Keys == ready.Keys
    requires forall u :: u in ready ==>
      Collected(participants, ready[u], problem.matches[u], problem.availability.Keys)
    requires forall p :: p in problem.availability ==>
      RoundAvailability(extras, People(participants, p), Block(slot, config.total), problem.availability[p])
    ensures AsksFor(config, slot, problem) && problem.matches == MatchesOf(participants, ready)
  {
    forall u | u in problem.matches
      ensures ProperMatch(problem, problem.matches[u])
    {
      assert Collected(participants, ready[u], problem.matches[u], problem.availability.Keys);
    }
    forall p | p in problem.availability
      ensures RoundWindows(slot, config.total, problem.availability[p])
    {
      assert RoundAvailability(extras, People(participants, p), Block(slot, config.total), problem.availability[p]);
    }
  }

  /** The match is where the solution has it, its clock not set, in the wave of the solve. */
  predicate PlacedAsSolved(step: Step, wave: nat, u: UnitId, a: Assigned) {
    && step.Solved? && u in step.solution && u in step.problem.matches
    && a.game == step.problem.matches[u] && a.start == step.solution[u].start && a.court == step.solution[u].court
    && a.actualEnd == None && a.wave == wave
  }

  /** The ready matches are added as one wave, and nothing else changes. */
  ghost predicate AddsWave(step: Step, ready: set<UnitId>, before: Floor, after: Floor) {
    && after.placed.Keys == before.placed.Keys + ready && after.waves == before.waves + 1
    && (forall u :: u in before.placed ==> after.placed[u] == before.placed[u])
    && forall u :: u in ready ==> PlacedAsSolved(step, before.waves, u, after.placed[u])
  }

  lemma WaveIsAdded(floor: Floor, slot: int, problem: Problem, solution: map<UnitId, Spot>)
    requires solution.Keys == problem.matches.Keys && floor.placed.Keys !! solution.Keys
    ensures AddsWave(Solved(slot, problem, solution), solution.Keys, floor, WithWave(floor, problem, solution))
  {
  }

  class Driver {
    const config: Config
    const participants: map<ParticipantId, Participant>
    const extras: map<PlayerId, Extras>
    var floor: Floor

    method AdvanceCurrentSlot() returns (slot: int)
      ensures NextSlot(config, floor.placed, slot)
    {
      if floor.placed == map[] {
        return config.base;
      }
      var first :| first in floor.placed;
      var todo, latest := floor.placed.Keys - {first}, Finish(floor.placed[first]);
      ghost var last := first;
      while todo != {}
        invariant todo <= floor.placed.Keys
        invariant last in floor.placed && latest == Finish(floor.placed[last])
        invariant forall u :: u in floor.placed && u !in todo ==> Finish(floor.placed[u]) <= latest
        decreases |todo|
      {
        var u :| u in todo;
        if Finish(floor.placed[u]) > latest {
          latest, last := Finish(floor.placed[u]), u;
        }
        todo := todo - {u};
      }
      NextSlotIsLatest(config, floor.placed, latest + Courts.Max(0, config.rest));
      return latest + Courts.Max(0, config.rest);
    }

    /** One ready match of the problem. */
    method BuildMatch(r: Ready) returns (m: Match)
      requires r.sideA != [] && r.sideB != []
      ensures m == MatchOf(participants, r) && m.duration >= 1 && m.players != {}
    {
      var a := ExpandSide(r.sideA, participants);
      var b := ExpandSide(r.sideB, participants);
      m := Match(if r.expected == 0 then 1 else r.expected, set p | p in a + b);
      assert a[0] in m.players;
    }

    /** The ready matches, and everybody who plays in them. */
    method CollectMatches(ready: map<UnitId, Ready>) returns (matches: map<UnitId, Match>, people: set<PlayerId>)
      requires forall u :: u in ready ==> ready[u].sideA != [] && ready[u].sideB != []
      ensures matches.Keys == ready.Keys
      ensures forall u :: u in matches ==> Collected(participants, ready[u], matches[u], people)
    {
      matches, people := map[], {};
      var todo := ready.Keys;
      while todo != {}
        invariant todo <= ready.Keys && matches.Keys == ready.Keys - todo
        invariant forall u :: u in matches ==> Collected(participants, ready[u], matches[u], people)
        decreases |todo|
      {
        var u :| u in todo;
        var m := BuildMatch(ready[u]);
        matches, people, todo := matches[u := m], people + m.players, todo - {u};
      }
    }

    /** What to ask of the engine for the ready matches. */
    method BuildProblem(ready: map<UnitId, Ready>, slot: int) returns (problem: Problem)
      requires forall u :: u in ready ==> ready[u].sideA != [] && ready[u].sideB != []
      ensures AsksFor(config, slot, problem) && problem.matches == MatchesOf(participants, ready)
      ensures AllAsListed(participants, ready, problem.matches)
      ensures forall p :: p in problem.availability ==>
        RoundAvailability(extras, People(participants, p), Block(slot, config.total), problem.availability[p])
    {
      var matches, people := CollectMatches(ready);
      var players := BuildPlayers(people, participants, Block(slot, config.total), extras);
      problem := Problem(matches, players);
      CollectedAsks(config, participants, extras, ready, slot, problem);
      forall u | u in ready
        ensures AsListed(participants, ready[u], problem.matches[u])
      {
        MatchIsAsListed(participants, ready[u]);
      }
    }

    /** Place the matches that are ready, if there are any and the engine finds a solution. */
    method ScheduleNextRound(ready: map<UnitId, Ready>, solve: Problem -> Option<map<UnitId, Spot>>)
      returns (step: Option<Step>)
      requires ready.Keys !! floor.placed.Keys
      requires forall u :: u in ready ==> ready[u].sideA != [] && ready[u].sideB != []
      requires forall p: Problem :: solve(p).Some? ==> Solves(config, p, solve(p).value)
      modifies this
      ensures step.Some? ==> Legal(config, old(floor), step.value) && step.value.Solved?
      ensures step.Some? ==> AllAsListed(participants, ready, step.value.problem.matches)
      ensures step.Some? ==> floor == After(old(floor), step.value)
      ensures step.Some? ==> AddsWave(step.value, ready.Keys, old(floor), floor)
      ensures step.None? ==> floor == old(floor)
      ensures step.None? ==> ready == map[] || exists p: Problem :: solve(p).None?
    {
      if ready == map[] {
        return None;
      }
      var slot := AdvanceCurrentSlot();
      var problem := BuildProblem(ready, slot);
      var solution := solve(problem);
      if solution.None? {
        return None;
      }
      var u :| u in ready;
      assert u in problem.matches;
      step := Some(Solved(slot, problem, solution.value));
      WaveIsAdded(floor, slot, problem, solution.value);
      floor := WithWave(floor, problem, solution.value);
    }

    /** Record when a placed match ended, or clear what was recorded. */
    method RecordEnd(u: UnitId, end: Option<int>)
      requires u in floor.placed
      modifies this
      ensures floor == After(old(floor), Clock(u, end))
      ensures floor.waves == old(floor.waves)
      ensures floor.placed == old(floor.placed)[u := old(floor.placed[u]).(actualEnd := end)]
    {
      floor := WithClock(floor, u, end);
    }
  }
}
