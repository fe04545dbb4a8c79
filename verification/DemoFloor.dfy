/** The live demo's floor: completed matches are given a chronology of their own, before the
    slot of the live wave. */
module DemoFloor {
  import opened Courts
  import Intervals

  const DAY := 48
  const SESSION := 20
  const LIVE_SLOT := 152

  /** A match with a result. */
  datatype Finished = Finished(unit: string, people: seq<string>, duration: nat)

  /** A finished match and where it has been put; `round` counts from the opening round. */
  datatype Done = Done(finished: Finished, round: nat, block: Intervals.Block, court: nat)

  /** Matches fit into a session. */
  predicate Playable(rounds: seq<seq<Finished>>) {
    forall round | round in rounds :: AllPlayable(round)
  }

  predicate AllPlayable(round: seq<Finished>) {
    forall f | f in round :: 1 <= f.duration <= SESSION
  }

  /** A match from `slot` lies in the session of one day. */
  predicate InSession(slot: int, duration: nat) {
    slot % DAY + duration <= SESSION
  }

  /** A match that would run past the session starts the next day. */
  function SessionSlot(slot: nat, duration: nat): (s: nat)
    requires 1 <= duration <= SESSION
    ensures s >= slot && InSession(s, duration)
    ensures InSession(slot, duration) ==> s == slot
  {
    if InSession(slot, duration) then slot else (slot / DAY + 1) * DAY
  }

  // ---- one match ------------------------------------------------------------

  /** The matches placed so far, when each court is free, when each person is rested, and
      the start and the latest end of the round. */
  datatype Floor = Floor(log: seq<Done>, free: map<nat, nat>, rested: map<string, nat>, roundStart: nat, roundEnd: nat)

  function RestedFrom(rested: map<string, nat>, person: string): nat {
    if person in rested then rested[person] else 0
  }

  /** From when on all of `people` may play. */
  function AllRested(rested: map<string, nat>, people: seq<string>): nat {
    if people == [] then 0 else Max(RestedFrom(rested, people[0]), AllRested(rested, people[1..]))
  }

  lemma {:induction false} AllAreRested(rested: map<string, nat>, people: seq<string>, person: string)
    requires person in people
    ensures RestedFrom(rested, person) <= AllRested(rested, people)
    decreases |people|
  {
    if person != people[0] {
      AllAreRested(rested, people[1..], person);
    }
  }

  function Earliest(floor: Floor, f: Finished): nat {
    Max(floor.roundStart, AllRested(floor.rested, f.people))
  }

  /** The slot a match would get on a court. */
  function SlotOn(free: map<nat, nat>, court: nat, earliest: nat, duration: nat): (slot: nat)
    requires court in free && 1 <= duration <= SESSION
    ensures slot >= earliest && slot >= free[court] && InSession(slot, duration)
  {
    SessionSlot(Max(free[court], earliest), duration)
  }

  /** The court with the earliest slot, the lowest of several. */
  function BestCourt(free: map<nat, nat>, courts: nat, earliest: nat, duration: nat): (best: nat)
    requires courts >= 1 && ForCourts(free, courts) && 1 <= duration <= SESSION
    ensures 1 <= best <= courts
  {
    if courts == 1 then 1
    else
      var best := BestCourt(free, courts - 1, earliest, duration);
      if SlotOn(free, courts, earliest, duration) < SlotOn(free, best, earliest, duration) then courts else best
  }

  /** No court offers an earlier slot, and no lower court the same. */
  lemma {:induction false} BestCourtIsBest(free: map<nat, nat>, courts: nat, earliest: nat, duration: nat, c: nat)
    requires ForCourts(free, courts) && 1 <= c <= courts && 1 <= duration <= SESSION
    ensures var best := BestCourt(free, courts, earliest, duration);
      SlotOn(free, best, earliest, duration) < SlotOn(free, c, earliest, duration) ||
      (SlotOn(free, best, earliest, duration) == SlotOn(free, c, earliest, duration) && best <= c)
    decreases courts
  {
    if courts > 1 {
      BestCourtIsBest(free, courts - 1, earliest, duration, if c < courts then c else 1);
    }
  }

  function SetAll(rested: map<string, nat>, people: seq<string>, slot: nat): (rested': map<string, nat>)
    ensures forall p :: p in rested' <==> p in rested || p in people
    ensures forall p :: p in rested' ==> rested'[p] == if p in people then slot else rested[p]
    decreases |people|
  {
    if people == [] then rested else SetAll(rested[people[0] := slot], people[1..], slot)
  }

  /** Put one match on the floor. */
  function Next(courts: nat, floor: Floor, round: nat, f: Finished): (floor': Floor)
    requires courts >= 1 && ForCourts(floor.free, courts) && 1 <= f.duration <= SESSION
    ensures ForCourts(floor'.free, courts)
  {
    var earliest := Earliest(floor, f);
    var court := BestCourt(floor.free, courts, earliest, f.duration);
    var slot := SlotOn(floor.free, court, earliest, f.duration);
    var end := slot + f.duration;
    Floor(floor.log + [Done(f, round, Intervals.Block(slot, end), court)], floor.free[court := end],
          SetAll(floor.rested, f.people, end + 1), floor.roundStart, Max(floor.roundEnd, end))
  }

  // ---- what the chronology keeps --------------------------------------------

  /** Somebody plays in both matches. */
  ghost predicate ShareSomebody(d: Done, e: Done) {
    exists person :: person in d.finished.people && person in e.finished.people
  }

  /** Two matches that follow each other on a court, for a person, or from round to round. */
  ghost predicate InOrder(d: Done, e: Done) {
    && (d.court == e.court ==> d.block.end <= e.block.start)
    && (ShareSomebody(d, e) ==> d.block.end + 1 <= e.block.start)
    && d.round <= e.round && (d.round < e.round ==> d.block.end + 1 <= e.block.start)
  }

  ghost predicate AllInOrder(log: seq<Done>) {
    forall i, j {:trigger InOrder(log[i], log[j])} :: 0 <= i < j < |log| ==> InOrder(log[i], log[j])
  }

  predicate WellPlaced(courts: nat, d: Done) {
    && 1 <= d.court <= courts && 0 <= d.block.start && d.block.end == d.block.start + d.finished.duration
    && InSession(d.block.start, d.finished.duration) && d.finished.duration > 0
  }

  /** Courts never overlap, everybody has a free slot between two matches, a round starts when
      the round before is over, and every match lies in the session of one day. */
  ghost predicate Sporting(courts: nat, log: seq<Done>) {
    (forall d :: d in log ==> WellPlaced(courts, d)) && AllInOrder(log)
  }

  /** What the floor knows of a match on it, in round `round`. */
  predicate Remembers(floor: Floor, round: nat, d: Done) {
    && d.court in floor.free && d.block.end <= floor.free[d.court]
    && (forall p | p in d.finished.people :: d.block.end + 1 <= RestedFrom(floor.rested, p))
    && d.round <= round && d.block.end <= floor.roundEnd && (d.round < round ==> d.block.end + 1 <= floor.roundStart)
  }

  /** The floor during round `round`. */
  ghost predicate Orderly(courts: nat, floor: Floor, round: nat) {
    && ForCourts(floor.free, courts) && floor.roundStart <= floor.roundEnd
    && Sporting(courts, floor.log) && (forall d :: d in floor.log ==> Remembers(floor, round, d))
  }

  lemma NextIsInOrder(courts: nat, floor: Floor, round: nat, f: Finished, d: Done)
    requires courts >= 1 && 1 <= f.duration <= SESSION && Orderly(courts, floor, round) && d in floor.log
    ensures InOrder(d, Next(courts, floor, round, f).log[|floor.log|])
    ensures Remembers(Next(courts, floor, round, f), round, d)
  {
    var e := Next(courts, floor, round, f).log[|floor.log|];
    assert Remembers(floor, round, d) && WellPlaced(courts, d);
    forall p | p in d.finished.people && p in f.people
      ensures d.block.end + 1 <= e.block.start
    {
      AllAreRested(floor.rested, f.people, p);
    }
  }

  lemma NextIsOrderly(courts: nat, floor: Floor, round: nat, f: Finished)
    requires courts >= 1 && 1 <= f.duration <= SESSION && Orderly(courts, floor, round)
    ensures Orderly(courts, Next(courts, floor, round, f), round)
  {
    var floor' := Next(courts, floor, round, f);
    forall i, j | 0 <= i < j < |floor'.log|
      ensures InOrder(floor'.log[i], floor'.log[j])
    {
      if j == |floor.log| {
        NextIsInOrder(courts, floor, round, f, floor.log[i]);
      } else {
        assert InOrder(floor.log[i], floor.log[j]);
      }
    }
    forall d | d in floor'.log
      ensures WellPlaced(courts, d) && Remembers(floor', round, d)
    {
      if d in floor.log {
        NextIsInOrder(courts, floor, round, f, d);
      }
    }
  }

  // ---- rounds ---------------------------------------------------------------

  function PlaceRound(courts: nat, floor: Floor, round: nat, fs: seq<Finished>): (floor': Floor)
    requires courts >= 1 && AllPlayable(fs) && Orderly(courts, floor, round)
    ensures Orderly(courts, floor', round)
  {
    if fs == [] then floor
    else
      assert forall f :: f in fs[..|fs| - 1] ==> f in fs;
      var before := PlaceRound(courts, floor, round, fs[..|fs| - 1]);
      NextIsOrderly(courts, before, round, fs[|fs| - 1]);
      Next(courts, before, round, fs[|fs| - 1])
  }

  /** The next round starts one slot after the end of this one. */
  function CloseRound(floor: Floor): Floor {
    floor.(roundStart := floor.roundEnd + 1, roundEnd := floor.roundEnd + 1)
  }

  lemma ClosedIsOrderly(courts: nat, floor: Floor, round: nat)
    requires Orderly(courts, floor, round)
    ensures Orderly(courts, CloseRound(floor), round + 1)
  {
    forall d | d in floor.log
      ensures Remembers(CloseRound(floor), round + 1, d)
    {
      assert Remembers(floor, round, d);
    }
  }

  /** The floor after the first `n` rounds: whatever the rounds, its chronology is a sporting one. */
  function PlaceRounds(courts: nat, rounds: seq<seq<Finished>>, n: nat): (floor: Floor)
    requires courts >= 1 && Playable(rounds) && n <= |rounds|
    ensures Orderly(courts, floor, n)
  {
    if n == 0 then Floor([], Opening(courts), map[], 0, 0)
    else
      assert rounds[n - 1] in rounds;
      var placed := PlaceRound(courts, PlaceRounds(courts, rounds, n - 1), n - 1, rounds[n - 1]);
      ClosedIsOrderly(courts, placed, n - 1);
      CloseRound(placed)
  }

  /** Matches stay where they have been put. */
  lemma {:induction false} RoundKeepsLog(courts: nat, floor: Floor, round: nat, fs: seq<Finished>, n: nat)
    requires courts >= 1 && AllPlayable(fs) && Orderly(courts, floor, round) && n <= |fs| && AllPlayable(fs[..n])
    ensures PlaceRound(courts, floor, round, fs[..n]).log <= PlaceRound(courts, floor, round, fs).log
    decreases |fs|
  {
    if n < |fs| {
      var before := fs[..|fs| - 1];
      assert forall f :: f in before ==> f in fs;
      assert before[..n] == fs[..n];
      RoundKeepsLog(courts, floor, round, before, n);
    } else {
      assert fs[..n] == fs;
    }
  }

  lemma {:induction false} RoundExtendsLog(courts: nat, floor: Floor, round: nat, fs: seq<Finished>)
    requires courts >= 1 && AllPlayable(fs) && Orderly(courts, floor, round)
    ensures floor.log <= PlaceRound(courts, floor, round, fs).log
    decreases |fs|
  {
    if fs != [] {
      assert forall f :: f in fs[..|fs| - 1] ==> f in fs;
      RoundExtendsLog(courts, floor, round, fs[..|fs| - 1]);
    }
  }

  lemma NextRoundKeepsLog(courts: nat, rounds: seq<seq<Finished>>, k: nat)
    requires courts >= 1 && Playable(rounds) && k < |rounds|
    ensures PlaceRounds(courts, rounds, k).log <= PlaceRounds(courts, rounds, k + 1).log
  {
    assert rounds[k] in rounds;
    RoundExtendsLog(courts, PlaceRounds(courts, rounds, k), k, rounds[k]);
  }

  lemma PrefixOfPrefix<T>(a: seq<T>, b: seq<T>, c: seq<T>)
    requires a <= b <= c
    ensures a <= c
  {
  }

  lemma {:induction false} RoundsKeepLog(courts: nat, rounds: seq<seq<Finished>>, k: nat, n: nat)
    requires courts >= 1 && Playable(rounds) && k <= n <= |rounds|
    ensures PlaceRounds(courts, rounds, k).log <= PlaceRounds(courts, rounds, n).log
    decreases n - k
  {
    if k < n {
      NextRoundKeepsLog(courts, rounds, k);
      RoundsKeepLog(courts, rounds, k + 1, n);
      PrefixOfPrefix(PlaceRounds(courts, rounds, k).log, PlaceRounds(courts, rounds, k + 1).log,
        PlaceRounds(courts, rounds, n).log);
    }
  }

  lemma {:induction false} RoundPlacesAll(courts: nat, floor: Floor, round: nat, fs: seq<Finished>, i: nat)
    returns (d: Done)
    requires courts >= 1 && AllPlayable(fs) && Orderly(courts, floor, round) && i < |fs|
    ensures d in PlaceRound(courts, floor, round, fs).log && d.finished == fs[i] && d.round == round
    decreases |fs|
  {
    var before := fs[..|fs| - 1];
    assert forall f :: f in before ==> f in fs;
    if i < |fs| - 1 {
      d := RoundPlacesAll(courts, floor, round, before, i);
    } else {
      var log := PlaceRound(courts, floor, round, fs).log;
      d := log[|log| - 1];
    }
  }

  /** Every completed match is placed, under its own round. */
  lemma EveryMatchIsPlaced(courts: nat, rounds: seq<seq<Finished>>, k: nat, i: nat) returns (d: Done)
    requires courts >= 1 && Playable(rounds) && k < |rounds| && i < |rounds[k]|
    ensures d in PlaceRounds(courts, rounds, |rounds|).log && d.finished == rounds[k][i] && d.round == k
  {
    assert rounds[k] in rounds;
    d := RoundPlacesAll(courts, PlaceRounds(courts, rounds, k), k, rounds[k], i);
    RoundsKeepLog(courts, rounds, k + 1, |rounds|);
    assert d in PlaceRounds(courts, rounds, k + 1).log;
    InPrefix(d, PlaceRounds(courts, rounds, k + 1).log, PlaceRounds(courts, rounds, |rounds|).log);
  }

  lemma {:induction false} RoundPlacesOnly(courts: nat, floor: Floor, round: nat, fs: seq<Finished>, d: Done)
    requires courts >= 1 && AllPlayable(fs) && Orderly(courts, floor, round)
    requires d in PlaceRound(courts, floor, round, fs).log
    ensures d in floor.log || d.finished in fs
    decreases |fs|
  {
    if fs != [] {
      var before := fs[..|fs| - 1];
      assert forall f :: f in before ==> f in fs;
      if d in PlaceRound(courts, floor, round, before).log {
        RoundPlacesOnly(courts, floor, round, before, d);
      }
    }
  }

  /** Nothing but completed matches is placed. */
  lemma {:induction false} OnlyMatchesArePlaced(courts: nat, rounds: seq<seq<Finished>>, n: nat, d: Done)
    returns (k: nat)
    requires courts >= 1 && Playable(rounds) && n <= |rounds| && d in PlaceRounds(courts, rounds, n).log
    ensures k < n && d.finished in rounds[k]
    decreases n
  {
    assert rounds[n - 1] in rounds;
    var before := PlaceRounds(courts, rounds, n - 1);
    RoundPlacesOnly(courts, before, n - 1, rounds[n - 1], d);
    k := n - 1;
    if d in before.log {
      k := OnlyMatchesArePlaced(courts, rounds, n - 1, d);
    }
  }

  lemma InPrefix<T>(x: T, a: seq<T>, b: seq<T>)
    requires x in a && a <= b
    ensures x in b
  {
  }

  // ---- the method -----------------------------------------------------------

  /** Some match ends too late for the live wave. */
  ghost predicate TooLong(log: seq<Done>) {
    exists d :: d in log && d.block.end >= LIVE_SLOT
  }

  lemma TooLongStays(log: seq<Done>, log': seq<Done>)
    requires TooLong(log) && log <= log'
    ensures TooLong(log')
  {
    var d :| d in log && d.block.end >= LIVE_SLOT;
    assert d in log';
  }

  /** Put one match on the floor, unless it would run into the live wave. */
  method PlaceMatch(courts: nat, floor: Floor, round: nat, f: Finished) returns (floor': Floor, late: bool)
    requires courts >= 1 && Orderly(courts, floor, round) && 1 <= f.duration <= SESSION
    ensures floor' == Next(courts, floor, round, f) && Orderly(courts, floor', round)
    ensures !TooLong(floor.log) ==> (late <==> TooLong(floor'.log))
  {
    NextIsOrderly(courts, floor, round, f);
    floor' := Next(courts, floor, round, f);
    late := floor'.log[|floor.log|].block.end >= LIVE_SLOT;
    assert floor'.log == floor.log + [floor'.log[|floor.log|]];
    assert floor'.log[|floor.log|] in floor'.log;
  }

  method PlaceRoundMatches(courts: nat, floor: Floor, round: nat, fs: seq<Finished>) returns (floor': Floor, late: bool)
    requires courts >= 1 && AllPlayable(fs) && Orderly(courts, floor, round) && !TooLong(floor.log)
    ensures late <==> TooLong(PlaceRound(courts, floor, round, fs).log)
    ensures !late ==> floor' == PlaceRound(courts, floor, round, fs)
  {
    floor', late := floor, false;
    for i := 0 to |fs|
      invariant AllPlayable(fs[..i]) && floor' == PlaceRound(courts, floor, round, fs[..i])
      invariant !TooLong(floor'.log)
    {
      assert fs[..i + 1][..i] == fs[..i] && fs[i] in fs;
      floor', late := PlaceMatch(courts, floor', round, fs[i]);
      assert floor' == PlaceRound(courts, floor, round, fs[..i + 1]);
      if late {
        RoundKeepsLog(courts, floor, round, fs, i + 1);
        TooLongStays(floor'.log, PlaceRound(courts, floor, round, fs).log);
        return;
      }
    }
    assert fs[..|fs|] == fs;
  }

  datatype Outcome = Placed(log: seq<Done>) | TooLate

  /** Give the completed matches a chronology; refused exactly if one of them would not be over
      before the live wave. */
  method CompletedPlacements(courts: nat, rounds: seq<seq<Finished>>) returns (outcome: Outcome)
    requires courts >= 1 && Playable(rounds)
    ensures outcome.TooLate? <==> exists d :: d in PlaceRounds(courts, rounds, |rounds|).log && d.block.end >= 152
    ensures outcome.Placed? ==> outcome.log == PlaceRounds(courts, rounds, |rounds|).log
  {
    var floor := Floor([], Opening(courts), map[], 0, 0);
    for k := 0 to |rounds|
      invariant floor == PlaceRounds(courts, rounds, k) && !TooLong(floor.log)
    {
      assert rounds[k] in rounds;
      ghost var before := floor;
      var late;
      floor, late := PlaceRoundMatches(courts, floor, k, rounds[k]);
      assert PlaceRounds(courts, rounds, k + 1).log == PlaceRound(courts, before, k, rounds[k]).log;
      if late {
        RoundsKeepLog(courts, rounds, k + 1, |rounds|);
        TooLongStays(PlaceRounds(courts, rounds, k + 1).log, PlaceRounds(courts, rounds, |rounds|).log);
        return TooLate;
      }
      floor := CloseRound(floor);
    }
    return Placed(floor.log);
  }
}
