/** The chronology of the finished matches is the earliest there is: every match, in the order it is
    listed, has the first slot and court that the matches before it leave open. */
module EarliestFloor {
  import opened Courts
  import opened DemoFloor

  // ---- what a slot has to leave open ----------------------------------------------

  /** From `s` on court `c` is free after a match of the log. */
  predicate LeavesCourt(d: Done, c: nat, s: int) {
    d.court == c ==> d.block.end <= s
  }

  /** From `s` on everybody who played the match has had a slot of rest. */
  predicate LeavesRest(d: Done, people: seq<string>, s: int) {
    forall p | p in people :: p in d.finished.people ==> d.block.end + 1 <= s
  }

  /** A round starts a slot after the round before is over, so every round in between takes a slot. */
  predicate LeavesRound(d: Done, round: nat, s: int) {
    d.round < round ==> d.block.end + (round - d.round) <= s
  }

  predicate LeavesOpen(d: Done, round: nat, f: Finished, c: nat, s: int) {
    LeavesCourt(d, c, s) && LeavesRest(d, f.people, s) && LeavesRound(d, round, s)
  }

  /** A match of that round could start at slot `s` on court `c`, after the matches of `log`: a day has 48
      slots, of which the first 20 are the session. */
  ghost predicate Possible(courts: nat, log: seq<Done>, round: nat, f: Finished, c: nat, s: int) {
    && 1 <= c <= courts && round <= s && s % 48 + f.duration <= 20
    && forall d :: d in log ==> LeavesOpen(d, round, f, c, s)
  }

  /** Nothing earlier was possible, nor a lower court at the same time. */
  ghost predicate EarliestOf(courts: nat, log: seq<Done>, d: Done) {
    && Possible(courts, log, d.round, d.finished, d.court, d.block.start)
    && forall c, s :: Possible(courts, log, d.round, d.finished, c, s) ==>
      d.block.start < s || (d.block.start == s && d.court <= c)
  }

  ghost predicate AllEarliest(courts: nat, log: seq<Done>) {
    forall i :: 0 <= i < |log| ==> EarliestOf(courts, log[..i], log[i])
  }

  // ---- what the floor keeps track of ----------------------------------------------

  /** A court is free, a person rested, the round started and ended exactly from the slots that its
      matches leave. */
  ghost predicate Tracks(courts: nat, floor: Floor, round: nat) {
    && ForCourts(floor.free, courts)
    && (forall c, s :: 1 <= c <= courts ==> (CourtOpen(floor.log, c, s) <==> floor.free[c] <= s))
    && (forall p, s :: RestOpen(floor.log, p, s) <==> RestedFrom(floor.rested, p) <= s)
    && (forall s :: RoundOpen(floor.log, round, s) <==> floor.roundStart <= s)
    && (forall s :: NextRoundOpen(floor.log, round, s) <==> floor.roundEnd + 1 <= s)
  }

  ghost predicate CourtOpen(log: seq<Done>, c: nat, s: int) {
    0 <= s && forall d :: d in log ==> LeavesCourt(d, c, s)
  }

  ghost predicate RestOpen(log: seq<Done>, p: string, s: int) {
    0 <= s && forall d :: d in log ==> LeavesRest(d, [p], s)
  }

  ghost predicate RoundOpen(log: seq<Done>, round: nat, s: int) {
    round <= s && forall d :: d in log ==> LeavesRound(d, round, s)
  }

  ghost predicate NextRoundOpen(log: seq<Done>, round: nat, s: int) {
    RoundOpen(log, round + 1, s)
  }

  lemma {:induction false} AllRestOpen(floor: Floor, people: seq<string>, s: int)
    requires forall p, t :: RestOpen(floor.log, p, t) <==> RestedFrom(floor.rested, p) <= t
    ensures AllRested(floor.rested, people) <= s <==> 0 <= s && forall d :: d in floor.log ==> LeavesRest(d, people, s)
    decreases |people|
  {
    if people != [] {
      AllRestOpen(floor, people[1..], s);
      assert RestOpen(floor.log, people[0], s) <==> RestedFrom(floor.rested, people[0]) <= s;
      forall d | d in floor.log
        ensures LeavesRest(d, people, s) <==> LeavesRest(d, [people[0]], s) && LeavesRest(d, people[1..], s)
      {
        RestSplits(d, people, s);
      }
    }
  }

  lemma RestSplits(d: Done, people: seq<string>, s: int)
    requires people != []
    ensures LeavesRest(d, people, s) <==> LeavesRest(d, [people[0]], s) && LeavesRest(d, people[1..], s)
  {
    assert people == [people[0]] + people[1..];
    assert people[0] in people;
    forall p | p in people
      ensures p == people[0] || p in people[1..]
    {
    }
  }

  lemma LaterThatDay(slot: nat, s: int)
    requires slot <= s
    ensures s < 48 * (slot / 48 + 1) ==> slot % 48 <= s % 48
  {
    if s < 48 * (slot / 48 + 1) {
      assert s / 48 == slot / 48;
    }
  }

  /** A slot of the session is possible from the slot on that court on, and no other. */
  lemma SlotIsFirst(slot: nat, duration: nat, s: int)
    requires 1 <= duration <= SESSION
    ensures SessionSlot(slot, duration) % 48 + duration <= 20
    ensures slot <= s && s % 48 + duration <= 20 ==> SessionSlot(slot, duration) <= s
  {
    if slot <= s {
      LaterThatDay(slot, s);
    }
  }

  lemma PossibleFrom(courts: nat, floor: Floor, round: nat, f: Finished, c: nat, s: int)
    requires Tracks(courts, floor, round) && 1 <= f.duration <= SESSION && 1 <= c <= courts
    ensures Possible(courts, floor.log, round, f, c, s) <==>
      Max(floor.free[c], Earliest(floor, f)) <= s && s % 48 + f.duration <= 20
  {
    AllRestOpen(floor, f.people, s);
    assert CourtOpen(floor.log, c, s) <==> floor.free[c] <= s;
    assert RoundOpen(floor.log, round, s) <==> floor.roundStart <= s;
  }

  /** The next match gets the first place there is. */
  lemma NextIsEarliest(courts: nat, floor: Floor, round: nat, f: Finished)
    requires courts >= 1 && 1 <= f.duration <= SESSION && Tracks(courts, floor, round)
    ensures EarliestOf(courts, floor.log, Next(courts, floor, round, f).log[|floor.log|])
  {
    var d := Next(courts, floor, round, f).log[|floor.log|];
    var earliest := Earliest(floor, f);
    PossibleFrom(courts, floor, round, f, d.court, d.block.start);
    SlotIsFirst(Max(floor.free[d.court], earliest), f.duration, d.block.start);
    forall c, s | Possible(courts, floor.log, round, f, c, s)
      ensures d.block.start < s || (d.block.start == s && d.court <= c)
    {
      PossibleFrom(courts, floor, round, f, c, s);
      SlotIsFirst(Max(floor.free[c], earliest), f.duration, s);
      BestCourtIsBest(floor.free, courts, earliest, f.duration, c);
    }
  }

  // ---- one more match -----------------------------------------------------------------

  lemma CourtsTracked(courts: nat, floor: Floor, round: nat, f: Finished, c: nat, s: int)
    requires courts >= 1 && 1 <= f.duration <= SESSION && Tracks(courts, floor, round) && 1 <= c <= courts
    ensures var floor' := Next(courts, floor, round, f);
      CourtOpen(floor'.log, c, s) <==> floor'.free[c] <= s
  {
    var floor' := Next(courts, floor, round, f);
    var d := floor'.log[|floor.log|];
    assert floor'.log == floor.log + [d];
    assert CourtOpen(floor.log, c, s) <==> floor.free[c] <= s;
    assert CourtOpen(floor'.log, c, s) <==> CourtOpen(floor.log, c, s) && LeavesCourt(d, c, s);
  }

  lemma RestTracked(courts: nat, floor: Floor, round: nat, f: Finished, p: string, s: int)
    requires courts >= 1 && 1 <= f.duration <= SESSION && Tracks(courts, floor, round)
    ensures var floor' := Next(courts, floor, round, f);
      RestOpen(floor'.log, p, s) <==> RestedFrom(floor'.rested, p) <= s
  {
    var floor' := Next(courts, floor, round, f);
    var d := floor'.log[|floor.log|];
    assert floor'.log == floor.log + [d];
    assert RestOpen(floor.log, p, s) <==> RestedFrom(floor.rested, p) <= s;
    assert RestOpen(floor'.log, p, s) <==> RestOpen(floor.log, p, s) && LeavesRest(d, [p], s);
    if p in f.people {
      AllAreRested(floor.rested, f.people, p);
      assert p in [p];
    }
  }

  lemma RoundTracked(courts: nat, floor: Floor, round: nat, f: Finished, s: int)
    requires courts >= 1 && 1 <= f.duration <= SESSION && Tracks(courts, floor, round)
    ensures var floor' := Next(courts, floor, round, f);
      && (RoundOpen(floor'.log, round, s) <==> floor'.roundStart <= s)
      && (NextRoundOpen(floor'.log, round, s) <==> floor'.roundEnd + 1 <= s)
  {
    var floor' := Next(courts, floor, round, f);
    var d := floor'.log[|floor.log|];
    assert floor'.log == floor.log + [d];
    assert RoundOpen(floor.log, round, s) <==> floor.roundStart <= s;
    assert NextRoundOpen(floor.log, round, s) <==> floor.roundEnd + 1 <= s;
    assert RoundOpen(floor'.log, round, s) <==> RoundOpen(floor.log, round, s) && LeavesRound(d, round, s);
    assert NextRoundOpen(floor'.log, round, s) <==> NextRoundOpen(floor.log, round, s) && LeavesRound(d, round + 1, s);
  }

  lemma NextTracks(courts: nat, floor: Floor, round: nat, f: Finished)
    requires courts >= 1 && 1 <= f.duration <= SESSION && Tracks(courts, floor, round)
    ensures Tracks(courts, Next(courts, floor, round, f), round)
  {
    var floor' := Next(courts, floor, round, f);
    forall c, s | 1 <= c <= courts
      ensures CourtOpen(floor'.log, c, s) <==> floor'.free[c] <= s
    {
      CourtsTracked(courts, floor, round, f, c, s);
    }
    forall p, s
      ensures RestOpen(floor'.log, p, s) <==> RestedFrom(floor'.rested, p) <= s
    {
      RestTracked(courts, floor, round, f, p, s);
    }
    forall s
      ensures RoundOpen(floor'.log, round, s) <==> floor'.roundStart <= s
      ensures NextRoundOpen(floor'.log, round, s) <==> floor'.roundEnd + 1 <= s
    {
      RoundTracked(courts, floor, round, f, s);
    }
  }

  lemma OneMoreEarliest(courts: nat, log: seq<Done>, d: Done)
    requires AllEarliest(courts, log) && EarliestOf(courts, log, d)
    ensures AllEarliest(courts, log + [d])
  {
    forall i | 0 <= i < |log + [d]|
      ensures EarliestOf(courts, (log + [d])[..i], (log + [d])[i])
    {
      assert (log + [d])[..i] == log[..i] || i == |log|;
      assert (log + [d])[..|log|] == log;
    }
  }

  // ---- rounds -----------------------------------------------------------------------

  /** Closing a round passes on what is tracked: the matches placed so far are of no later round. */
  lemma CloseTracks(courts: nat, floor: Floor, round: nat)
    requires Tracks(courts, floor, round) && forall d :: d in floor.log ==> d.round <= round
    ensures Tracks(courts, CloseRound(floor), round + 1)
  {
    var next := round + 1;
    forall s
      ensures RoundOpen(floor.log, next, s) <==> floor.roundEnd + 1 <= s
    {
      assert NextRoundOpen(floor.log, round, s) <==> floor.roundEnd + 1 <= s;
    }
    forall s
      ensures NextRoundOpen(floor.log, next, s) <==> floor.roundEnd + 2 <= s
    {
      assert NextRoundOpen(floor.log, round, s - 1) <==> floor.roundEnd + 1 <= s - 1;
      assert forall d :: d in floor.log ==> (LeavesRound(d, round + 2, s) <==> LeavesRound(d, round + 1, s - 1));
    }
  }

  lemma {:induction false} RoundIsEarliest(courts: nat, floor: Floor, round: nat, fs: seq<Finished>)
    requires courts >= 1 && AllPlayable(fs) && Orderly(courts, floor, round)
    requires Tracks(courts, floor, round) && AllEarliest(courts, floor.log)
    ensures var floor' := PlaceRound(courts, floor, round, fs);
      Tracks(courts, floor', round) && AllEarliest(courts, floor'.log)
    decreases |fs|
  {
    if fs != [] {
      assert forall f :: f in fs[..|fs| - 1] ==> f in fs;
      var before, f := PlaceRound(courts, floor, round, fs[..|fs| - 1]), fs[|fs| - 1];
      RoundIsEarliest(courts, floor, round, fs[..|fs| - 1]);
      NextTracks(courts, before, round, f);
      NextIsEarliest(courts, before, round, f);
      OneMoreEarliest(courts, before.log, Next(courts, before, round, f).log[|before.log|]);
    }
  }

  /** A whole round, and its end. */
  lemma ClosedIsEarliest(courts: nat, floor: Floor, round: nat, fs: seq<Finished>) returns (floor': Floor)
    requires courts >= 1 && AllPlayable(fs) && Orderly(courts, floor, round)
    requires Tracks(courts, floor, round) && AllEarliest(courts, floor.log)
    ensures floor' == CloseRound(PlaceRound(courts, floor, round, fs))
    ensures Tracks(courts, floor', round + 1) && AllEarliest(courts, floor'.log)
  {
    var placed := PlaceRound(courts, floor, round, fs);
    RoundIsEarliest(courts, floor, round, fs);
    forall d | d in placed.log
      ensures d.round <= round
    {
      assert Remembers(placed, round, d);
    }
    CloseTracks(courts, placed, round);
    floor' := CloseRound(placed);
  }

  lemma FloorOpens(courts: nat) returns (floor: Floor)
    ensures floor == Floor([], Opening(courts), map[], 0, 0)
    ensures Tracks(courts, floor, 0) && AllEarliest(courts, floor.log)
  {
    floor := Floor([], Opening(courts), map[], 0, 0);
  }

  /** One more round. */
  lemma LastRound(courts: nat, rounds: seq<seq<Finished>>, n: nat, before: Floor)
    requires courts >= 1 && Playable(rounds) && n < |rounds| && before == PlaceRounds(courts, rounds, n)
    ensures Orderly(courts, before, n) && AllPlayable(rounds[n])
    ensures PlaceRounds(courts, rounds, n + 1) == CloseRound(PlaceRound(courts, before, n, rounds[n]))
  {
    assert rounds[n] in rounds;
  }

  lemma NextRoundIsEarliest(courts: nat, rounds: seq<seq<Finished>>, n: nat, before: Floor) returns (floor: Floor)
    requires courts >= 1 && Playable(rounds) && n < |rounds| && before == PlaceRounds(courts, rounds, n)
    requires Tracks(courts, before, n) && AllEarliest(courts, before.log)
    ensures floor == PlaceRounds(courts, rounds, n + 1)
    ensures Tracks(courts, floor, n + 1) && AllEarliest(courts, floor.log)
  {
    LastRound(courts, rounds, n, before);
    floor := ClosedIsEarliest(courts, before, n, rounds[n]);
  }

  lemma {:induction false} RoundsAreEarliest(courts: nat, rounds: seq<seq<Finished>>, n: nat) returns (floor: Floor)
    requires courts >= 1 && Playable(rounds) && n <= |rounds|
    ensures floor == PlaceRounds(courts, rounds, n)
    ensures Tracks(courts, floor, n) && AllEarliest(courts, floor.log)
    decreases n
  {
    if n == 0 {
      floor := FloorOpens(courts);
    } else {
      floor := RoundsAreEarliest(courts, rounds, n - 1);
      floor := NextRoundIsEarliest(courts, rounds, n - 1, floor);
    }
  }

  /** Every finished match has the first slot, and of several courts the lowest, that the matches listed
      before it leave open. */
  lemma ChronologyIsEarliest(courts: nat, rounds: seq<seq<Finished>>, i: nat)
    requires courts >= 1 && Playable(rounds) && i < |PlaceRounds(courts, rounds, |rounds|).log|
    ensures var log := PlaceRounds(courts, rounds, |rounds|).log;
      EarliestOf(courts, log[..i], log[i])
  {
    var floor := RoundsAreEarliest(courts, rounds, |rounds|);
  }

  // ---- in the order they are listed -----------------------------------------------------

  /** A match of a round, as it is listed. */
  datatype Listed = Listed(finished: Finished, round: nat)

  /** The matches of one round. */
  function Tagged(fs: seq<Finished>, round: nat): seq<Listed> {
    if fs == [] then [] else Tagged(fs[..|fs| - 1], round) + [Listed(fs[|fs| - 1], round)]
  }

  /** The matches of the first `n` rounds, as they are listed. */
  function ListedIn(rounds: seq<seq<Finished>>, n: nat): seq<Listed>
    requires n <= |rounds|
  {
    if n == 0 then [] else ListedIn(rounds, n - 1) + Tagged(rounds[n - 1], n - 1)
  }

  function Order(log: seq<Done>): seq<Listed> {
    if log == [] then [] else Order(log[..|log| - 1]) + [Listed(log[|log| - 1].finished, log[|log| - 1].round)]
  }

  lemma OrderNext(log: seq<Done>, d: Done)
    ensures Order(log + [d]) == Order(log) + [Listed(d.finished, d.round)]
  {
    assert (log + [d])[..|log|] == log;
  }

  lemma Appended<T>(a: seq<T>, b: seq<T>, x: T)
    ensures (a + b) + [x] == a + (b + [x])
  {
  }

  lemma LastOfRound(courts: nat, floor: Floor, round: nat, fs: seq<Finished>) returns (d: Done)
    requires courts >= 1 && AllPlayable(fs) && Orderly(courts, floor, round) && fs != []
    ensures AllPlayable(fs[..|fs| - 1]) && d.finished == fs[|fs| - 1] && d.round == round
    ensures PlaceRound(courts, floor, round, fs).log == PlaceRound(courts, floor, round, fs[..|fs| - 1]).log + [d]
  {
    assert forall f :: f in fs[..|fs| - 1] ==> f in fs;
    var before, f := PlaceRound(courts, floor, round, fs[..|fs| - 1]), fs[|fs| - 1];
    d := Next(courts, before, round, f).log[|before.log|];
  }

  lemma {:induction false} RoundInOrder(courts: nat, floor: Floor, round: nat, fs: seq<Finished>)
    requires courts >= 1 && AllPlayable(fs) && Orderly(courts, floor, round)
    ensures Order(PlaceRound(courts, floor, round, fs).log) == Order(floor.log) + Tagged(fs, round)
    decreases |fs|
  {
    if fs != [] {
      var d := LastOfRound(courts, floor, round, fs);
      var before := fs[..|fs| - 1];
      RoundInOrder(courts, floor, round, before);
      OrderNext(PlaceRound(courts, floor, round, before).log, d);
      Appended(Order(floor.log), Tagged(before, round), Listed(d.finished, d.round));
    }
  }

  lemma OneRoundInOrder(courts: nat, before: Floor, round: nat, fs: seq<Finished>) returns (log: seq<Done>)
    requires courts >= 1 && AllPlayable(fs) && Orderly(courts, before, round)
    ensures log == CloseRound(PlaceRound(courts, before, round, fs)).log
    ensures Order(log) == Order(before.log) + Tagged(fs, round)
  {
    RoundInOrder(courts, before, round, fs);
    log := PlaceRound(courts, before, round, fs).log;
  }

  lemma NextRoundInOrder(courts: nat, rounds: seq<seq<Finished>>, n: nat, before: Floor)
    requires courts >= 1 && Playable(rounds) && n < |rounds| && before == PlaceRounds(courts, rounds, n)
    ensures Order(PlaceRounds(courts, rounds, n + 1).log) == Order(before.log) + Tagged(rounds[n], n)
  {
    LastRound(courts, rounds, n, before);
    var log := OneRoundInOrder(courts, before, n, rounds[n]);
  }

  /** The chronology takes the finished matches in the order they are listed, each once. */
  lemma {:induction false} ChronologyInOrder(courts: nat, rounds: seq<seq<Finished>>, n: nat)
    requires courts >= 1 && Playable(rounds) && n <= |rounds|
    ensures Order(PlaceRounds(courts, rounds, n).log) == ListedIn(rounds, n)
    decreases n
  {
    if n > 0 {
      ChronologyInOrder(courts, rounds, n - 1);
      NextRoundInOrder(courts, rounds, n - 1, PlaceRounds(courts, rounds, n - 1));
    }
  }
}
