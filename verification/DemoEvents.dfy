/** The live demo's events: which matches are finished, which could be played now, and which of
    those are on court. */
module DemoEvents {
  import opened Intervals
  import opened DemoFloor

  datatype RoundCode = R32 | R16 | QF | SF | Other(name: string)

  /** A match with the feeders it has, at most two; `decided` if it has a result. */
  datatype Match = Match(id: string, people: seq<string>, duration: nat, decided: bool, feeders: seq<string>)

  datatype Round = Round(code: RoundCode, matches: seq<Match>)
  type Event = seq<Round>

  /** A match as the plan lists it, under the code of its round. */
  datatype Entry = Entry(code: RoundCode, game: Match)

  function RoundEntries(code: RoundCode, matches: seq<Match>): (entries: seq<Entry>)
    ensures forall e :: e in entries <==> e.code == code && e.game in matches
  {
    if matches == [] then []
    else
      var last := matches[|matches| - 1];
      assert matches == matches[..|matches| - 1] + [last];
      RoundEntries(code, matches[..|matches| - 1]) + [Entry(code, last)]
  }

  /** The matches of an event, round by round. */
  function EventEntries(event: Event): (entries: seq<Entry>)
    ensures forall e :: e in entries <==> exists r :: r in event && e in RoundEntries(r.code, r.matches)
  {
    if event == [] then []
    else
      var last := event[|event| - 1];
      EventEntries(event[..|event| - 1]) + RoundEntries(last.code, last.matches)
  }

  /** The matches of all events, in the order they are listed. */
  function Entries(events: seq<Event>): (entries: seq<Entry>)
    ensures forall e :: e in entries <==> exists j :: 0 <= j < |events| && e in EventEntries(events[j])
  {
    if events == [] then []
    else
      Entries(events[..|events| - 1]) + EventEntries(events[|events| - 1])
  }

  ghost predicate DistinctIds(entries: seq<Entry>) {
    forall i, j :: 0 <= i < j < |entries| ==> entries[i].game.id != entries[j].game.id
  }

  /** Each match has an id of its own, and matches with a result fit into a session. */
  ghost predicate ProperList(entries: seq<Entry>) {
    DistinctIds(entries) && forall e :: e in entries ==> ProperMatch(e.game)
  }

  ghost predicate Proper(events: seq<Event>) {
    ProperList(Entries(events))
  }

  predicate ProperMatch(m: Match) {
    m.duration >= 1 && (m.decided ==> m.duration <= SESSION)
  }

  lemma SameId(entries: seq<Entry>, e: Entry, f: Entry)
    requires DistinctIds(entries) && e in entries && f in entries && e.game.id == f.game.id
    ensures e == f
  {
  }

  // ---- the order of the lists ------------------------------------------------

  /** The entry at position `n` of an event is the `i`-th match of its `k`-th round. */
  predicate ListedAt(event: Event, n: nat, k: nat, i: nat) {
    && n < |EventEntries(event)| && k < |event| && i < |event[k].matches|
    && EventEntries(event)[n] == Entry(event[k].code, event[k].matches[i])
  }

  lemma {:induction false} RoundEntryAt(code: RoundCode, matches: seq<Match>, i: nat)
    ensures |RoundEntries(code, matches)| == |matches|
    ensures i < |matches| ==> RoundEntries(code, matches)[i] == Entry(code, matches[i])
    decreases |matches|
  {
    if matches != [] {
      RoundEntryAt(code, matches[..|matches| - 1], i);
    }
  }

  lemma {:induction false} EntryFrom(event: Event, n: nat) returns (k: nat, i: nat)
    requires n < |EventEntries(event)|
    ensures ListedAt(event, n, k, i)
    decreases |event|
  {
    var before, last := event[..|event| - 1], event[|event| - 1];
    if n < |EventEntries(before)| {
      k, i := EntryFrom(before, n);
    } else {
      k, i := |event| - 1, n - |EventEntries(before)|;
      RoundEntryAt(last.code, last.matches, i);
    }
  }

  /** The matches of an event are listed round by round, and as each round lists them. */
  lemma {:induction false} EventInTurn(event: Event, m: nat, n: nat) returns (k: nat, i: nat, l: nat, j: nat)
    requires m < n < |EventEntries(event)|
    ensures ListedAt(event, m, k, i) && ListedAt(event, n, l, j) && (k < l || (k == l && i < j))
    decreases |event|
  {
    var before, last := event[..|event| - 1], event[|event| - 1];
    if n < |EventEntries(before)| {
      k, i, l, j := EventInTurn(before, m, n);
    } else {
      l, j := |event| - 1, n - |EventEntries(before)|;
      RoundEntryAt(last.code, last.matches, j);
      if m < |EventEntries(before)| {
        k, i := EntryFrom(before, m);
      } else {
        k, i := |event| - 1, m - |EventEntries(before)|;
        RoundEntryAt(last.code, last.matches, i);
      }
    }
  }

  lemma {:induction false} EventFrom(events: seq<Event>, n: nat) returns (j: nat, k: nat)
    requires n < |Entries(events)|
    ensures j < |events| && k < |EventEntries(events[j])| && Entries(events)[n] == EventEntries(events[j])[k]
    decreases |events|
  {
    var before := events[..|events| - 1];
    if n < |Entries(before)| {
      j, k := EventFrom(before, n);
    } else {
      j, k := |events| - 1, n - |Entries(before)|;
    }
  }

  /** All matches are listed event by event, and as each event lists them. */
  lemma {:induction false} EventsInTurn(events: seq<Event>, m: nat, n: nat) returns (j: nat, k: nat, j': nat, k': nat)
    requires m < n < |Entries(events)|
    ensures j < |events| && k < |EventEntries(events[j])| && Entries(events)[m] == EventEntries(events[j])[k]
    ensures j' < |events| && k' < |EventEntries(events[j'])| && Entries(events)[n] == EventEntries(events[j'])[k']
    ensures j < j' || (j == j' && k < k')
    decreases |events|
  {
    var before := events[..|events| - 1];
    if n < |Entries(before)| {
      j, k, j', k' := EventsInTurn(before, m, n);
    } else {
      j', k' := |events| - 1, n - |Entries(before)|;
      if m < |Entries(before)| {
        j, k := EventFrom(before, m);
      } else {
        j, k := |events| - 1, m - |Entries(before)|;
      }
    }
  }

  // ---- finished matches -----------------------------------------------------

  function FinishedOf(m: Match): Finished {
    Finished(m.id, m.people, m.duration)
  }

  function FinishedAmong(matches: seq<Match>): (fs: seq<Finished>)
    ensures forall f :: f in fs <==> exists m :: m in matches && m.decided && FinishedOf(m) == f
  {
    if matches == [] then []
    else
      var last := matches[|matches| - 1];
      FinishedAmong(matches[..|matches| - 1]) + if last.decided then [FinishedOf(last)] else []
  }

  function FinishedNow(event: Event, k: nat): seq<Finished> {
    if k < |event| then FinishedAmong(event[k].matches) else []
  }

  /** The finished matches of the `k`-th rounds, event by event. */
  function FinishedRound(events: seq<Event>, k: nat): (fs: seq<Finished>)
    ensures forall f :: f in fs <==> exists event :: event in events && f in FinishedNow(event, k)
  {
    if events == [] then []
    else
      var last := events[|events| - 1];
      FinishedRound(events[..|events| - 1], k) + FinishedNow(last, k)
  }

  function RoundCount(events: seq<Event>): (n: nat)
    ensures forall event :: event in events ==> |event| <= n
  {
    if events == [] then 0
    else
      var before, last := RoundCount(events[..|events| - 1]), |events[|events| - 1]|;
      if last > before then last else before
  }

  function FinishedRounds(events: seq<Event>): (rounds: seq<seq<Finished>>) {
    seq(RoundCount(events), k requires 0 <= k < RoundCount(events) => FinishedRound(events, k))
  }

  lemma FinishedIsListed(events: seq<Event>, k: nat, f: Finished) returns (e: Entry)
    requires k < |FinishedRounds(events)| && f in FinishedRounds(events)[k]
    ensures e in Entries(events) && e.game.decided && FinishedOf(e.game) == f
  {
    assert f in FinishedRound(events, k);
    var event: Event :| event in events && f in FinishedNow(event, k);
    var m :| m in event[k].matches && m.decided && FinishedOf(m) == f;
    e := Entry(event[k].code, m);
    assert event[k] in event && e in RoundEntries(event[k].code, event[k].matches);
    assert e in EventEntries(event);
    var j :| 0 <= j < |events| && events[j] == event;
  }

  /** The event and the round a match is listed in. */
  lemma ListedIn(events: seq<Event>, e: Entry) returns (event: Event, k: nat)
    requires e in Entries(events)
    ensures event in events && k < |event| && e.game in event[k].matches
  {
    var j :| 0 <= j < |events| && e in EventEntries(events[j]);
    event := events[j];
    var r: Round :| r in event && e in RoundEntries(r.code, r.matches);
    k :| 0 <= k < |event| && event[k] == r;
  }

  lemma ListedIsFinished(events: seq<Event>, e: Entry) returns (k: nat, i: nat)
    requires e in Entries(events) && e.game.decided
    ensures k < |FinishedRounds(events)| && i < |FinishedRounds(events)[k]|
    ensures FinishedRounds(events)[k][i] == FinishedOf(e.game)
  {
    var event;
    event, k := ListedIn(events, e);
    assert FinishedOf(e.game) in FinishedNow(event, k);
    assert FinishedOf(e.game) in FinishedRound(events, k);
    i :| 0 <= i < |FinishedRound(events, k)| && FinishedRound(events, k)[i] == FinishedOf(e.game);
  }

  /** The `a`-th finished match of a list is its `i`-th match. */
  lemma {:induction false} FinishedFrom(matches: seq<Match>, a: nat) returns (i: nat)
    requires a < |FinishedAmong(matches)|
    ensures i < |matches| && matches[i].decided && FinishedAmong(matches)[a] == FinishedOf(matches[i])
    decreases |matches|
  {
    var before := matches[..|matches| - 1];
    if a < |FinishedAmong(before)| {
      i := FinishedFrom(before, a);
    } else {
      i := |matches| - 1;
    }
  }

  lemma {:induction false} FinishedInTurn(matches: seq<Match>, a: nat, b: nat) returns (i: nat, j: nat)
    requires a < b < |FinishedAmong(matches)|
    ensures i < j < |matches| && matches[i].decided && matches[j].decided
    ensures FinishedAmong(matches)[a] == FinishedOf(matches[i]) && FinishedAmong(matches)[b] == FinishedOf(matches[j])
    decreases |matches|
  {
    var before := matches[..|matches| - 1];
    if b < |FinishedAmong(before)| {
      i, j := FinishedInTurn(before, a, b);
    } else {
      i := FinishedFrom(before, a);
      j := |matches| - 1;
    }
  }

  /** A finished match in the `k`-th round of the event at position `event`. */
  predicate FinishedAt(events: seq<Event>, k: nat, event: nat, i: nat, f: Finished) {
    && event < |events| && k < |events[event]| && i < |events[event][k].matches|
    && events[event][k].matches[i].decided && FinishedOf(events[event][k].matches[i]) == f
  }

  lemma {:induction false} RoundFrom(events: seq<Event>, k: nat, a: nat) returns (event: nat, i: nat)
    requires a < |FinishedRound(events, k)|
    ensures FinishedAt(events, k, event, i, FinishedRound(events, k)[a])
    decreases |events|
  {
    var before, last := events[..|events| - 1], events[|events| - 1];
    if a < |FinishedRound(before, k)| {
      event, i := RoundFrom(before, k, a);
    } else {
      event := |events| - 1;
      i := FinishedFrom(last[k].matches, a - |FinishedRound(before, k)|);
    }
  }

  /** The finished matches of a round are listed event by event, and as each event lists them. */
  lemma {:induction false} FinishedRoundInTurn(events: seq<Event>, k: nat, a: nat, b: nat)
    returns (event: nat, i: nat, event': nat, i': nat)
    requires a < b < |FinishedRound(events, k)|
    ensures FinishedAt(events, k, event, i, FinishedRound(events, k)[a])
    ensures FinishedAt(events, k, event', i', FinishedRound(events, k)[b])
    ensures event < event' || (event == event' && i < i')
    decreases |events|
  {
    var before, last := events[..|events| - 1], events[|events| - 1];
    var n := |FinishedRound(before, k)|;
    if b < n {
      event, i, event', i' := FinishedRoundInTurn(before, k, a, b);
    } else if a < n {
      event, i := RoundFrom(before, k, a);
      event' := |events| - 1;
      i' := FinishedFrom(last[k].matches, b - n);
    } else {
      event, event' := |events| - 1, |events| - 1;
      i, i' := FinishedInTurn(last[k].matches, a - n, b - n);
    }
  }

  lemma FinishedArePlayable(events: seq<Event>)
    requires Proper(events)
    ensures Playable(FinishedRounds(events))
  {
    forall k, f | 0 <= k < |FinishedRounds(events)| && f in FinishedRounds(events)[k]
      ensures 1 <= f.duration <= SESSION
    {
      var e := FinishedIsListed(events, k, f);
      assert ProperMatch(e.game);
    }
  }

  // ---- startable matches ----------------------------------------------------

  function DecidedIds(entries: seq<Entry>): set<string> {
    set e | e in entries && e.game.decided :: e.game.id
  }

  /** A match without a result whose feeders have theirs. */
  predicate Startable(decided: set<string>, m: Match) {
    !m.decided && forall f | f in m.feeders :: f in decided
  }

  function StartableAmong(decided: set<string>, entries: seq<Entry>): (ids: seq<string>)
    ensures forall id :: id in ids <==> exists e :: e in entries && Startable(decided, e.game) && e.game.id == id
  {
    if entries == [] then []
    else
      var last := entries[|entries| - 1];
      StartableAmong(decided, entries[..|entries| - 1]) + if Startable(decided, last.game) then [last.game.id] else []
  }

  /** The matches of an event that could be played now. */
  function StartableUnits(event: Event): seq<string> {
    StartableAmong(DecidedIds(EventEntries(event)), EventEntries(event))
  }

  /** What could be played now, over all events. */
  function AllStartable(events: seq<Event>): (ids: seq<string>)
    ensures forall id :: id in ids <==> exists event :: event in events && id in StartableUnits(event)
  {
    if events == [] then [] else AllStartable(events[..|events| - 1]) + StartableUnits(events[|events| - 1])
  }

  lemma {:induction false} StartableOnce(decided: set<string>, entries: seq<Entry>)
    requires DistinctIds(entries)
    ensures Distinct(StartableAmong(decided, entries))
    decreases |entries|
  {
    if entries != [] {
      var before, last := entries[..|entries| - 1], entries[|entries| - 1];
      StartableOnce(decided, before);
      assert forall e :: e in before ==> e.game.id != last.game.id;
      assert last.game.id !in StartableAmong(decided, before);
    }
  }

  lemma StartableIsListed(events: seq<Event>, id: string) returns (e: Entry)
    requires id in AllStartable(events)
    ensures e in Entries(events) && e.game.id == id && !e.game.decided
  {
    var event: Event :| event in events && id in StartableUnits(event);
    var j :| 0 <= j < |events| && events[j] == event;
    e :| e in EventEntries(event) && Startable(DecidedIds(EventEntries(event)), e.game) && e.game.id == id;
  }

  lemma DistinctParts(some: seq<Entry>, more: seq<Entry>)
    requires DistinctIds(some + more)
    ensures DistinctIds(some) && DistinctIds(more)
    ensures forall e, f :: e in some && f in more ==> e.game.id != f.game.id
  {
    var all := some + more;
    forall i, j | 0 <= i < j < |some|
      ensures some[i].game.id != some[j].game.id
    {
      assert all[i] == some[i] && all[j] == some[j];
    }
    forall i, j | 0 <= i < j < |more|
      ensures more[i].game.id != more[j].game.id
    {
      assert all[|some| + i] == more[i] && all[|some| + j] == more[j];
    }
    forall i, j | 0 <= i < |some| && 0 <= j < |more|
      ensures some[i].game.id != more[j].game.id
    {
      assert all[i] == some[i] && all[|some| + j] == more[j];
    }
  }

  lemma DistinctSum<T>(s: seq<T>, t: seq<T>)
    requires Distinct(s) && Distinct(t) && forall x :: x in t ==> x !in s
    ensures Distinct(s + t)
  {
    forall i, j | 0 <= i < j < |s + t|
      ensures (s + t)[i] != (s + t)[j]
    {
      if i < |s| <= j {
        assert s[i] in s && t[j - |s|] in t;
      }
    }
  }

  lemma {:induction false} AllStartableOnce(events: seq<Event>)
    requires DistinctIds(Entries(events))
    ensures Distinct(AllStartable(events))
    decreases |events|
  {
    if events != [] {
      var before, last := events[..|events| - 1], events[|events| - 1];
      DistinctParts(Entries(before), EventEntries(last));
      AllStartableOnce(before);
      StartableOnce(DecidedIds(EventEntries(last)), EventEntries(last));
      forall id | id in StartableUnits(last)
        ensures id !in AllStartable(before)
      {
        var f :| f in EventEntries(last) && f.game.id == id;
        if id in AllStartable(before) {
          var e := StartableIsListed(before, id);
        }
      }
      DistinctSum(AllStartable(before), StartableUnits(last));
    }
  }

  // ---- what could be played now, in terms of rounds and matches ---------------------

  /** A match of the event with that id has a result. */
  ghost predicate HasResult(event: Event, id: string) {
    exists r, m :: r in event && m in r.matches && m.id == id && m.decided
  }

  /** A match of the event with that id has no result, and every match that feeds it has one. */
  ghost predicate Ready(event: Event, id: string) {
    exists r, m :: r in event && m in r.matches && m.id == id && !m.decided
      && forall f :: f in m.feeders ==> HasResult(event, f)
  }

  lemma DecidedHasResult(event: Event, id: string)
    ensures id in DecidedIds(EventEntries(event)) <==> HasResult(event, id)
  {
    if HasResult(event, id) {
      var r, m :| r in event && m in r.matches && m.id == id && m.decided;
      assert Entry(r.code, m) in RoundEntries(r.code, r.matches);
      assert Entry(r.code, m) in EventEntries(event);
    }
  }

  lemma SameDecided(event: Event)
    ensures forall f :: f in DecidedIds(EventEntries(event)) <==> HasResult(event, f)
  {
    forall f
      ensures f in DecidedIds(EventEntries(event)) <==> HasResult(event, f)
    {
      DecidedHasResult(event, f);
    }
  }

  lemma MatchIsListed(event: Event, r: Round, m: Match)
    requires r in event && m in r.matches
    ensures Entry(r.code, m) in EventEntries(event)
  {
    assert Entry(r.code, m) in RoundEntries(r.code, r.matches);
  }

  lemma ListedIsMatch(event: Event, e: Entry) returns (r: Round)
    requires e in EventEntries(event)
    ensures r in event && e.game in r.matches
  {
    r :| r in event && e in RoundEntries(r.code, r.matches);
  }

  lemma StartableIsReady(event: Event, id: string)
    ensures id in StartableUnits(event) <==> Ready(event, id)
  {
    var decided := DecidedIds(EventEntries(event));
    SameDecided(event);
    if id in StartableUnits(event) {
      var e :| e in EventEntries(event) && Startable(decided, e.game) && e.game.id == id;
      var r := ListedIsMatch(event, e);
    }
    if Ready(event, id) {
      var r, m :| r in event && m in r.matches && m.id == id && !m.decided
        && forall f :: f in m.feeders ==> HasResult(event, f);
      MatchIsListed(event, r, m);
      assert Startable(decided, m);
    }
  }

  /** A match could be played now exactly if it has no result, and every match of its event that feeds it
      has one. */
  lemma StartableInPlainTerms(events: seq<Event>, id: string)
    ensures id in AllStartable(events) <==> exists event :: event in events && Ready(event, id)
  {
    forall event | event in events
      ensures id in StartableUnits(event) <==> Ready(event, id)
    {
      StartableIsReady(event, id);
    }
  }

  /** The `a`-th startable match of a list, and where it stands. */
  lemma {:induction false} StartableFrom(decided: set<string>, entries: seq<Entry>, a: nat) returns (n: nat)
    requires a < |StartableAmong(decided, entries)|
    ensures n < |entries| && entries[n].game.id == StartableAmong(decided, entries)[a]
    decreases |entries|
  {
    var before := entries[..|entries| - 1];
    if a < |StartableAmong(decided, before)| {
      n := StartableFrom(decided, before, a);
    } else {
      n := |entries| - 1;
    }
  }

  lemma {:induction false} StartableInTurn(decided: set<string>, entries: seq<Entry>, a: nat, b: nat)
    returns (m: nat, n: nat)
    requires a < b < |StartableAmong(decided, entries)|
    ensures m < n < |entries| && entries[m].game.id == StartableAmong(decided, entries)[a]
    ensures entries[n].game.id == StartableAmong(decided, entries)[b]
    decreases |entries|
  {
    var before := entries[..|entries| - 1];
    if b < |StartableAmong(decided, before)| {
      m, n := StartableInTurn(decided, before, a, b);
    } else {
      m := StartableFrom(decided, before, a);
      n := |entries| - 1;
    }
  }

  // ---- the live wave --------------------------------------------------------

  /** What could be played now, event by event. */
  function ByEvent(events: seq<Event>): (groups: seq<seq<string>>)
    ensures |groups| == |events| && forall j :: 0 <= j < |events| ==> groups[j] == StartableUnits(events[j])
  {
    seq(|events|, j requires 0 <= j < |events| => StartableUnits(events[j]))
  }

  /** The first match of each group that has one. */
  function Firsts(groups: seq<seq<string>>): seq<string> {
    if groups == [] then []
    else
      var group := groups[|groups| - 1];
      Firsts(groups[..|groups| - 1]) + group[..if group == [] then 0 else 1]
  }

  /** The matches after the first, group by group. */
  function Others(groups: seq<seq<string>>): seq<string> {
    if groups == [] then []
    else
      var group := groups[|groups| - 1];
      Others(groups[..|groups| - 1]) + group[if group == [] then 0 else 1..]
  }

  /** What could be played now, the first matches of the events before the others. */
  function InLine(events: seq<Event>): seq<string> {
    Firsts(ByEvent(events)) + Others(ByEvent(events))
  }

  lemma {:induction false} FirstsAndOthers(events: seq<Event>)
    ensures multiset(InLine(events)) == multiset(AllStartable(events))
    decreases |events|
  {
    if events != [] {
      var before := events[..|events| - 1];
      FirstsAndOthers(before);
      assert ByEvent(events)[..|events| - 1] == ByEvent(before);
      var group := StartableUnits(events[|events| - 1]);
      var n := if group == [] then 0 else 1;
      assert group == group[..n] + group[n..];
    }
  }

  // ---- whose turn it is ------------------------------------------------------

  /** A position in the list of an event. */
  datatype Turn = Turn(event: nat, position: nat)

  /** The match at that position has that id and could be played now. */
  ghost predicate Waits(events: seq<Event>, t: Turn, id: string) {
    && t.event < |events| && t.position < |EventEntries(events[t.event])|
    && EventEntries(events[t.event])[t.position].game.id == id && Ready(events[t.event], id)
  }

  /** No match listed before it in its event could be played now. */
  ghost predicate IsFirst(events: seq<Event>, t: Turn)
    requires t.event < |events| && t.position < |EventEntries(events[t.event])|
  {
    forall n :: 0 <= n < t.position ==> !Ready(events[t.event], EventEntries(events[t.event])[n].game.id)
  }

  /** The first matches of the events go before all others; otherwise event by event, as listed. */
  ghost predicate GoesBefore(events: seq<Event>, s: Turn, t: Turn)
    requires s.event < |events| && s.position < |EventEntries(events[s.event])|
    requires t.event < |events| && t.position < |EventEntries(events[t.event])|
  {
    if IsFirst(events, s) != IsFirst(events, t) then IsFirst(events, s)
    else s.event < t.event || (s.event == t.event && s.position < t.position)
  }

  ghost predicate Sooner(events: seq<Event>, x: string, y: string) {
    exists s, t :: Waits(events, s, x) && Waits(events, t, y) && GoesBefore(events, s, t)
  }

  /** Where the `a`-th startable match of an event waits; the first of them is the first of its event. */
  lemma GroupFrom(events: seq<Event>, j: nat, a: nat) returns (t: Turn)
    requires j < |events| && DistinctIds(EventEntries(events[j])) && a < |StartableUnits(events[j])|
    ensures t.event == j && Waits(events, t, StartableUnits(events[j])[a])
    ensures IsFirst(events, t) <==> a == 0
  {
    var event, group := events[j], StartableUnits(events[j]);
    StartableIsReady(event, group[a]);
    var n := StartableFrom(DecidedIds(EventEntries(event)), EventEntries(event), a);
    t := Turn(j, n);
    if a == 0 {
      FirstIsFirst(event, n);
    } else {
      var m, k := StartableInTurn(DecidedIds(EventEntries(event)), EventEntries(event), 0, a);
      StartableIsReady(event, group[0]);
      assert k == n;
      assert Ready(event, EventEntries(event)[m].game.id);
    }
  }

  lemma FirstIsFirst(event: Event, n: nat)
    requires DistinctIds(EventEntries(event)) && n < |EventEntries(event)| && StartableUnits(event) != []
    requires EventEntries(event)[n].game.id == StartableUnits(event)[0]
    ensures forall m :: 0 <= m < n ==> !Ready(event, EventEntries(event)[m].game.id)
  {
    var group, entries := StartableUnits(event), EventEntries(event);
    forall m | 0 <= m < n
      ensures !Ready(event, entries[m].game.id)
    {
      var id := entries[m].game.id;
      StartableIsReady(event, id);
      if id in group {
        var b :| 0 <= b < |group| && group[b] == id;
        assert b > 0;
        var first, second := StartableInTurn(DecidedIds(entries), entries, 0, b);
      }
    }
  }

  lemma GroupInTurn(events: seq<Event>, j: nat, a: nat, b: nat)
    requires j < |events| && DistinctIds(EventEntries(events[j])) && a < b < |StartableUnits(events[j])|
    ensures Sooner(events, StartableUnits(events[j])[a], StartableUnits(events[j])[b])
  {
    var s := GroupFrom(events, j, a);
    var t := GroupFrom(events, j, b);
    var entries := EventEntries(events[j]);
    var m, n := StartableInTurn(DecidedIds(entries), entries, a, b);
    assert m == s.position && n == t.position;
    assert GoesBefore(events, s, t);
  }

  lemma {:induction false} FirstsFrom(groups: seq<seq<string>>, a: nat) returns (j: nat)
    requires a < |Firsts(groups)|
    ensures j < |groups| && groups[j] != [] && Firsts(groups)[a] == groups[j][0]
    decreases |groups|
  {
    if a < |Firsts(groups[..|groups| - 1])| {
      j := FirstsFrom(groups[..|groups| - 1], a);
    } else {
      j := |groups| - 1;
    }
  }

  lemma {:induction false} FirstsInTurn(groups: seq<seq<string>>, a: nat, b: nat) returns (j: nat, l: nat)
    requires a < b < |Firsts(groups)|
    ensures j < l < |groups| && groups[j] != [] && groups[l] != []
    ensures Firsts(groups)[a] == groups[j][0] && Firsts(groups)[b] == groups[l][0]
    decreases |groups|
  {
    var before := groups[..|groups| - 1];
    if b < |Firsts(before)| {
      j, l := FirstsInTurn(before, a, b);
    } else {
      j := FirstsFrom(before, a);
      l := |groups| - 1;
    }
  }

  lemma {:induction false} OthersFrom(groups: seq<seq<string>>, a: nat) returns (j: nat, n: nat)
    requires a < |Others(groups)|
    ensures j < |groups| && 0 < n < |groups[j]| && Others(groups)[a] == groups[j][n]
    decreases |groups|
  {
    var before := groups[..|groups| - 1];
    if a < |Others(before)| {
      j, n := OthersFrom(before, a);
    } else {
      j, n := |groups| - 1, a - |Others(before)| + 1;
    }
  }

  lemma {:induction false} OthersInTurn(groups: seq<seq<string>>, a: nat, b: nat)
    returns (j: nat, m: nat, l: nat, n: nat)
    requires a < b < |Others(groups)|
    ensures j < |groups| && 0 < m < |groups[j]| && Others(groups)[a] == groups[j][m]
    ensures l < |groups| && 0 < n < |groups[l]| && Others(groups)[b] == groups[l][n]
    ensures j < l || (j == l && m < n)
    decreases |groups|
  {
    var before := groups[..|groups| - 1];
    if b < |Others(before)| {
      j, m, l, n := OthersInTurn(before, a, b);
    } else {
      l, n := |groups| - 1, b - |Others(before)| + 1;
      if a < |Others(before)| {
        j, m := OthersFrom(before, a);
      } else {
        j, m := |groups| - 1, a - |Others(before)| + 1;
      }
    }
  }

  lemma {:induction false} EventIsDistinct(events: seq<Event>, j: nat)
    requires DistinctIds(Entries(events)) && j < |events|
    ensures DistinctIds(EventEntries(events[j]))
    decreases |events|
  {
    DistinctParts(Entries(events[..|events| - 1]), EventEntries(events[|events| - 1]));
    if j < |events| - 1 {
      EventIsDistinct(events[..|events| - 1], j);
    }
  }

  /** First and other matches are listed in their turns. */
  lemma AllInTurn(events: seq<Event>, a: nat, b: nat)
    requires Proper(events) && a < b < |InLine(events)|
    ensures Sooner(events, InLine(events)[a], InLine(events)[b])
  {
    var groups := ByEvent(events);
    var j, m, l, n := PlacesInLine(groups, a, b);
    TurnsInTurn(events, j, m, l, n);
  }

  lemma PlacesInLine(groups: seq<seq<string>>, a: nat, b: nat) returns (j: nat, m: nat, l: nat, n: nat)
    requires a < b < |Firsts(groups) + Others(groups)|
    ensures j < |groups| && m < |groups[j]| && (Firsts(groups) + Others(groups))[a] == groups[j][m]
    ensures l < |groups| && n < |groups[l]| && (Firsts(groups) + Others(groups))[b] == groups[l][n]
    ensures if (m == 0) != (n == 0) then m == 0 else j < l || (j == l && m < n)
  {
    var count := |Firsts(groups)|;
    if b < count {
      j, l := FirstsInTurn(groups, a, b);
      m, n := 0, 0;
    } else if a < count {
      j := FirstsFrom(groups, a);
      m := 0;
      l, n := OthersFrom(groups, b - count);
    } else {
      j, m, l, n := OthersInTurn(groups, a - count, b - count);
    }
  }

  lemma TurnsInTurn(events: seq<Event>, j: nat, a: nat, l: nat, b: nat)
    requires Proper(events) && j < |events| && a < |StartableUnits(events[j])|
    requires l < |events| && b < |StartableUnits(events[l])|
    requires if (a == 0) != (b == 0) then a == 0 else j < l || (j == l && a < b)
    ensures Sooner(events, StartableUnits(events[j])[a], StartableUnits(events[l])[b])
  {
    EventIsDistinct(events, j);
    EventIsDistinct(events, l);
    if j == l {
      GroupInTurn(events, j, a, b);
    } else {
      var s := GroupFrom(events, j, a);
      var t := GroupFrom(events, l, b);
      assert GoesBefore(events, s, t);
    }
  }

  function AtMostOf<T>(s: seq<T>, n: nat): seq<T> {
    if n <= |s| then s[..n] else s
  }

  lemma DistinctByCount<T>(s: seq<T>, t: seq<T>)
    requires Distinct(t) && multiset(s) == multiset(t)
    ensures Distinct(s) && |s| == |t|
  {
    assert |multiset(s)| == |s| && |multiset(t)| == |t|;
    forall i, j | 0 <= i < j < |s|
      ensures s[i] != s[j]
    {
      if s[i] == s[j] {
        assert s == s[..i] + [s[i]] + s[i + 1..j] + [s[j]] + s[j + 1..];
        assert multiset(s)[s[i]] >= 2;
        OnceEach(t, s[i]);
      }
    }
  }

  lemma {:induction false} OnceEach<T>(t: seq<T>, x: T)
    requires Distinct(t)
    ensures multiset(t)[x] <= 1
    decreases |t|
  {
    if t != [] {
      var before := t[..|t| - 1];
      assert t == before + [t[|t| - 1]];
      OnceEach(before, x);
    }
  }

  /** What the live wave is of the matches that could be played now: as many as there are courts for, in their
      turns, and before all others. */
  ghost predicate WaveOf(events: seq<Event>, courts: nat, live: seq<string>) {
    && Distinct(live) && (forall id :: id in live ==> id in AllStartable(events))
    && |live| == (if courts <= |AllStartable(events)| then courts else |AllStartable(events)|)
    && (forall a, b :: 0 <= a < b < |live| ==> Sooner(events, live[a], live[b]))
    && (forall x, y :: x in live && y in AllStartable(events) && y !in live ==> Sooner(events, x, y))
  }

  /** First and other matches together are what could be played, each once. */
  lemma InLineOnce(events: seq<Event>)
    requires Proper(events)
    ensures Distinct(InLine(events)) && |InLine(events)| == |AllStartable(events)|
    ensures forall id :: id in InLine(events) <==> id in AllStartable(events)
  {
    FirstsAndOthers(events);
    AllStartableOnce(events);
    DistinctByCount(InLine(events), AllStartable(events));
    forall id
      ensures id in InLine(events) <==> id in AllStartable(events)
    {
      assert id in InLine(events) <==> id in multiset(InLine(events));
    }
  }

  lemma TakenInTurn<T>(firsts: seq<T>, others: seq<T>, n: nat)
    ensures AtMostOf(if |firsts| < n then firsts + AtMostOf(others, n - |firsts|) else firsts, n) ==
      AtMostOf(firsts + others, n)
  {
  }

  lemma FirstOfAll<T>(all: seq<T>, n: nat)
    requires Distinct(all)
    ensures AtMostOf(all, n) <= all && Distinct(AtMostOf(all, n))
    ensures forall b :: 0 <= b < |all| ==> (all[b] in AtMostOf(all, n) <==> b < |AtMostOf(all, n)|)
  {
  }

  /** Who is in the first part of a line goes before whoever is not. */
  lemma FirstGoBefore(events: seq<Event>, all: seq<string>, live: seq<string>, x: string, y: string)
    requires live <= all && x in live && y in all && y !in live
    requires forall a, b :: 0 <= a < b < |all| ==> Sooner(events, all[a], all[b])
    ensures Sooner(events, x, y)
  {
    var a :| 0 <= a < |live| && live[a] == x;
    var b :| 0 <= b < |all| && all[b] == y;
    assert all[a] == x && a < b;
  }

  lemma LineInTurn(events: seq<Event>)
    requires Proper(events)
    ensures forall a, b :: 0 <= a < b < |InLine(events)| ==> Sooner(events, InLine(events)[a], InLine(events)[b])
  {
    forall a, b | 0 <= a < b < |InLine(events)|
      ensures Sooner(events, InLine(events)[a], InLine(events)[b])
    {
      AllInTurn(events, a, b);
    }
  }

  lemma WaveInTurn(events: seq<Event>, courts: nat)
    requires Proper(events)
    ensures WaveOf(events, courts, AtMostOf(InLine(events), courts))
  {
    var all := InLine(events);
    var live := AtMostOf(all, courts);
    InLineOnce(events);
    FirstOfAll(all, courts);
    LineInTurn(events);
    forall x, y | x in live && y in AllStartable(events) && y !in live
      ensures Sooner(events, x, y)
    {
      FirstGoBefore(events, all, live, x, y);
    }
  }

  /** The matches on court: one of each event that has one, then more, until every court has a match
      or nothing is left to play. */
  method LiveWave(events: seq<Event>, courts: nat) returns (live: seq<string>)
    requires Proper(events)
    ensures WaveOf(events, courts, live)
  {
    var groups := ByEvent(events);
    live := Firsts(groups);
    var overflow := Others(groups);
    TakenInTurn(live, overflow, courts);
    WaveInTurn(events, courts);
    if |live| < courts {
      live := live + AtMostOf(overflow, courts - |live|);
    }
    live := AtMostOf(live, courts);
  }
}
