/** The check of a whole schedule: it reports nothing exactly for sound schedules. */
module Validation {
  import Intervals
  import opened Overlap

  datatype Assigned = Assigned(unit: string, court: int, slot: int, duration: int)

  datatype Violation =
    | NotSolved
    | DuplicateAssignment(unit: string)
    | UnknownMatch(unit: string)
    | NotAssigned(units: set<string>)
    | CourtOverlap(clash: Clash)
    | PlayerOverlap(clash: Clash)

  /** A window and what it occupies: a court or a player. */
  datatype Entry<K> = Entry(key: K, window: Window)

  function WindowOf(a: Assigned): Window {
    Window(Intervals.Block(a.slot, a.slot + a.duration), a.unit)
  }

  // ---- grouping -------------------------------------------------------------

  /** Windows that occupy the same thing do not overlap. */
  predicate ApartByKey<K(==)>(entries: seq<Entry<K>>) {
    entries == [] || (FirstApart(entries) && ApartByKey(entries[1..]))
  }

  function Group<K(==)>(entries: seq<Entry<K>>, key: K): seq<Window> {
    if entries == [] then []
    else (if entries[0].key == key then [entries[0].window] else []) + Group(entries[1..], key)
  }

  lemma {:induction false} GroupMembers<K>(entries: seq<Entry<K>>, key: K)
    ensures forall w :: w in Group(entries, key) <==> Entry(key, w) in entries
    decreases |entries|
  {
    if entries != [] {
      GroupMembers(entries[1..], key);
    }
  }

  lemma Reassociated<T>(a: seq<T>, b: seq<T>, c: seq<T>)
    ensures a + (b + c) == (a + b) + c
  {
  }

  lemma {:induction false} GroupAppend<K>(entries: seq<Entry<K>>, e: Entry<K>, key: K)
    ensures Group(entries + [e], key) == Group(entries, key) + (if e.key == key then [e.window] else [])
    decreases |entries|
  {
    var last := if e.key == key then [e.window] else [];
    if entries == [] {
      assert [] + [e] == [e] && [e][1..] == [];
    } else {
      var rest := entries[1..];
      var first := if entries[0].key == key then [entries[0].window] else [];
      assert (entries + [e])[0] == entries[0] && (entries + [e])[1..] == rest + [e];
      GroupAppend(rest, e, key);
      Reassociated(first, Group(rest, key), last);
    }
  }

  lemma GroupStep<K>(entries: seq<Entry<K>>, key: K)
    requires entries != []
    ensures NoOverlap(Group(entries, key), All) <==>
      (entries[0].key == key ==> ClearOf(entries[0].window, Group(entries[1..], key), All))
      && NoOverlap(Group(entries[1..], key), All)
  {
    var rest := Group(entries[1..], key);
    assert ([entries[0].window] + rest)[1..] == rest;
    assert [] + rest == rest;
  }

  ghost predicate GroupsClear<K(!new)>(entries: seq<Entry<K>>) {
    forall key :: NoOverlap(Group(entries, key), All)
  }

  predicate FirstApart<K(==)>(entries: seq<Entry<K>>)
    requires entries != []
  {
    forall e | e in entries[1..] :: e.key == entries[0].key ==> Clear(entries[0].window, e.window, All)
  }

  lemma FirstApartMeans<K>(entries: seq<Entry<K>>)
    requires entries != []
    ensures FirstApart(entries) <==> ClearOf(entries[0].window, Group(entries[1..], entries[0].key), All)
  {
    GroupMembers(entries[1..], entries[0].key);
    if ClearOf(entries[0].window, Group(entries[1..], entries[0].key), All) {
      forall e | e in entries[1..] && e.key == entries[0].key
        ensures Clear(entries[0].window, e.window, All)
      {
        assert e == Entry(entries[0].key, e.window);
      }
    }
  }

  lemma GroupsClearStep<K(!new)>(entries: seq<Entry<K>>)
    requires entries != []
    ensures GroupsClear(entries) <==> FirstApart(entries) && GroupsClear(entries[1..])
  {
    FirstApartMeans(entries);
    GroupStep(entries, entries[0].key);
    if GroupsClear(entries) {
      assert NoOverlap(Group(entries, entries[0].key), All);
      forall key
        ensures NoOverlap(Group(entries[1..], key), All)
      {
        GroupStep(entries, key);
        assert NoOverlap(Group(entries, key), All);
      }
    }
    if FirstApart(entries) && GroupsClear(entries[1..]) {
      forall key
        ensures NoOverlap(Group(entries, key), All)
      {
        GroupStep(entries, key);
        assert NoOverlap(Group(entries[1..], key), All);
      }
    }
  }

  /** Windows are apart exactly if every group of them is free of overlaps. */
  lemma {:induction false} GroupsDecide<K(!new)>(entries: seq<Entry<K>>)
    ensures ApartByKey(entries) <==> GroupsClear(entries)
    decreases |entries|
  {
    if entries != [] {
      GroupsDecide(entries[1..]);
      GroupsClearStep(entries);
    }
  }

  ghost predicate AllNonEmpty<K>(entries: seq<Entry<K>>) {
    forall e :: e in entries ==> e.window.block.start < e.window.block.end
  }

  /** `groups` holds the windows of every key of `entries`. */
  ghost predicate Grouped<K(!new)>(entries: seq<Entry<K>>, groups: map<K, seq<Window>>) {
    && (forall key :: key in groups ==> groups[key] == Group(entries, key))
    && (forall key :: key !in groups ==> Group(entries, key) == [])
  }

  method GroupWindows<K(==, !new)>(entries: seq<Entry<K>>) returns (groups: map<K, seq<Window>>)
    ensures Grouped(entries, groups)
  {
    groups := map[];
    for i := 0 to |entries|
      invariant Grouped(entries[..i], groups)
    {
      var e := entries[i];
      assert entries[..i + 1] == entries[..i] + [e];
      forall key
        ensures Group(entries[..i + 1], key) == Group(entries[..i], key) + (if e.key == key then [e.window] else [])
      {
        GroupAppend(entries[..i], e, key);
      }
      groups := groups[e.key := (if e.key in groups then groups[e.key] else []) + [e.window]];
    }
    assert entries[..|entries|] == entries;
  }

  /** The two windows occupy the same thing, and overlap. */
  ghost predicate Collides<K>(clash: Clash, entries: seq<Entry<K>>) {
    && clash.first.block.start <= clash.second.block.start < clash.first.block.end
    && exists e, f :: e in entries && f in entries && e.key == f.key && e.window == clash.first
         && f.window == clash.second
  }

  lemma RealCollides<K>(entries: seq<Entry<K>>, key: K, found: seq<Clash>)
    requires forall c :: c in found ==> Real(c, Group(entries, key), All)
    ensures forall c :: c in found ==> Collides(c, entries)
  {
    GroupMembers(entries, key);
    forall c | c in found
      ensures Collides(c, entries)
    {
      assert Entry(key, c.first) in entries && Entry(key, c.second) in entries;
    }
  }

  /** The clashes among windows that occupy the same thing. */
  method ClashesByKey<K(==, !new)>(entries: seq<Entry<K>>) returns (clashes: seq<Clash>)
    requires AllNonEmpty(entries)
    ensures clashes == [] <==> ApartByKey(entries)
    ensures forall c :: c in clashes ==> Collides(c, entries)
  {
    var groups := GroupWindows(entries);
    GroupsDecide(entries);
    clashes := [];
    var keys := groups.Keys;
    while keys != {}
      invariant keys <= groups.Keys
      invariant clashes == [] <==> forall key :: key in groups && key !in keys ==> NoOverlap(groups[key], All)
      invariant forall c :: c in clashes ==> Collides(c, entries)
      decreases |keys|
    {
      var key :| key in keys;
      GroupMembers(entries, key);
      var found := AllClashes(groups[key]);
      RealCollides(entries, key, found);
      clashes := clashes + found;
      keys := keys - {key};
    }
    assert forall key :: key !in groups ==> NoOverlap(Group(entries, key), All);
    assert GroupsClear(entries) <==> forall key :: key in groups ==> NoOverlap(Group(entries, key), All);
  }

  // ---- the schedule ---------------------------------------------------------

  function ByCourt(assignments: seq<Assigned>): (entries: seq<Entry<int>>)
    ensures |entries| == |assignments|
    ensures forall i :: 0 <= i < |entries| ==> entries[i] == Entry(assignments[i].court, WindowOf(assignments[i]))
  {
    seq(|assignments|, i requires 0 <= i < |assignments| => Entry(assignments[i].court, WindowOf(assignments[i])))
  }

  function Each(players: seq<string>, w: Window): seq<Entry<string>> {
    if players == [] then [] else [Entry(players[0], w)] + Each(players[1..], w)
  }

  /** One entry for every player of every assigned match that is known. */
  function ByPlayer(matches: map<string, seq<string>>, assignments: seq<Assigned>): seq<Entry<string>> {
    if assignments == [] then []
    else
      (if assignments[0].unit in matches then Each(matches[assignments[0].unit], WindowOf(assignments[0])) else [])
      + ByPlayer(matches, assignments[1..])
  }

  lemma {:induction false} EachNonEmpty(players: seq<string>, w: Window)
    requires w.block.start < w.block.end
    ensures AllNonEmpty(Each(players, w))
    decreases |players|
  {
    if players != [] {
      EachNonEmpty(players[1..], w);
    }
  }

  lemma {:induction false} ByPlayerNonEmpty(matches: map<string, seq<string>>, assignments: seq<Assigned>)
    requires forall a :: a in assignments ==> a.duration > 0
    ensures AllNonEmpty(ByPlayer(matches, assignments))
    decreases |assignments|
  {
    if assignments != [] {
      if assignments[0].unit in matches {
        EachNonEmpty(matches[assignments[0].unit], WindowOf(assignments[0]));
      }
      ByPlayerNonEmpty(matches, assignments[1..]);
    }
  }

  function UnitsOf(assignments: seq<Assigned>): set<string> {
    set a | a in assignments :: a.unit
  }

  /** Every match is assigned once or declared unscheduled, nothing else is assigned, and
      neither a court nor a player is in two places at once. */
  ghost predicate Sound(matches: map<string, seq<string>>, assignments: seq<Assigned>, unscheduled: set<string>) {
    && (forall i, j :: 0 <= i < j < |assignments| ==> assignments[i].unit != assignments[j].unit)
    && UnitsOf(assignments) <= matches.Keys
    && matches.Keys <= UnitsOf(assignments) + unscheduled
    && ApartByKey(ByCourt(assignments))
    && ApartByKey(ByPlayer(matches, assignments))
  }

  // ---- a sound schedule, on the assignments -------------------------------------

  /** Neither is still on when the other starts. */
  predicate Apart(a: Assigned, b: Assigned) {
    a.slot + a.duration <= b.slot || b.slot + b.duration <= a.slot
  }

  predicate SomebodyInBoth(matches: map<string, seq<string>>, a: Assigned, b: Assigned) {
    && a.unit in matches && b.unit in matches
    && exists p | p in matches[a.unit] :: p in matches[b.unit]
  }

  /** Assigned matches on one court, or with a player in common, are apart. */
  ghost predicate NoDoubleBooking(matches: map<string, seq<string>>, assignments: seq<Assigned>) {
    forall i, j :: 0 <= i < j < |assignments| ==>
      && (assignments[i].court == assignments[j].court ==> Apart(assignments[i], assignments[j]))
      && (SomebodyInBoth(matches, assignments[i], assignments[j]) ==> Apart(assignments[i], assignments[j]))
  }

  /** Nobody is listed twice in an assigned match. */
  ghost predicate PlayersOnce(matches: map<string, seq<string>>, assignments: seq<Assigned>) {
    forall a :: a in assignments && a.unit in matches ==> Intervals.Distinct(matches[a.unit])
  }

  lemma {:induction false} ApartPairwise<K>(entries: seq<Entry<K>>)
    ensures ApartByKey(entries) <==> forall i, j :: 0 <= i < j < |entries| && entries[i].key == entries[j].key ==>
      !Meet(entries[i].window, entries[j].window)
    decreases |entries|
  {
    if entries != [] {
      ApartPairwise(entries[1..]);
      assert entries == [entries[0]] + entries[1..];
      assert FirstApart(entries) <==> forall j :: 0 < j < |entries| && entries[0].key == entries[j].key ==>
        !Meet(entries[0].window, entries[j].window) by
      {
        FirstApartAt(entries);
      }
      if ApartByKey(entries) {
        forall i, j | 0 <= i < j < |entries| && entries[i].key == entries[j].key
          ensures !Meet(entries[i].window, entries[j].window)
        {
          assert i > 0 ==> entries[i] == entries[1..][i - 1] && entries[j] == entries[1..][j - 1];
        }
      }
    }
  }

  lemma FirstApartAt<K>(entries: seq<Entry<K>>)
    requires entries != []
    ensures FirstApart(entries) <==> forall j :: 0 < j < |entries| && entries[0].key == entries[j].key ==>
      !Meet(entries[0].window, entries[j].window)
  {
    if FirstApart(entries) {
      forall j | 0 < j < |entries| && entries[0].key == entries[j].key
        ensures !Meet(entries[0].window, entries[j].window)
      {
        assert entries[j] == entries[1..][j - 1] && entries[j] in entries[1..];
      }
    } else {
      var e :| e in entries[1..] && e.key == entries[0].key && !Clear(entries[0].window, e.window, All);
      var j :| 0 <= j < |entries[1..]| && entries[1..][j] == e;
      assert entries[j + 1] == e;
    }
  }

  /** No window of the one list meets one of the other with the same key. */
  ghost predicate AllApart<K(!new)>(some: seq<Entry<K>>, more: seq<Entry<K>>) {
    forall e, f :: e in some && f in more && e.key == f.key ==> !Meet(e.window, f.window)
  }

  lemma {:induction false} ApartSum<K(!new)>(some: seq<Entry<K>>, more: seq<Entry<K>>)
    ensures ApartByKey(some + more) <==> ApartByKey(some) && ApartByKey(more) && AllApart(some, more)
    decreases |some|
  {
    if some == [] {
      assert some + more == more;
    } else {
      assert (some + more)[0] == some[0] && (some + more)[1..] == some[1..] + more;
      assert forall e :: e in some <==> e == some[0] || e in some[1..];
      ApartSum(some[1..], more);
    }
  }

  lemma {:induction false} EachMembers(players: seq<string>, w: Window)
    ensures forall e :: e in Each(players, w) <==> e.key in players && e.window == w
    decreases |players|
  {
    if players != [] {
      EachMembers(players[1..], w);
      assert forall p :: p in players <==> p == players[0] || p in players[1..];
    }
  }

  /** The entries of one match are apart exactly if nobody is listed twice. */
  lemma {:induction false} EachApart(players: seq<string>, w: Window)
    requires w.block.start < w.block.end
    ensures ApartByKey(Each(players, w)) <==> Intervals.Distinct(players)
    decreases |players|
  {
    if players != [] {
      var rest := players[1..];
      EachApart(rest, w);
      EachMembers(rest, w);
      ApartSum([Entry(players[0], w)], Each(rest, w));
      assert ApartByKey([Entry(players[0], w)]);
      assert players == [players[0]] + rest;
      if players[0] in rest {
        assert Entry(players[0], w) in Each(rest, w);
      }
    }
  }

  /** An entry for a player of an assigned match. */
  ghost predicate PlaysIn(matches: map<string, seq<string>>, assignments: seq<Assigned>, e: Entry<string>) {
    exists a :: a in assignments && a.unit in matches && e.key in matches[a.unit] && e.window == WindowOf(a)
  }

  lemma {:induction false} ByPlayerMembers(matches: map<string, seq<string>>, assignments: seq<Assigned>)
    ensures forall e :: e in ByPlayer(matches, assignments) <==> PlaysIn(matches, assignments, e)
    decreases |assignments|
  {
    if assignments != [] {
      var a, rest := assignments[0], assignments[1..];
      ByPlayerMembers(matches, rest);
      assert forall b :: b in assignments <==> b == a || b in rest;
      if a.unit in matches {
        EachMembers(matches[a.unit], WindowOf(a));
      }
    }
  }

  /** The first assigned match is apart from all others that one of its players plays in. */
  ghost predicate FirstIsApart(matches: map<string, seq<string>>, assignments: seq<Assigned>)
    requires assignments != []
  {
    forall b :: b in assignments[1..] && SomebodyInBoth(matches, assignments[0], b) ==> Apart(assignments[0], b)
  }

  lemma FirstPlayersApart(matches: map<string, seq<string>>, assignments: seq<Assigned>)
    requires assignments != [] && assignments[0].unit in matches
    ensures FirstIsApart(matches, assignments) <==>
      AllApart(Each(matches[assignments[0].unit], WindowOf(assignments[0])), ByPlayer(matches, assignments[1..]))
  {
    var a, rest := assignments[0], assignments[1..];
    var players, w := matches[a.unit], WindowOf(a);
    EachMembers(players, w);
    ByPlayerMembers(matches, rest);
    if FirstIsApart(matches, assignments) {
      forall e, f | e in Each(players, w) && f in ByPlayer(matches, rest) && e.key == f.key
        ensures !Meet(e.window, f.window)
      {
        var b :| b in rest && b.unit in matches && f.key in matches[b.unit] && f.window == WindowOf(b);
        assert SomebodyInBoth(matches, a, b);
      }
    } else {
      var b :| b in rest && SomebodyInBoth(matches, a, b) && !Apart(a, b);
      var p :| p in matches[a.unit] && p in matches[b.unit];
      var e, f := Entry(p, w), Entry(p, WindowOf(b));
      assert PlaysIn(matches, rest, f);
      assert e in Each(players, w) && f in ByPlayer(matches, rest) && Meet(e.window, f.window);
    }
  }

  ghost predicate PlayersApart(matches: map<string, seq<string>>, assignments: seq<Assigned>) {
    forall i, j :: 0 <= i < j < |assignments| && SomebodyInBoth(matches, assignments[i], assignments[j]) ==>
      Apart(assignments[i], assignments[j])
  }

  lemma PlayersApartStep(matches: map<string, seq<string>>, assignments: seq<Assigned>)
    requires assignments != []
    ensures PlayersApart(matches, assignments) <==>
      FirstIsApart(matches, assignments) && PlayersApart(matches, assignments[1..])
  {
    var rest := assignments[1..];
    if PlayersApart(matches, assignments) {
      forall b | b in rest && SomebodyInBoth(matches, assignments[0], b)
        ensures Apart(assignments[0], b)
      {
        var j :| 0 <= j < |rest| && rest[j] == b;
        assert assignments[j + 1] == b;
      }
      forall i, j | 0 <= i < j < |rest| && SomebodyInBoth(matches, rest[i], rest[j])
        ensures Apart(rest[i], rest[j])
      {
        assert rest[i] == assignments[i + 1] && rest[j] == assignments[j + 1];
      }
    }
    if FirstIsApart(matches, assignments) && PlayersApart(matches, rest) {
      forall i, j | 0 <= i < j < |assignments| && SomebodyInBoth(matches, assignments[i], assignments[j])
        ensures Apart(assignments[i], assignments[j])
      {
        assert assignments[j] == rest[j - 1] && rest[j - 1] in rest;
        assert i > 0 ==> assignments[i] == rest[i - 1];
      }
    }
  }

  /** The entries by player are apart exactly if the matches are, and nobody is listed twice. */
  lemma {:induction false} ByPlayerApart(matches: map<string, seq<string>>, assignments: seq<Assigned>)
    requires forall a :: a in assignments ==> a.duration > 0
    ensures ApartByKey(ByPlayer(matches, assignments)) <==>
      PlayersApart(matches, assignments) && PlayersOnce(matches, assignments)
    decreases |assignments|
  {
    if assignments != [] {
      var a, rest := assignments[0], assignments[1..];
      assert forall b :: b in assignments <==> b == a || b in rest;
      ByPlayerApart(matches, rest);
      PlayersApartStep(matches, assignments);
      if a.unit in matches {
        var first := Each(matches[a.unit], WindowOf(a));
        ApartSum(first, ByPlayer(matches, rest));
        FirstPlayersApart(matches, assignments);
        EachApart(matches[a.unit], WindowOf(a));
      } else {
        assert ByPlayer(matches, assignments) == ByPlayer(matches, rest);
      }
    }
  }

  lemma ByCourtApart(assignments: seq<Assigned>)
    ensures ApartByKey(ByCourt(assignments)) <==>
      forall i, j :: 0 <= i < j < |assignments| && assignments[i].court == assignments[j].court ==>
        Apart(assignments[i], assignments[j])
  {
    ApartPairwise(ByCourt(assignments));
    forall i, j | 0 <= i < j < |assignments|
      ensures Apart(assignments[i], assignments[j]) <==>
        !Meet(ByCourt(assignments)[i].window, ByCourt(assignments)[j].window)
    {
    }
  }

  /** What a sound schedule is: every match assigned once or declared unscheduled, nothing else assigned,
      matches on one court or with a player in common apart, and nobody listed twice in a match. */
  lemma SoundInPlainTerms(matches: map<string, seq<string>>, assignments: seq<Assigned>, unscheduled: set<string>)
    requires forall a :: a in assignments ==> a.duration > 0
    ensures Sound(matches, assignments, unscheduled) <==>
      && (forall i, j :: 0 <= i < j < |assignments| ==> assignments[i].unit != assignments[j].unit)
      && (forall a :: a in assignments ==> a.unit in matches)
      && (forall u :: u in matches ==> u in unscheduled || exists a :: a in assignments && a.unit == u)
      && NoDoubleBooking(matches, assignments) && PlayersOnce(matches, assignments)
  {
    ByPlayerApart(matches, assignments);
    ByCourtApart(assignments);
  }

  /** The match is assigned more than once. */
  ghost predicate Twice(assignments: seq<Assigned>, unit: string) {
    exists i, j :: 0 <= i < j < |assignments| && assignments[i].unit == unit && assignments[j].unit == unit
  }

  ghost predicate Unknown(matches: map<string, seq<string>>, assignments: seq<Assigned>, unit: string) {
    unit !in matches && exists i :: 0 <= i < |assignments| && assignments[i].unit == unit
  }

  /** What is wrong with the ids of the assignments. */
  ghost predicate IdViolation(matches: map<string, seq<string>>, assignments: seq<Assigned>, v: Violation) {
    match v
    case DuplicateAssignment(u) => Twice(assignments, u)
    case UnknownMatch(u) => Unknown(matches, assignments, u)
    case _ => false
  }

  /** One more assignment. */
  lemma NextIds(matches: map<string, seq<string>>, assignments: seq<Assigned>, i: nat, v: Violation)
    requires i < |assignments|
    ensures var unit := assignments[i].unit;
      IdViolation(matches, assignments[..i + 1], v) <==>
      || IdViolation(matches, assignments[..i], v)
      || (v == DuplicateAssignment(unit) && exists j :: 0 <= j < i && assignments[j].unit == unit)
      || (v == UnknownMatch(unit) && unit !in matches)
  {
    var some, next := assignments[..i], assignments[..i + 1];
    assert forall j :: 0 <= j < i ==> some[j] == next[j] == assignments[j];
    assert next[i] == assignments[i];
  }

  method CheckIds(matches: map<string, seq<string>>, assignments: seq<Assigned>) returns (v: seq<Violation>)
    ensures forall x :: x in v <==> IdViolation(matches, assignments, x)
  {
    v := [];
    var seen: set<string> := {};
    for i := 0 to |assignments|
      invariant forall u :: u in seen <==> exists j :: 0 <= j < i && assignments[j].unit == u
      invariant forall x :: x in v <==> IdViolation(matches, assignments[..i], x)
    {
      var unit := assignments[i].unit;
      forall x
        ensures IdViolation(matches, assignments[..i + 1], x) <==>
          || IdViolation(matches, assignments[..i], x)
          || (x == DuplicateAssignment(unit) && unit in seen)
          || (x == UnknownMatch(unit) && unit !in matches)
      {
        NextIds(matches, assignments, i, x);
      }
      if unit in seen {
        v := v + [DuplicateAssignment(unit)];
      }
      seen := seen + {unit};
      if unit !in matches {
        v := v + [UnknownMatch(unit)];
      }
    }
    assert assignments[..|assignments|] == assignments;
  }

  lemma NoIdViolation(matches: map<string, seq<string>>, assignments: seq<Assigned>, v: seq<Violation>)
    requires forall x :: x in v <==> IdViolation(matches, assignments, x)
    ensures v == [] <==>
      (forall i, j :: 0 <= i < j < |assignments| ==> assignments[i].unit != assignments[j].unit)
      && UnitsOf(assignments) <= matches.Keys
  {
    forall i, j | 0 <= i < j < |assignments| && assignments[i].unit == assignments[j].unit
      ensures IdViolation(matches, assignments, DuplicateAssignment(assignments[i].unit))
    {
    }
    forall i | 0 <= i < |assignments| && assignments[i].unit !in matches
      ensures IdViolation(matches, assignments, UnknownMatch(assignments[i].unit))
    {
    }
    assert v != [] ==> v[0] in v;
  }

  method Report(clashes: seq<Clash>, court: bool) returns (v: seq<Violation>)
    ensures |v| == |clashes|
    ensures forall i :: 0 <= i < |v| ==> v[i] == if court then CourtOverlap(clashes[i]) else PlayerOverlap(clashes[i])
  {
    v := seq(|clashes|,
      i requires 0 <= i < |clashes| => if court then CourtOverlap(clashes[i]) else PlayerOverlap(clashes[i]));
  }

  lemma NothingMissing<T>(all: set<T>, a: set<T>, b: set<T>)
    ensures all - a - b == {} <==> all <= a + b
  {
    forall x | x in all
      ensures x in a + b || x in all - a - b
    {
    }
  }

  /** What the report of a solved schedule may hold. */
  ghost predicate Justified(matches: map<string, seq<string>>, assignments: seq<Assigned>, unscheduled: set<string>,
                            v: Violation)
  {
    match v
    case NotSolved => false
    case DuplicateAssignment(u) => Twice(assignments, u)
    case UnknownMatch(u) => Unknown(matches, assignments, u)
    case NotAssigned(units) =>
      units != {} && forall u :: u in units <==>
        u in matches && u !in unscheduled && forall a :: a in assignments ==> a.unit != u
    case CourtOverlap(clash) => Collides(clash, ByCourt(assignments))
    case PlayerOverlap(clash) => Collides(clash, ByPlayer(matches, assignments))
  }

  lemma MissingIsReported(matches: map<string, seq<string>>, assignments: seq<Assigned>, unscheduled: set<string>,
                          units: set<string>)
    ensures Justified(matches, assignments, unscheduled, NotAssigned(units)) <==>
      units != {} && units == matches.Keys - UnitsOf(assignments) - unscheduled
  {
    var missing := matches.Keys - UnitsOf(assignments) - unscheduled;
    forall u
      ensures u in missing <==> u in matches && u !in unscheduled && forall a :: a in assignments ==> a.unit != u
    {
    }
  }

  /** What the parts of the report add up to. */
  lemma ReportAddsUp(matches: map<string, seq<string>>, assignments: seq<Assigned>, unscheduled: set<string>,
                     ids: seq<Violation>, missing: seq<Violation>, courts: seq<Violation>, players: seq<Violation>)
    requires forall x :: x in ids <==> IdViolation(matches, assignments, x)
    requires var units := matches.Keys - UnitsOf(assignments) - unscheduled;
      missing == if units == {} then [] else [NotAssigned(units)]
    requires forall x :: x in courts ==> x.CourtOverlap? && Collides(x.clash, ByCourt(assignments))
    requires forall x :: x in players ==> x.PlayerOverlap? && Collides(x.clash, ByPlayer(matches, assignments))
    ensures var v := ids + missing + courts + players;
      && (forall x :: x in v ==> Justified(matches, assignments, unscheduled, x))
      && (forall x :: Justified(matches, assignments, unscheduled, x) ==>
           x in v || x.CourtOverlap? || x.PlayerOverlap?)
  {
    var missed := matches.Keys - UnitsOf(assignments) - unscheduled;
    forall units
      ensures Justified(matches, assignments, unscheduled, NotAssigned(units)) <==> units != {} && units == missed
    {
      MissingIsReported(matches, assignments, unscheduled, units);
    }
  }

  /** The check finds no violation exactly if the solver has succeeded and the schedule is sound; what it
      finds is there, and it finds every id that is assigned twice, unknown or missing. */
  method CheckSchedule(matches: map<string, seq<string>>, solved: bool, assignments: seq<Assigned>,
                       unscheduled: set<string>)
    returns (v: seq<Violation>)
    requires forall a :: a in assignments ==> a.duration > 0
    ensures v == [] <==> solved && Sound(matches, assignments, unscheduled)
    ensures !solved ==> v == [NotSolved]
    ensures solved ==> forall x :: x in v ==> Justified(matches, assignments, unscheduled, x)
    ensures solved ==> forall x :: Justified(matches, assignments, unscheduled, x) ==>
      x in v || x.CourtOverlap? || x.PlayerOverlap?
  {
    if !solved {
      return [NotSolved];
    }
    v := CheckIds(matches, assignments);
    NoIdViolation(matches, assignments, v);
    var missing := matches.Keys - UnitsOf(assignments) - unscheduled;
    NothingMissing(matches.Keys, UnitsOf(assignments), unscheduled);
    ghost var ids := v;
    if missing != {} {
      v := v + [NotAssigned(missing)];
    }
    var courts := ClashesByKey(ByCourt(assignments));
    ByPlayerNonEmpty(matches, assignments);
    var players := ClashesByKey(ByPlayer(matches, assignments));
    var courtReport := Report(courts, true);
    var playerReport := Report(players, false);
    ReportAddsUp(matches, assignments, unscheduled, ids, if missing == {} then [] else [NotAssigned(missing)],
      courtReport, playerReport);
    v := v + courtReport + playerReport;
  }
}
