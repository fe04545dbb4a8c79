/** When players may be scheduled: the windows they allow, cut to the window of a round. */
module Availability {
  import opened Bracket
  import Courts
  import opened Intervals

  type PlayerId = string

  /** The windows a player allows, none meaning all, and the rest between two matches. */
  datatype Extras = Extras(windows: seq<Block>, rest: int)

  datatype Participant = Single | Team(members: seq<PlayerId>)

  /** Some window has the slot `x`. */
  ghost predicate Open(windows: seq<Block>, x: int) {
    exists w :: w in windows && w.start <= x < w.end
  }

  predicate Inside(w: Block, bound: Block) {
    bound.start <= w.start < w.end <= bound.end
  }

  /** In the order of their starts, and of their ends if those are equal. */
  ghost predicate ByTime(windows: seq<Block>) {
    forall i, j :: 0 <= i < j < |windows| ==>
      || windows[i].start < windows[j].start
      || (windows[i].start == windows[j].start && windows[i].end <= windows[j].end)
  }

  // ---- cutting windows ------------------------------------------------------

  function Meet(a: Block, b: Block): Block {
    Block(Courts.Max(a.start, b.start), if a.end <= b.end then a.end else b.end)
  }

  function Unempty(w: Block): seq<Block> {
    if w.start < w.end then [w] else []
  }

  /** The windows cut to `bound`, empty ones dropped. */
  function Clipped(windows: seq<Block>, bound: Block): seq<Block> {
    if windows == [] then []
    else Clipped(windows[..|windows| - 1], bound) + Unempty(Meet(windows[|windows| - 1], bound))
  }

  lemma {:induction false} ClippedInside(windows: seq<Block>, bound: Block, w: Block)
    requires w in Clipped(windows, bound)
    ensures Inside(w, bound)
    decreases |windows|
  {
    if w in Clipped(windows[..|windows| - 1], bound) {
      ClippedInside(windows[..|windows| - 1], bound, w);
    }
  }

  lemma OpenSum(a: seq<Block>, b: seq<Block>, x: int)
    ensures Open(a + b, x) <==> Open(a, x) || Open(b, x)
  {
    if Open(a, x) {
      var w :| w in a && Covers(w, x);
      assert w in a + b;
    }
    if Open(b, x) {
      var w :| w in b && Covers(w, x);
      assert w in a + b;
    }
  }

  lemma OpenOne(w: Block, x: int)
    ensures Open([w], x) <==> Covers(w, x)
    ensures Open(Unempty(w), x) <==> Covers(w, x)
  {
    assert w in [w];
  }

  /** The cut windows are open where the windows are, within the bound. */
  lemma {:induction false} ClippedOpen(windows: seq<Block>, bound: Block, x: int)
    ensures Open(Clipped(windows, bound), x) <==> Open(windows, x) && Covers(bound, x)
    decreases |windows|
  {
    if windows != [] {
      var before, last := windows[..|windows| - 1], windows[|windows| - 1];
      ClippedOpen(before, bound, x);
      assert windows == before + [last];
      OpenSum(before, [last], x);
      OpenSum(Clipped(before, bound), Unempty(Meet(last, bound)), x);
      OpenOne(last, x);
      OpenOne(Meet(last, bound), x);
    }
  }

  method IntersectWindows(windows: seq<Block>, bound: Block) returns (out: seq<Block>)
    ensures out == Clipped(windows, bound)
  {
    out := [];
    for i := 0 to |windows|
      invariant out == Clipped(windows[..i], bound)
    {
      assert windows[..i + 1][..i] == windows[..i];
      var w := Meet(windows[i], bound);
      if w.start < w.end {
        out := out + [w];
      }
    }
    assert windows[..|windows|] == windows;
  }

  const BY_START := (w: Block) => (w.start, w.end)

  lemma SortedOpen(windows: seq<Block>, x: int)
    ensures Open(Sort(windows, BY_START), x) <==> Open(windows, x)
  {
    SortSorts(windows, BY_START);
    assert forall w :: w in Sort(windows, BY_START) <==> w in multiset(Sort(windows, BY_START));
    assert forall w :: w in windows <==> w in multiset(windows);
  }

  /** The windows two lists have in common, in order. */
  method IntersectWindowLists(a: seq<Block>, b: seq<Block>) returns (out: seq<Block>)
    ensures forall x :: Open(out, x) <==> Open(a, x) && Open(b, x)
    ensures ByTime(out)
  {
    var common := [];
    for i := 0 to |a|
      invariant forall x :: Open(common, x) <==> Open(a[..i], x) && Open(b, x)
    {
      var cut := IntersectWindows(b, a[i]);
      assert a[..i + 1] == a[..i] + [a[i]];
      forall x
        ensures Open(common + cut, x) <==> Open(a[..i + 1], x) && Open(b, x)
      {
        OpenSum(common, cut, x);
        OpenSum(a[..i], [a[i]], x);
        OpenOne(a[i], x);
        ClippedOpen(b, a[i], x);
      }
      common := common + cut;
    }
    assert a[..|a|] == a;
    forall x
      ensures Open(Sort(common, BY_START), x) <==> Open(common, x)
    {
      SortedOpen(common, x);
    }
    SortSorts(common, BY_START);
    out := Sort(common, BY_START);
    forall i, j | 0 <= i < j < |out|
      ensures out[i].start < out[j].start || (out[i].start == out[j].start && out[i].end <= out[j].end)
    {
      assert AtMost(BY_START(out[i]), BY_START(out[j]));
    }
  }

  // ---- participants ---------------------------------------------------------

  /** The players a participant id stands for. */
  function People(participants: map<ParticipantId, Participant>, id: ParticipantId): (people: seq<PlayerId>)
    ensures people != []
  {
    if id in participants && participants[id].Team? && participants[id].members != [] then participants[id].members
    else [id]
  }

  /** A team stands for its members; an empty team, a single and an unknown id stand for themselves. */
  lemma WhoStandsForWhom(participants: map<ParticipantId, Participant>, id: ParticipantId, members: seq<PlayerId>)
    ensures members != [] ==> People(participants[id := Team(members)], id) == members
    ensures People(participants[id := Team([])], id) == [id]
    ensures People(participants[id := Single], id) == [id] && People(participants - {id}, id) == [id]
  {
  }

  /** The players of a side; a side that is not empty has some. */
  method ExpandSide(side: Side, participants: map<ParticipantId, Participant>) returns (players: seq<PlayerId>)
    ensures side != [] ==> players != []
    ensures forall p :: p in players <==> exists id :: id in side && p in People(participants, id)
  {
    players := [];
    for i := 0 to |side|
      invariant i > 0 ==> players != []
      invariant forall p :: p in players <==> exists id :: id in side[..i] && p in People(participants, id)
    {
      assert side[..i + 1] == side[..i] + [side[i]];
      players := players + People(participants, side[i]);
    }
    assert side[..|side|] == side;
  }

  predicate Restricted(extras: map<PlayerId, Extras>, person: PlayerId) {
    person in extras && extras[person].windows != []
  }

  /** Whoever of `people` has windows has one with the slot `x`. */
  ghost predicate OpenTo(extras: map<PlayerId, Extras>, people: seq<PlayerId>, x: int) {
    forall m :: m in people && m in extras && extras[m].windows != [] ==>
      exists w :: w in extras[m].windows && w.start <= x < w.end
  }

  /** `windows` allows the slots that all of `people` do; empty if nobody is restricted, or if
      there is no such slot. */
  ghost predicate Allows(extras: map<PlayerId, Extras>, people: seq<PlayerId>, windows: seq<Block>) {
    if windows != [] then forall x :: Open(windows, x) <==> OpenTo(extras, people, x)
    else
      || (forall m :: m in people && m in extras ==> extras[m].windows == [])
      || forall x :: !OpenTo(extras, people, x)
  }

  ghost predicate LongestRest(extras: map<PlayerId, Extras>, people: seq<PlayerId>, rest: int) {
    && (forall m :: m in people && m in extras ==> extras[m].rest <= rest)
    && exists m :: m in people && m in extras && extras[m].rest == rest
  }

  /** The windows common to the members seen so far, if any of them is restricted. */
  ghost predicate Common(extras: map<PlayerId, Extras>, people: seq<PlayerId>, windows: Option<seq<Block>>) {
    match windows
    case None => forall m :: m in people ==> !Restricted(extras, m)
    case Some(open) => forall x :: Open(open, x) <==> OpenTo(extras, people, x)
  }

  method AddMember(extras: map<PlayerId, Extras>, ghost people: seq<PlayerId>, m: PlayerId, windows: Option<seq<Block>>)
    returns (windows': Option<seq<Block>>)
    requires Common(extras, people, windows)
    ensures Common(extras, people + [m], windows')
  {
    windows' := windows;
    if Restricted(extras, m) {
      if windows.None? {
        windows' := Some(extras[m].windows);
      } else {
        var common := IntersectWindowLists(windows.value, extras[m].windows);
        windows' := Some(common);
      }
    }
    if windows'.Some? {
      forall x
        ensures Open(windows'.value, x) <==> OpenTo(extras, people + [m], x)
      {
        assert OpenTo(extras, people + [m], x) <==>
          OpenTo(extras, people, x) && (Restricted(extras, m) ==> Open(extras[m].windows, x));
      }
    }
  }

  /** What a team, or one player, allows; nothing is known if none of them has extras. */
  method ResolveExtras(people: seq<PlayerId>, extras: map<PlayerId, Extras>) returns (resolved: Option<Extras>)
    ensures resolved.None? <==> forall m :: m in people ==> m !in extras
    ensures resolved.Some? ==> Allows(extras, people, resolved.value.windows)
    ensures resolved.Some? ==> LongestRest(extras, people, resolved.value.rest)
  {
    var windows: Option<seq<Block>> := None;
    var rest: Option<int> := None;
    for i := 0 to |people|
      invariant Common(extras, people[..i], windows)
      invariant rest.None? <==> forall m :: m in people[..i] ==> m !in extras
      invariant rest.Some? ==> LongestRest(extras, people[..i], rest.value)
    {
      assert people[..i + 1] == people[..i] + [people[i]];
      windows := AddMember(extras, people[..i], people[i], windows);
      if people[i] in extras {
        rest := Some(if rest.None? then extras[people[i]].rest else Courts.Max(rest.value, extras[people[i]].rest));
        assert people[i] in people[..i + 1];
      }
    }
    assert people[..|people|] == people;
    if rest.None? {
      return None;
    }
    if windows.Some? && windows.value == [] {
      assert forall x :: !Open(windows.value, x);
    }
    return Some(Extras(if windows.None? then [] else windows.value, rest.value));
  }

  // ---- availability ---------------------------------------------------------

  function RoundWindow(bound: Block): seq<Block> {
    if bound.start < 0 || bound.end <= bound.start then [] else [bound]
  }

  /** The availability of `people` in a round: the slots of the round that all of them allow, or the
      whole round if there is none; and no windows at all, which the engine takes as no limit, if the
      round has no slots. */
  ghost predicate RoundAvailability(extras: map<PlayerId, Extras>, people: seq<PlayerId>, bound: Block,
                                    windows: seq<Block>)
  {
    if bound.start < 0 || bound.end <= bound.start then windows == []
    else
      && windows != [] && (forall w :: w in windows ==> Inside(w, bound))
      && if exists x :: bound.start <= x < bound.end && OpenTo(extras, people, x)
         then forall x :: Open(windows, x) <==> bound.start <= x < bound.end && OpenTo(extras, people, x)
         else windows == [bound]
  }

  lemma EmptyIsClosed(windows: seq<Block>, bound: Block)
    ensures Clipped(windows, bound) == [] <==> forall x :: !(Open(windows, x) && Covers(bound, x))
  {
    var clipped := Clipped(windows, bound);
    forall x
      ensures Open(clipped, x) <==> Open(windows, x) && Covers(bound, x)
    {
      ClippedOpen(windows, bound, x);
    }
    if clipped != [] {
      ClippedInside(windows, bound, clipped[0]);
      assert Covers(clipped[0], clipped[0].start) && clipped[0] in clipped;
      assert Open(clipped, clipped[0].start);
    }
  }

  method AvailabilityOf(people: seq<PlayerId>, extras: map<PlayerId, Extras>, bound: Block)
    returns (windows: seq<Block>)
    ensures RoundAvailability(extras, people, bound, windows)
  {
    var resolved := ResolveExtras(people, extras);
    windows := RoundWindow(bound);
    if windows == [] {
      return;
    }
    forall x
      ensures Open([bound], x) <==> Covers(bound, x)
    {
      OpenOne(bound, x);
    }
    if resolved.None? || resolved.value.windows == [] {
      assert Covers(bound, bound.start);
      return;
    }
    var allowed := resolved.value.windows;
    var clipped := IntersectWindows(allowed, bound);
    EmptyIsClosed(allowed, bound);
    if clipped != [] {
      windows := clipped;
      forall x
        ensures Open(windows, x) <==> Covers(bound, x) && OpenTo(extras, people, x)
      {
        ClippedOpen(allowed, bound, x);
      }
      forall w | w in windows
        ensures Inside(w, bound)
      {
        ClippedInside(allowed, bound, w);
      }
    }
  }

  /** The availability of every player of a round. */
  method BuildPlayers(ids: set<PlayerId>, participants: map<ParticipantId, Participant>, bound: Block,
                      extras: map<PlayerId, Extras>)
    returns (players: map<PlayerId, seq<Block>>)
    ensures players.Keys == ids
    ensures forall p :: p in ids ==> RoundAvailability(extras, People(participants, p), bound, players[p])
  {
    players := map[];
    var todo := ids;
    while todo != {}
      invariant todo <= ids && players.Keys == ids - todo
      invariant forall p :: p in players ==> RoundAvailability(extras, People(participants, p), bound, players[p])
      decreases |todo|
    {
      var p :| p in todo;
      var windows := AvailabilityOf(People(participants, p), extras, bound);
      players := players[p := windows];
      todo := todo - {p};
    }
  }
}
