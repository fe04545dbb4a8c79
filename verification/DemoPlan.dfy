/** The live demo's plan: completed matches and the live wave are pinned, every other match
    asks for a later slot, and no court is ever booked twice. */
module DemoPlan {
  import opened Intervals
  import opened CourtPlacement
  import opened DemoFloor
  import opened DemoEvents

  /** Where a match of the plan comes from: the chronology, the live wave, or what is still to
      come, as the `position`-th match of its round. */
  datatype Origin = Completed(index: nat) | Live(position: nat) | Pending(code: RoundCode, position: nat)

  datatype Item = Item(unit: string, duration: nat, origin: Origin)

  /** Two slots for every time the courts have been filled. */
  function SlotsAfter(position: nat, courts: nat): nat
    requires courts >= 1
  {
    2 * (position / courts)
  }

  /** The slot a match to come asks for. */
  function PendingSlot(code: RoundCode, position: nat, courts: nat): (slot: nat)
    requires courts >= 1
    ensures slot >= 154
  {
    var base := match code case R32 => 154 case R16 => 192 case QF => 206 case SF => 240 case Other(_) => 246;
    base + SlotsAfter(position, courts)
  }

  // ---- the items of the plan ------------------------------------------------

  predicate InLog(log: seq<Done>, id: string) {
    exists d | d in log :: d.finished.unit == id
  }

  /** Where a match is in the chronology, the last entry counting. */
  function DoneAt(log: seq<Done>, id: string): (index: nat)
    requires InLog(log, id)
    ensures index < |log| && log[index].finished.unit == id
  {
    if log[|log| - 1].finished.unit == id then |log| - 1
    else
      assert exists d :: d in log[..|log| - 1] && d.finished.unit == id;
      DoneAt(log[..|log| - 1], id)
  }

  function PositionOf(live: seq<string>, id: string): (position: nat)
    requires id in live
    ensures position < |live| && live[position] == id
  {
    if live[0] == id then 0 else 1 + PositionOf(live[1..], id)
  }

  /** A match that is neither finished nor on court. */
  predicate ToCome(live: seq<string>, m: Match) {
    !m.decided && m.id !in live
  }

  /** How many matches to come are listed under that code before the `n`-th. */
  function CountBefore(entries: seq<Entry>, live: seq<string>, n: nat, code: RoundCode): nat
    requires n <= |entries|
  {
    if n == 0 then 0
    else
      CountBefore(entries, live, n - 1, code) +
      if ToCome(live, entries[n - 1].game) && entries[n - 1].code == code then 1 else 0
  }

  /** What the `n`-th entry adds to the plan; matches that could be played but are not on court stay
      off it, though they count as matches of their round. */
  function ItemsAt(entries: seq<Entry>, log: seq<Done>, live: seq<string>, queued: seq<string>, n: nat): seq<Item>
    requires n < |entries| && (entries[n].game.decided ==> InLog(log, entries[n].game.id))
  {
    var m := entries[n].game;
    if m.decided then [Item(m.id, m.duration, Completed(DoneAt(log, m.id)))]
    else if m.id in live then [Item(m.id, m.duration, Live(PositionOf(live, m.id)))]
    else if m.id in queued then []
    else [Item(m.id, m.duration, Pending(entries[n].code, CountBefore(entries, live, n, entries[n].code)))]
  }

  ghost predicate AllLogged(entries: seq<Entry>, log: seq<Done>) {
    forall e :: e in entries && e.game.decided ==> InLog(log, e.game.id)
  }

  function Items(entries: seq<Entry>, log: seq<Done>, live: seq<string>, queued: seq<string>, n: nat): seq<Item>
    requires n <= |entries| && AllLogged(entries, log)
  {
    if n == 0 then []
    else Items(entries, log, live, queued, n - 1) + ItemsAt(entries, log, live, queued, n - 1)
  }

  function Counted(counts: map<RoundCode, nat>, code: RoundCode): nat {
    if code in counts then counts[code] else 0
  }

  /** List the items of the plan, counting the matches to come of each round. */
  method ListItems(entries: seq<Entry>, log: seq<Done>, live: seq<string>, queued: seq<string>)
    returns (items: seq<Item>)
    requires AllLogged(entries, log)
    ensures items == Items(entries, log, live, queued, |entries|)
  {
    items := [];
    var counts: map<RoundCode, nat> := map[];
    for i := 0 to |entries|
      invariant items == Items(entries, log, live, queued, i)
      invariant forall code :: Counted(counts, code) == CountBefore(entries, live, i, code)
    {
      var m := entries[i].game;
      assert entries[i] in entries;
      if m.decided {
        items := items + [Item(m.id, m.duration, Completed(DoneAt(log, m.id)))];
      } else if m.id in live {
        items := items + [Item(m.id, m.duration, Live(PositionOf(live, m.id)))];
      } else {
        var position := Counted(counts, entries[i].code);
        counts := counts[entries[i].code := position + 1];
        if m.id !in queued {
          items := items + [Item(m.id, m.duration, Pending(entries[i].code, position))];
        }
      }
    }
  }

  /** What the items of a plan are, of which no two stand for the same match. */
  ghost predicate PlanOf(courts: nat, log: seq<Done>, live: seq<string>, items: seq<Item>) {
    && courts >= 1 && Sporting(courts, log) && !TooLong(log) && |live| <= courts
    && AllItems(log, live, items) && OnceEachUnit(items)
  }

  ghost predicate AllItems(log: seq<Done>, live: seq<string>, items: seq<Item>) {
    forall k :: 0 <= k < |items| ==> ItemOf(log, live, items[k])
  }

  ghost predicate OnceEachUnit(items: seq<Item>) {
    forall k, l :: 0 <= k < l < |items| ==> items[k].unit != items[l].unit
  }

  predicate ItemOf(log: seq<Done>, live: seq<string>, item: Item) {
    && item.duration > 0
    && match item.origin
       case Completed(index) =>
         index < |log| && log[index].finished.unit == item.unit && item.duration == log[index].finished.duration
       case Live(position) => position < |live| && live[position] == item.unit
       case Pending(_, _) => true
  }

  /** The chronology holds the finished matches of the entries, and nothing else. */
  ghost predicate LogOf(entries: seq<Entry>, log: seq<Done>) {
    AllLogged(entries, log) && forall d :: d in log ==> Recalls(entries, d)
  }

  ghost predicate Recalls(entries: seq<Entry>, d: Done) {
    exists e :: e in entries && e.game.decided && FinishedOf(e.game) == d.finished
  }

  /** A finished match is in the chronology as it is listed. */
  lemma DoneIs(entries: seq<Entry>, log: seq<Done>, e: Entry)
    requires ProperList(entries) && LogOf(entries, log) && e in entries && InLog(log, e.game.id)
    ensures e.game.decided && log[DoneAt(log, e.game.id)].finished == FinishedOf(e.game)
  {
    var d := log[DoneAt(log, e.game.id)];
    assert Recalls(entries, d);
    var f :| f in entries && f.game.decided && FinishedOf(f.game) == d.finished;
    SameId(entries, e, f);
  }

  lemma ItemsAtAreItems(entries: seq<Entry>, log: seq<Done>, live: seq<string>, queued: seq<string>, n: nat)
    requires ProperList(entries) && LogOf(entries, log) && n < |entries|
    ensures var more := ItemsAt(entries, log, live, queued, n);
      AllItems(log, live, more) && AtMostUnit(more, entries[n].game.id)
  {
    var e := entries[n];
    assert e in entries && ProperMatch(e.game);
    if e.game.decided {
      DoneIs(entries, log, e);
    }
  }

  predicate AtMostUnit(items: seq<Item>, id: string) {
    |items| <= 1 && (items != [] ==> items[0].unit == id)
  }

  /** No match of the plan is listed later on. */
  ghost predicate NotYet(entries: seq<Entry>, n: nat, items: seq<Item>) {
    forall i, k :: n <= i < |entries| && 0 <= k < |items| ==> items[k].unit != entries[i].game.id
  }

  lemma OneMoreItem(entries: seq<Entry>, n: nat, items: seq<Item>, more: seq<Item>)
    requires DistinctIds(entries) && n < |entries| && NotYet(entries, n, items) && OnceEachUnit(items)
    requires AtMostUnit(more, entries[n].game.id)
    ensures NotYet(entries, n + 1, items + more) && OnceEachUnit(items + more)
  {
  }

  /** What listing keeps. */
  ghost predicate Listing(entries: seq<Entry>, log: seq<Done>, live: seq<string>, n: nat, items: seq<Item>) {
    NotYet(entries, n, items) && AllItems(log, live, items) && OnceEachUnit(items)
  }

  lemma NextItems(entries: seq<Entry>, log: seq<Done>, live: seq<string>, queued: seq<string>, n: nat, items: seq<Item>)
    requires ProperList(entries) && LogOf(entries, log) && n < |entries| && Listing(entries, log, live, n, items)
    ensures Listing(entries, log, live, n + 1, items + ItemsAt(entries, log, live, queued, n))
  {
    ItemsAtAreItems(entries, log, live, queued, n);
    OneMoreItem(entries, n, items, ItemsAt(entries, log, live, queued, n));
  }

  lemma {:induction false} ItemsAreDistinct(entries: seq<Entry>, log: seq<Done>, live: seq<string>, queued: seq<string>,
                                            n: nat)
    requires ProperList(entries) && LogOf(entries, log) && n <= |entries|
    ensures Listing(entries, log, live, n, Items(entries, log, live, queued, n))
    decreases n
  {
    if n > 0 {
      ItemsAreDistinct(entries, log, live, queued, n - 1);
      NextItems(entries, log, live, queued, n - 1, Items(entries, log, live, queued, n - 1));
    }
  }

  /** Listing goes on from what is listed. */
  lemma {:induction false} ItemsGrow(entries: seq<Entry>, log: seq<Done>, live: seq<string>, queued: seq<string>,
                                     i: nat, n: nat)
    requires i <= n <= |entries| && AllLogged(entries, log)
    ensures Items(entries, log, live, queued, i) <= Items(entries, log, live, queued, n)
    decreases n
  {
    if i < n {
      ItemsGrow(entries, log, live, queued, i, n - 1);
    }
  }

  // ---- requests -------------------------------------------------------------

  function RequestOf(courts: nat, log: seq<Done>, live: seq<string>, item: Item, order: nat): (r: Request)
    requires courts >= 1 && ItemOf(log, live, item) && forall d :: d in log ==> WellPlaced(courts, d)
  {
    match item.origin
    case Completed(index) =>
      assert log[index] in log && WellPlaced(courts, log[index]);
      Request(item.unit, log[index].block.start, order, item.duration, On(log[index].court))
    case Live(position) => Request(item.unit, LIVE_SLOT, order, item.duration, On(position + 1))
    case Pending(code, position) =>
      Request(item.unit, PendingSlot(code, position, courts), order, item.duration, Anywhere)
  }

  function Requests(courts: nat, log: seq<Done>, live: seq<string>, items: seq<Item>): (requests: seq<Request>)
    requires PlanOf(courts, log, live, items)
    ensures |requests| == |items|
    ensures forall k :: 0 <= k < |items| ==> requests[k] == RequestOf(courts, log, live, items[k], k)
  {
    seq(|items|, k requires 0 <= k < |items| => RequestOf(courts, log, live, items[k], k))
  }

  lemma RequestsFit(courts: nat, log: seq<Done>, live: seq<string>, items: seq<Item>)
    requires PlanOf(courts, log, live, items)
    ensures Fits(courts, Requests(courts, log, live, items)) && Distinct(Requests(courts, log, live, items))
  {
    forall k | 0 <= k < |items|
      ensures var r := Requests(courts, log, live, items)[k];
        r.duration > 0 && (r.pin.On? ==> 1 <= r.pin.court <= courts)
    {
      assert ItemOf(log, live, items[k]);
      if items[k].origin.Completed? {
        assert log[items[k].origin.index] in log;
      }
    }
  }

  /** Two requests of the plan, the second of them pinned, in the order of their wishes. */
  lemma ItemsFollow(courts: nat, log: seq<Done>, live: seq<string>, items: seq<Item>, k: nat, l: nat)
    requires PlanOf(courts, log, live, items) && k < |items| && l < |items| && k != l
    requires var r, s := Requests(courts, log, live, items)[k], Requests(courts, log, live, items)[l];
      s.pin.On? && r.desired <= s.desired
    ensures PinFollows(Requests(courts, log, live, items)[k], Requests(courts, log, live, items)[l])
  {
    var a, b := items[k].origin, items[l].origin;
    assert ItemOf(log, live, items[k]) && ItemOf(log, live, items[l]) && items[k].unit != items[l].unit;
    if b.Completed? {
      EndsBeforeLive(courts, log, b.index);
    }
    if a.Completed? {
      EndsBeforeLive(courts, log, a.index);
    }
    if a.Completed? && b.Completed? {
      if a.index < b.index {
        assert InOrder(log[a.index], log[b.index]);
      } else {
        assert InOrder(log[b.index], log[a.index]);
      }
    }
  }

  lemma EndsBeforeLive(courts: nat, log: seq<Done>, i: nat)
    requires Sporting(courts, log) && !TooLong(log) && i < |log|
    ensures WellPlaced(courts, log[i]) && log[i].block.start < log[i].block.end < LIVE_SLOT
  {
    assert log[i] in log;
  }

  /** The plan never books a court twice, across the chronology, the live wave and the placement. */
  lemma PlanNeverDoubleBooks(courts: nat, log: seq<Done>, live: seq<string>, items: seq<Item>)
    requires PlanOf(courts, log, live, items)
    ensures Fits(courts, Sort(Requests(courts, log, live, items), BY_WISH))
    ensures NoDoubleBooking(courts, Sort(Requests(courts, log, live, items), BY_WISH))
  {
    var requests := Requests(courts, log, live, items);
    var sorted := Sort(requests, BY_WISH);
    RequestsFit(courts, log, live, items);
    SortedFits(requests, courts);
    SortDistinct(requests, BY_WISH);
    forall i, j | 0 <= i < j < |sorted| && sorted[j].pin.On?
      ensures PinFollows(sorted[i], sorted[j])
    {
      assert sorted[i] in sorted && sorted[j] in sorted;
      var k :| 0 <= k < |requests| && requests[k] == sorted[i];
      var l :| 0 <= l < |requests| && requests[l] == sorted[j];
      ItemsFollow(courts, log, live, items, k, l);
    }
    PinsFollowIsSafe(courts, sorted);
  }

  // ---- the floor ------------------------------------------------------------

  /** The matches to come that are listed under that code before the `n`-th entry. */
  ghost function ComingBefore(entries: seq<Entry>, live: seq<string>, n: nat, code: RoundCode): set<nat>
    requires n <= |entries|
  {
    set i: nat | i < n && entries[i].code == code && !entries[i].game.decided && entries[i].game.id !in live
  }

  /** Every round is planned from a slot of its own, and two slots later for every floor-full of its
      matches to come. */
  predicate PlannedFrom(code: RoundCode, earlier: nat, courts: nat, slot: int)
    requires courts >= 1
  {
    && (code == R32 ==> slot == 154 + 2 * (earlier / courts))
    && (code == R16 ==> slot == 192 + 2 * (earlier / courts))
    && (code == QF ==> slot == 206 + 2 * (earlier / courts))
    && (code == SF ==> slot == 240 + 2 * (earlier / courts))
    && (code.Other? ==> slot == 246 + 2 * (earlier / courts))
  }

  /** Another match is on that court at `x`. */
  ghost predicate TakenAt(placed: seq<Placement>, unit: string, c: nat, x: int) {
    exists q :: q in placed && q.unit != unit && q.court == c && q.block.start <= x < q.block.end
  }

  /** Between `slot` and its start every court is taken by another match; so with a free court at `slot` it
      starts exactly then. */
  ghost predicate StartsFrom(courts: nat, placed: seq<Placement>, p: Placement, slot: int) {
    && slot <= p.block.start
    && forall c, x :: 1 <= c <= courts && slot <= x < p.block.start ==> TakenAt(placed, p.unit, c, x)
  }

  /** Placed where it asked to be, for as long as it lasts. */
  ghost predicate ComesLater(courts: nat, entries: seq<Entry>, live: seq<string>, placed: seq<Placement>, n: nat)
    requires courts >= 1 && n < |entries|
  {
    exists p, slot :: p in placed && p.unit == entries[n].game.id
      && p.block.end == p.block.start + entries[n].game.duration
      && PlannedFrom(entries[n].code, |ComingBefore(entries, live, n, entries[n].code)|, courts, slot)
      && StartsFrom(courts, placed, p, slot)
  }

  /** On court from slot 152, the match at position `c` on the court after it. */
  ghost predicate OnCourt(live: seq<string>, placed: seq<Placement>, m: Match) {
    exists c: nat :: c < |live| && live[c] == m.id && Placement(m.id, Block(152, 152 + m.duration), c + 1) in placed
  }

  ghost predicate InChronology(log: seq<Done>, placed: seq<Placement>, m: Match) {
    exists d :: d in log && d.finished == Finished(m.id, m.people, m.duration)
      && Placement(m.id, d.block, d.court) in placed
  }

  /** What becomes of a match on the floor: finished ones keep their place in the chronology, those of the
      live wave have a court each, the others that could be played wait off the floor, and the rest come
      after the live wave. */
  ghost predicate OnFloor(courts: nat, entries: seq<Entry>, log: seq<Done>, live: seq<string>, queued: seq<string>,
                          placed: seq<Placement>, n: nat)
    requires courts >= 1 && n < |entries|
  {
    var m := entries[n].game;
    if m.decided then InChronology(log, placed, m)
    else if m.id in live then OnCourt(live, placed, m)
    else if m.id in queued then forall p :: p in placed ==> p.unit != m.id
    else ComesLater(courts, entries, live, placed, n)
  }

  /** A match to come that is on the plan, asking for that slot. */
  ghost predicate AsksFor(courts: nat, entries: seq<Entry>, live: seq<string>, queued: seq<string>, n: nat, slot: int)
    requires courts >= 1 && n < |entries|
  {
    && !entries[n].game.decided && entries[n].game.id !in live && entries[n].game.id !in queued
    && PlannedFrom(entries[n].code, |ComingBefore(entries, live, n, entries[n].code)|, courts, slot)
  }

  /** Of two matches to come that ask for the same slot, the one listed first starts first, or at the same
      time on a lower court. */
  ghost predicate FirstListedFirst(courts: nat, entries: seq<Entry>, live: seq<string>, queued: seq<string>,
                                   placed: seq<Placement>)
    requires courts >= 1
  {
    forall n, m, slot :: 0 <= n < m < |entries| ==>
      AsksFor(courts, entries, live, queued, n, slot) && AsksFor(courts, entries, live, queued, m, slot) ==>
      InTurnOnFloor(placed, entries[n].game.id, entries[m].game.id)
  }

  ghost predicate InTurnOnFloor(placed: seq<Placement>, first: string, second: string) {
    forall p, q :: p in placed && q in placed && p.unit == first && q.unit == second ==>
      p.block.start < q.block.start || (p.block.start == q.block.start && p.court < q.court)
  }

  lemma OneMoreComing(entries: seq<Entry>, live: seq<string>, n: nat, code: RoundCode)
    requires n < |entries|
    ensures ComingBefore(entries, live, n + 1, code) == ComingBefore(entries, live, n, code) +
      if ToCome(live, entries[n].game) && entries[n].code == code then {n} else {}
  {
  }

  /** Counting the matches to come of a round counts a set. */
  lemma {:induction false} CountsComing(entries: seq<Entry>, live: seq<string>, n: nat, code: RoundCode)
    requires n <= |entries|
    ensures CountBefore(entries, live, n, code) == |ComingBefore(entries, live, n, code)|
    decreases n
  {
    if n == 0 {
      assert ComingBefore(entries, live, 0, code) == {};
    } else {
      CountsComing(entries, live, n - 1, code);
      OneMoreComing(entries, live, n - 1, code);
      assert n - 1 !in ComingBefore(entries, live, n - 1, code);
    }
  }

  lemma AsksAsPlanned(courts: nat, entries: seq<Entry>, live: seq<string>, n: nat)
    requires courts >= 1 && n < |entries|
    ensures PlannedFrom(entries[n].code, |ComingBefore(entries, live, n, entries[n].code)|, courts,
      PendingSlot(entries[n].code, CountBefore(entries, live, n, entries[n].code), courts))
  {
    CountsComing(entries, live, n, entries[n].code);
  }

  lemma {:induction false} ItemIsListed(entries: seq<Entry>, log: seq<Done>, live: seq<string>, queued: seq<string>,
                                        n: nat, item: Item) returns (i: nat)
    requires n <= |entries| && AllLogged(entries, log) && item in Items(entries, log, live, queued, n)
    ensures i < n && ItemsAt(entries, log, live, queued, i) == [item]
    decreases n
  {
    if item in Items(entries, log, live, queued, n - 1) {
      i := ItemIsListed(entries, log, live, queued, n - 1, item);
    } else {
      i := n - 1;
    }
  }

  /** Where the item of an entry is listed. */
  lemma ListedIsItem(entries: seq<Entry>, log: seq<Done>, live: seq<string>, queued: seq<string>, n: nat, item: Item)
    returns (k: nat)
    requires n < |entries| && AllLogged(entries, log) && ItemsAt(entries, log, live, queued, n) == [item]
    ensures k == |Items(entries, log, live, queued, n)| < |Items(entries, log, live, queued, |entries|)|
    ensures Items(entries, log, live, queued, |entries|)[k] == item
  {
    k := |Items(entries, log, live, queued, n)|;
    ItemsGrow(entries, log, live, queued, n + 1, |entries|);
    assert Items(entries, log, live, queued, n + 1)[k] == item;
  }

  /** `placed` is the placement of the requests of a plan. */
  ghost predicate PlacedPlan(courts: nat, log: seq<Done>, live: seq<string>, items: seq<Item>, placed: seq<Placement>) {
    && PlanOf(courts, log, live, items)
    && Fits(courts, Sort(Requests(courts, log, live, items), BY_WISH))
    && placed == PlaceAll(courts, Sort(Requests(courts, log, live, items), BY_WISH))
  }

  /** Every item is placed as its request says. */
  lemma ItemIsPlaced(courts: nat, log: seq<Done>, live: seq<string>, items: seq<Item>, placed: seq<Placement>, k: nat)
    returns (i: nat)
    requires PlacedPlan(courts, log, live, items, placed) && k < |items|
    ensures i < |placed| && Sort(Requests(courts, log, live, items), BY_WISH)[i] ==
      RequestOf(courts, log, live, items[k], k)
    ensures var r, p := RequestOf(courts, log, live, items[k], k), placed[i];
      && p.unit == r.unit && p.block.end == p.block.start + r.duration && r.desired <= p.block.start
      && (r.pin.On? ==> p.block.start == r.desired && p.court == r.pin.court)
  {
    var requests := Requests(courts, log, live, items);
    i := SortedTo(requests, BY_WISH, k);
    SpotIsAsAsked(courts, Sort(requests, BY_WISH), i);
  }

  /** What is not pinned starts where it asks to, unless every court is taken by other matches. */
  lemma ItemWaitsForCourts(courts: nat, log: seq<Done>, live: seq<string>, items: seq<Item>, placed: seq<Placement>,
                           i: nat)
    requires PlacedPlan(courts, log, live, items, placed) && i < |placed|
    requires Sort(Requests(courts, log, live, items), BY_WISH)[i].pin == Anywhere
    ensures StartsFrom(courts, placed, placed[i], Sort(Requests(courts, log, live, items), BY_WISH)[i].desired)
  {
    var sorted := Sort(Requests(courts, log, live, items), BY_WISH);
    RequestsFit(courts, log, live, items);
    SortedFits(Requests(courts, log, live, items), courts);
    forall c, x | 1 <= c <= courts && sorted[i].desired <= x < placed[i].block.start
      ensures TakenAt(placed, placed[i].unit, c, x)
    {
      var j := WaitsOnlyForCourts(courts, sorted, i, c, x);
      PlacedOnce(courts, log, live, items, placed, j, i);
      assert placed[j] in placed;
    }
  }

  /** The `k`-th item, not pinned, asks for that slot, and its turn is the `i`-th. */
  ghost predicate TakesTurn(courts: nat, log: seq<Done>, live: seq<string>, items: seq<Item>, k: nat, i: nat,
                            slot: int)
  {
    && PlanOf(courts, log, live, items) && k < |items|
    && var sorted, r := Sort(Requests(courts, log, live, items), BY_WISH), RequestOf(courts, log, live, items[k], k);
       i < |sorted| && sorted[i] == r && r.pin == Anywhere && r.desired == slot && r.order == k
  }

  /** What asks for the same slot takes its turn in the order it is listed. */
  lemma TurnsAscend(courts: nat, log: seq<Done>, live: seq<string>, items: seq<Item>, k: nat, l: nat, i: nat, j: nat,
                    slot: int)
    requires k < l && TakesTurn(courts, log, live, items, k, i, slot) && TakesTurn(courts, log, live, items, l, j, slot)
    ensures i < j
  {
    RequestsFit(courts, log, live, items);
    SortedFits(Requests(courts, log, live, items), courts);
  }

  lemma ItemsInTurn(courts: nat, log: seq<Done>, live: seq<string>, items: seq<Item>, placed: seq<Placement>,
                    k: nat, l: nat, i: nat, j: nat, slot: int)
    requires PlacedPlan(courts, log, live, items, placed) && k < l
    requires TakesTurn(courts, log, live, items, k, i, slot) && TakesTurn(courts, log, live, items, l, j, slot)
    ensures i < j < |placed| && Leads(placed[i], placed[j])
  {
    TurnsAscend(courts, log, live, items, k, l, i, j, slot);
    RequestsFit(courts, log, live, items);
    SortedFits(Requests(courts, log, live, items), courts);
    SameWishInTurn(courts, Sort(Requests(courts, log, live, items), BY_WISH), i, j);
  }

  /** Nothing else is placed, and nothing twice. */
  lemma PlacedIsItem(courts: nat, log: seq<Done>, live: seq<string>, items: seq<Item>, placed: seq<Placement>, i: nat)
    returns (k: nat)
    requires PlacedPlan(courts, log, live, items, placed) && i < |placed|
    ensures k < |items| && placed[i].unit == items[k].unit
    ensures Sort(Requests(courts, log, live, items), BY_WISH)[i] == Requests(courts, log, live, items)[k]
  {
    var requests := Requests(courts, log, live, items);
    k := SortedFrom(requests, BY_WISH, i);
    SpotIsAsAsked(courts, Sort(requests, BY_WISH), i);
  }

  lemma PlacedOnce(courts: nat, log: seq<Done>, live: seq<string>, items: seq<Item>, placed: seq<Placement>, i: nat,
                   j: nat)
    requires PlacedPlan(courts, log, live, items, placed) && i < j < |placed|
    ensures placed[i].unit != placed[j].unit
  {
    var k := PlacedIsItem(courts, log, live, items, placed, i);
    var l := PlacedIsItem(courts, log, live, items, placed, j);
    RequestsFit(courts, log, live, items);
    SortDistinct(Requests(courts, log, live, items), BY_WISH);
  }

  /** A plan of the entries, and its placement. */
  ghost predicate FloorPlan(courts: nat, entries: seq<Entry>, log: seq<Done>, live: seq<string>, queued: seq<string>,
                            placed: seq<Placement>)
  {
    && ProperList(entries) && LogOf(entries, log)
    && PlacedPlan(courts, log, live, Items(entries, log, live, queued, |entries|), placed)
  }

  lemma PlacedIsListed(courts: nat, entries: seq<Entry>, log: seq<Done>, live: seq<string>, queued: seq<string>,
                       placed: seq<Placement>, i: nat) returns (n: nat)
    requires FloorPlan(courts, entries, log, live, queued, placed) && i < |placed|
    ensures n < |entries| && placed[i].unit == entries[n].game.id && ItemsAt(entries, log, live, queued, n) != []
  {
    var items := Items(entries, log, live, queued, |entries|);
    var k := PlacedIsItem(courts, log, live, items, placed, i);
    n := ItemIsListed(entries, log, live, queued, |entries|, items[k]);
    ItemsAtAreItems(entries, log, live, queued, n);
  }

  lemma QueuedIsOffFloor(courts: nat, entries: seq<Entry>, log: seq<Done>, live: seq<string>, queued: seq<string>,
                         placed: seq<Placement>, n: nat)
    requires FloorPlan(courts, entries, log, live, queued, placed) && n < |entries|
    requires ItemsAt(entries, log, live, queued, n) == []
    ensures forall p :: p in placed ==> p.unit != entries[n].game.id
  {
    forall i | 0 <= i < |placed|
      ensures placed[i].unit != entries[n].game.id
    {
      var j := PlacedIsListed(courts, entries, log, live, queued, placed, i);
      assert j != n;
    }
  }

  /** A match on the plan is placed as its item says. */
  lemma ItemOnFloor(courts: nat, entries: seq<Entry>, log: seq<Done>, live: seq<string>, queued: seq<string>,
                    placed: seq<Placement>, n: nat, item: Item) returns (k: nat, i: nat)
    requires FloorPlan(courts, entries, log, live, queued, placed) && n < |entries|
    requires ItemsAt(entries, log, live, queued, n) == [item]
    ensures k == |Items(entries, log, live, queued, n)| < |Items(entries, log, live, queued, |entries|)|
    ensures Items(entries, log, live, queued, |entries|)[k] == item && ItemOf(log, live, item)
    ensures var r, sorted := RequestOf(courts, log, live, item, k),
                             Sort(Requests(courts, log, live, Items(entries, log, live, queued, |entries|)), BY_WISH);
      && i < |placed| && sorted[i] == r && placed[i].unit == r.unit && r.desired <= placed[i].block.start
      && placed[i].block.end == placed[i].block.start + r.duration
      && (r.pin.On? ==> placed[i].block.start == r.desired && placed[i].court == r.pin.court)
  {
    var items := Items(entries, log, live, queued, |entries|);
    k := ListedIsItem(entries, log, live, queued, n, item);
    i := ItemIsPlaced(courts, log, live, items, placed, k);
  }

  lemma PendingOnFloor(courts: nat, entries: seq<Entry>, log: seq<Done>, live: seq<string>, queued: seq<string>,
                       placed: seq<Placement>, n: nat)
    requires FloorPlan(courts, entries, log, live, queued, placed) && n < |entries|
    requires var m := entries[n].game; !m.decided && m.id !in live && m.id !in queued
    ensures ComesLater(courts, entries, live, placed, n)
  {
    var item := ItemsAt(entries, log, live, queued, n)[0];
    var k, i := ItemOnFloor(courts, entries, log, live, queued, placed, n, item);
    AsksAsPlanned(courts, entries, live, n);
    ItemWaitsForCourts(courts, log, live, Items(entries, log, live, queued, |entries|), placed, i);
    assert placed[i] in placed;
  }

  lemma DecidedOnFloor(courts: nat, entries: seq<Entry>, log: seq<Done>, live: seq<string>, queued: seq<string>,
                       placed: seq<Placement>, n: nat)
    requires FloorPlan(courts, entries, log, live, queued, placed) && n < |entries| && entries[n].game.decided
    ensures InChronology(log, placed, entries[n].game)
  {
    var m := entries[n].game;
    var k, i := ItemOnFloor(courts, entries, log, live, queued, placed, n, ItemsAt(entries, log, live, queued, n)[0]);
    DoneIs(entries, log, entries[n]);
    var d := log[DoneAt(log, m.id)];
    assert d in log && WellPlaced(courts, d) && placed[i] == Placement(m.id, d.block, d.court);
  }

  lemma LiveOnFloor(courts: nat, entries: seq<Entry>, log: seq<Done>, live: seq<string>, queued: seq<string>,
                    placed: seq<Placement>, n: nat)
    requires FloorPlan(courts, entries, log, live, queued, placed) && n < |entries|
    requires !entries[n].game.decided && entries[n].game.id in live
    ensures OnCourt(live, placed, entries[n].game)
  {
    var m := entries[n].game;
    var k, i := ItemOnFloor(courts, entries, log, live, queued, placed, n, ItemsAt(entries, log, live, queued, n)[0]);
    assert placed[i] == Placement(m.id, Block(152, 152 + m.duration), PositionOf(live, m.id) + 1);
  }

  lemma EntryOnFloor(courts: nat, entries: seq<Entry>, log: seq<Done>, live: seq<string>, queued: seq<string>,
                     placed: seq<Placement>, n: nat)
    requires FloorPlan(courts, entries, log, live, queued, placed) && n < |entries|
    ensures OnFloor(courts, entries, log, live, queued, placed, n)
  {
    var more, m := ItemsAt(entries, log, live, queued, n), entries[n].game;
    if more == [] {
      QueuedIsOffFloor(courts, entries, log, live, queued, placed, n);
    } else if m.decided {
      DecidedOnFloor(courts, entries, log, live, queued, placed, n);
    } else if m.id in live {
      LiveOnFloor(courts, entries, log, live, queued, placed, n);
    } else {
      PendingOnFloor(courts, entries, log, live, queued, placed, n);
    }
  }

  /** The place of a match to come, and of its item. */
  lemma AskedAndPlaced(courts: nat, entries: seq<Entry>, log: seq<Done>, live: seq<string>, queued: seq<string>,
                       placed: seq<Placement>, n: nat, slot: int) returns (k: nat, i: nat)
    requires FloorPlan(courts, entries, log, live, queued, placed) && n < |entries|
    requires AsksFor(courts, entries, live, queued, n, slot)
    ensures k == |Items(entries, log, live, queued, n)| < |Items(entries, log, live, queued, n + 1)|
    ensures i < |placed| && placed[i].unit == entries[n].game.id
    ensures TakesTurn(courts, log, live, Items(entries, log, live, queued, |entries|), k, i, slot)
  {
    var item := ItemsAt(entries, log, live, queued, n)[0];
    k, i := ItemOnFloor(courts, entries, log, live, queued, placed, n, item);
    AsksAsPlanned(courts, entries, live, n);
  }

  lemma PlacedAt(courts: nat, log: seq<Done>, live: seq<string>, items: seq<Item>, placed: seq<Placement>, i: nat,
                 p: Placement)
    requires PlacedPlan(courts, log, live, items, placed) && i < |placed| && p in placed && p.unit == placed[i].unit
    ensures p == placed[i]
  {
    var j :| 0 <= j < |placed| && placed[j] == p;
    if i < j {
      PlacedOnce(courts, log, live, items, placed, i, j);
    } else if j < i {
      PlacedOnce(courts, log, live, items, placed, j, i);
    }
  }

  lemma TurnsOnFloor(courts: nat, log: seq<Done>, live: seq<string>, items: seq<Item>, placed: seq<Placement>, i: nat,
                     j: nat)
    requires PlacedPlan(courts, log, live, items, placed) && i < |placed| && j < |placed| && Leads(placed[i], placed[j])
    ensures InTurnOnFloor(placed, placed[i].unit, placed[j].unit)
  {
    forall p, q | p in placed && q in placed && p.unit == placed[i].unit && q.unit == placed[j].unit
      ensures p.block.start < q.block.start || (p.block.start == q.block.start && p.court < q.court)
    {
      PlacedAt(courts, log, live, items, placed, i, p);
      PlacedAt(courts, log, live, items, placed, j, q);
    }
  }

  lemma ItemsOfLater(entries: seq<Entry>, log: seq<Done>, live: seq<string>, queued: seq<string>, n: nat, m: nat)
    requires n < m <= |entries| && AllLogged(entries, log)
    requires |Items(entries, log, live, queued, n)| < |Items(entries, log, live, queued, n + 1)|
    ensures |Items(entries, log, live, queued, n)| < |Items(entries, log, live, queued, m)|
  {
    ItemsGrow(entries, log, live, queued, n + 1, m);
  }

  lemma EntriesInTurn(courts: nat, entries: seq<Entry>, log: seq<Done>, live: seq<string>, queued: seq<string>,
                      placed: seq<Placement>, n: nat, m: nat, slot: int)
    requires FloorPlan(courts, entries, log, live, queued, placed) && n < m < |entries|
    requires AsksFor(courts, entries, live, queued, n, slot) && AsksFor(courts, entries, live, queued, m, slot)
    ensures InTurnOnFloor(placed, entries[n].game.id, entries[m].game.id)
  {
    var items := Items(entries, log, live, queued, |entries|);
    var k, i := AskedAndPlaced(courts, entries, log, live, queued, placed, n, slot);
    var l, j := AskedAndPlaced(courts, entries, log, live, queued, placed, m, slot);
    ItemsOfLater(entries, log, live, queued, n, m);
    ItemsInTurn(courts, log, live, items, placed, k, l, i, j, slot);
    TurnsOnFloor(courts, log, live, items, placed, i, j);
  }

  /** The chronology of the finished matches. */
  function Chronology(courts: nat, events: seq<Event>): (log: seq<Done>)
    requires courts >= 1 && Proper(events)
    ensures Sporting(courts, log)
  {
    FinishedArePlayable(events);
    PlaceRounds(courts, FinishedRounds(events), |FinishedRounds(events)|).log
  }

  lemma ChronologyIsLog(courts: nat, events: seq<Event>)
    requires courts >= 1 && Proper(events)
    ensures LogOf(Entries(events), Chronology(courts, events))
  {
    FinishedArePlayable(events);
    var rounds := FinishedRounds(events);
    forall e | e in Entries(events) && e.game.decided
      ensures InLog(Chronology(courts, events), e.game.id)
    {
      var k, i := ListedIsFinished(events, e);
      var d := EveryMatchIsPlaced(courts, rounds, k, i);
    }
    forall d | d in Chronology(courts, events)
      ensures Recalls(Entries(events), d)
    {
      var k := OnlyMatchesArePlaced(courts, rounds, |rounds|, d);
      var e := FinishedIsListed(events, k, d.finished);
    }
  }

  datatype Plan = Refused | Planned(placed: seq<Placement>, live: seq<string>)

  /** No court is taken twice, and no match is placed twice. */
  ghost predicate Sound(placed: seq<Placement>) {
    forall i, j :: 0 <= i < j < |placed| ==>
      && placed[i].unit != placed[j].unit
      && (placed[i].court == placed[j].court ==>
        placed[i].block.end <= placed[j].block.start || placed[j].block.end <= placed[i].block.start)
  }

  ghost predicate OfEntries(entries: seq<Entry>, placed: seq<Placement>) {
    forall p :: p in placed ==> exists e :: e in entries && e.game.id == p.unit
  }

  /** What a placement makes of the entries: no court is taken twice, every match is where it belongs, and
      matches that ask for the same slot take their turns. */
  ghost predicate FloorOf(courts: nat, entries: seq<Entry>, log: seq<Done>, live: seq<string>, queued: seq<string>,
                          placed: seq<Placement>)
    requires courts >= 1
  {
    && Sound(placed) && OfEntries(entries, placed)
    && (forall n :: 0 <= n < |entries| ==> OnFloor(courts, entries, log, live, queued, placed, n))
    && FirstListedFirst(courts, entries, live, queued, placed)
  }

  lemma FloorIsSound(courts: nat, entries: seq<Entry>, log: seq<Done>, live: seq<string>, queued: seq<string>,
                     placed: seq<Placement>)
    requires FloorPlan(courts, entries, log, live, queued, placed)
    ensures Sound(placed) && OfEntries(entries, placed)
  {
    var items := Items(entries, log, live, queued, |entries|);
    PlanNeverDoubleBooks(courts, log, live, items);
    forall i, j | 0 <= i < j < |placed|
      ensures placed[i].unit != placed[j].unit
    {
      PlacedOnce(courts, log, live, items, placed, i, j);
    }
    forall i | 0 <= i < |placed|
      ensures exists e :: e in entries && e.game.id == placed[i].unit
    {
      var n := PlacedIsListed(courts, entries, log, live, queued, placed, i);
      assert entries[n] in entries;
    }
  }

  lemma PlanIsFloor(courts: nat, entries: seq<Entry>, log: seq<Done>, live: seq<string>, queued: seq<string>,
                    placed: seq<Placement>)
    requires FloorPlan(courts, entries, log, live, queued, placed)
    ensures FloorOf(courts, entries, log, live, queued, placed)
  {
    FloorIsSound(courts, entries, log, live, queued, placed);
    forall n | 0 <= n < |entries|
      ensures OnFloor(courts, entries, log, live, queued, placed, n)
    {
      EntryOnFloor(courts, entries, log, live, queued, placed, n);
    }
    forall n, m, slot | 0 <= n < m < |entries|
      && AsksFor(courts, entries, live, queued, n, slot) && AsksFor(courts, entries, live, queued, m, slot)
      ensures InTurnOnFloor(placed, entries[n].game.id, entries[m].game.id)
    {
      EntriesInTurn(courts, entries, log, live, queued, placed, n, m, slot);
    }
  }

  /** From the events to the floor: refused exactly if the finished matches would not be over before the live
      wave at slot 152; otherwise the live wave is chosen, every match has its place, and no court is taken
      twice. */
  method PlanFloor(courts: nat, events: seq<Event>) returns (plan: Plan)
    requires courts >= 1 && Proper(events)
    ensures plan.Refused? <==> exists d :: d in Chronology(courts, events) && d.block.end >= 152
    ensures plan.Planned? ==> WaveOf(events, courts, plan.live)
    ensures plan.Planned? ==>
      FloorOf(courts, Entries(events), Chronology(courts, events), plan.live, AllStartable(events), plan.placed)
  {
    FinishedArePlayable(events);
    var outcome := CompletedPlacements(courts, FinishedRounds(events));
    if outcome.TooLate? {
      return Refused;
    }
    var live := LiveWave(events, courts);
    ChronologyIsLog(courts, events);
    var placed := PlaceEntries(courts, Entries(events), outcome.log, live, AllStartable(events));
    plan := Planned(placed, live);
  }

  method PlaceEntries(courts: nat, entries: seq<Entry>, log: seq<Done>, live: seq<string>, queued: seq<string>)
    returns (placed: seq<Placement>)
    requires courts >= 1 && Sporting(courts, log) && !TooLong(log) && |live| <= courts
    requires ProperList(entries) && LogOf(entries, log)
    ensures FloorOf(courts, entries, log, live, queued, placed)
  {
    var items := ListItems(entries, log, live, queued);
    ItemsAreDistinct(entries, log, live, queued, |entries|);
    RequestsFit(courts, log, live, items);
    placed := PlaceOnCourts(Requests(courts, log, live, items), courts);
    PlanIsFloor(courts, entries, log, live, queued, placed);
  }
}
