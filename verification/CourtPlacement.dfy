/** Placing wishes on real courts: in time order, each on the court that is free soonest. */
module CourtPlacement {
  import opened Courts
  import Finite
  import opened Intervals

  datatype Pin = Anywhere | On(court: nat)

  /** A wish for `duration` slots from `desired`; a pinned one is laid exactly there. */
  datatype Request = Request(unit: string, desired: nat, order: nat, duration: nat, pin: Pin)

  datatype Placement = Placement(unit: string, block: Block, court: nat)

  /** When each of the courts 1 to `courts` is free again. */
  type Free = map<nat, int>

  /** The court that is free soonest at or after `desired`, the lowest of several. */
  function Soonest(free: Free, courts: nat, desired: int): (best: nat)
    requires courts >= 1 && ForCourts(free, courts)
    ensures 1 <= best <= courts
    ensures forall c :: 1 <= c <= courts ==>
      || Max(free[best], desired) < Max(free[c], desired)
      || (Max(free[best], desired) == Max(free[c], desired) && best <= c)
  {
    if courts == 1 then 1
    else
      var best := Soonest(free, courts - 1, desired);
      if Max(free[courts], desired) < Max(free[best], desired) then courts else best
  }

  /** Requests a floor of `courts` courts can take: pins are courts of the floor, blocks are not empty. */
  predicate Fits(courts: nat, requests: seq<Request>) {
    courts >= 1 && forall r | r in requests :: r.duration > 0 && (r.pin.On? ==> 1 <= r.pin.court <= courts)
  }

  function PlaceOne(free: Free, courts: nat, r: Request): (p: Placement)
    requires Fits(courts, [r]) && ForCourts(free, courts)
    ensures 1 <= p.court <= courts && p.block.end == p.block.start + r.duration && p.block.start >= r.desired
  {
    assert r in [r];
    var court := if r.pin.On? then r.pin.court else Soonest(free, courts, r.desired);
    var slot := if r.pin.On? then r.desired else Max(free[court], r.desired);
    Placement(r.unit, Block(slot, slot + r.duration), court)
  }

  /** The courts once the requests have been placed in turn. */
  function FreeAfter(courts: nat, requests: seq<Request>): (free: Free)
    requires Fits(courts, requests)
    ensures ForCourts(free, courts)
  {
    if requests == [] then Opening(courts)
    else
      var before := requests[..|requests| - 1];
      assert forall r :: r in before ==> r in requests;
      var p := PlaceOne(FreeAfter(courts, before), courts, requests[|requests| - 1]);
      FreeAfter(courts, before)[p.court := Max(FreeAfter(courts, before)[p.court], p.block.end)]
  }

  /** Where the i-th request ends up. */
  function Spot(courts: nat, requests: seq<Request>, i: nat): (p: Placement)
    requires Fits(courts, requests) && i < |requests|
    ensures 1 <= p.court <= courts && p.block.end == p.block.start + requests[i].duration
    ensures p.block.start >= requests[i].desired
  {
    assert forall r :: r in requests[..i] ==> r in requests;
    PlaceOne(FreeAfter(courts, requests[..i]), courts, requests[i])
  }

  /** A placement is for the match that asked, and a pinned match is where it is pinned. */
  lemma SpotIsAsAsked(courts: nat, requests: seq<Request>, i: nat)
    requires Fits(courts, requests) && i < |requests|
    ensures var p, r := Spot(courts, requests, i), requests[i];
      p.unit == r.unit && (r.pin.On? ==> p.block.start == r.desired && p.court == r.pin.court)
  {
  }

  function PlaceAll(courts: nat, requests: seq<Request>): (placed: seq<Placement>)
    requires Fits(courts, requests)
    ensures |placed| == |requests| && forall i :: 0 <= i < |placed| ==> placed[i] == Spot(courts, requests, i)
  {
    seq(|requests|, i requires 0 <= i < |requests| => Spot(courts, requests, i))
  }

  /** Requests in the order they are placed. */
  ghost predicate InTimeOrder(requests: seq<Request>) {
    forall i, j :: 0 <= i < j < |requests| ==> requests[i].desired <= requests[j].desired
  }

  /** By the slot they ask for, and those that ask for the same slot by their `order`. */
  ghost predicate InTurn(requests: seq<Request>) {
    forall i, j :: 0 <= i < j < |requests| ==>
      || requests[i].desired < requests[j].desired
      || (requests[i].desired == requests[j].desired && requests[i].order <= requests[j].order)
  }

  /** The courts after `n` requests, from the courts before the last of them. */
  lemma FreeNext(courts: nat, requests: seq<Request>, n: nat)
    requires Fits(courts, requests) && 0 < n <= |requests|
    ensures Fits(courts, requests[..n]) && Fits(courts, requests[..n - 1])
    ensures var free, p := FreeAfter(courts, requests[..n - 1]), Spot(courts, requests, n - 1);
      FreeAfter(courts, requests[..n]) == free[p.court := Max(free[p.court], p.block.end)]
  {
    assert forall r :: r in requests[..n] || r in requests[..n - 1] ==> r in requests;
    assert requests[..n][..n - 1] == requests[..n - 1];
  }

  predicate Occupies(p: Placement, c: nat, x: int) {
    p.court == c && Covers(p.block, x)
  }

  /** A court taken at `x` after a request is taken by it, or was taken at `x` before. */
  lemma TakenBefore(courts: nat, requests: seq<Request>, n: nat, c: nat, x: int)
    requires Fits(courts, requests) && 0 < n <= |requests| && 1 <= c <= courts
    requires Fits(courts, requests[..n]) && Fits(courts, requests[..n - 1])
    requires requests[n - 1].desired <= x < FreeAfter(courts, requests[..n])[c]
    ensures Occupies(Spot(courts, requests, n - 1), c, x) || x < FreeAfter(courts, requests[..n - 1])[c]
  {
    FreeNext(courts, requests, n);
  }

  /** A court that is not free yet is occupied at every slot from the last wish on. */
  lemma {:induction false} Occupied(courts: nat, requests: seq<Request>, n: nat, c: nat, x: int) returns (j: nat)
    requires Fits(courts, requests) && InTimeOrder(requests) && n <= |requests| && 1 <= c <= courts
    requires Fits(courts, requests[..n]) && 0 <= x < FreeAfter(courts, requests[..n])[c]
    requires n > 0 ==> requests[n - 1].desired <= x
    ensures j < n && Occupies(Spot(courts, requests, j), c, x)
    decreases n
  {
    assert n > 0;
    FreeNext(courts, requests, n);
    TakenBefore(courts, requests, n, c, x);
    if Occupies(Spot(courts, requests, n - 1), c, x) {
      j := n - 1;
    } else {
      assert n > 1 ==> requests[n - 2].desired <= requests[n - 1].desired;
      j := Occupied(courts, requests, n - 1, c, x);
    }
  }

  /** A court is free again no earlier than the end of anything placed on it, and exactly at
      the end of one of its placements, if it has any. */
  lemma {:induction false} FreeBounds(courts: nat, requests: seq<Request>, n: nat, i: nat)
    requires Fits(courts, requests) && i < n <= |requests| && Fits(courts, requests[..n])
    ensures Spot(courts, requests, i).block.end <= FreeAfter(courts, requests[..n])[Spot(courts, requests, i).court]
    decreases n
  {
    FreeNext(courts, requests, n);
    if i < n - 1 {
      FreeBounds(courts, requests, n - 1, i);
    }
  }

  // ---- work conservation --------------------------------------------------------

  /** A match that is not pinned starts after its wish only if every court is occupied, by
      earlier placements, at every slot in between. */
  lemma WaitsOnlyForCourts(courts: nat, requests: seq<Request>, i: nat, c: nat, x: int) returns (j: nat)
    requires Fits(courts, requests) && InTimeOrder(requests) && i < |requests| && requests[i].pin == Anywhere
    requires 1 <= c <= courts && requests[i].desired <= x < Spot(courts, requests, i).block.start
    ensures j < i && Occupies(Spot(courts, requests, j), c, x)
  {
    assert forall r :: r in requests[..i] ==> r in requests;
    var free := FreeAfter(courts, requests[..i]);
    var soonest := Soonest(free, courts, requests[i].desired);
    assert Max(free[soonest], requests[i].desired) <= Max(free[c], requests[i].desired);
    assert i > 0 ==> requests[i - 1].desired <= requests[i].desired;
    j := Occupied(courts, requests, i, c, x);
  }

  datatype Cell = Cell(court: nat, slot: int)

  /** The cells a placement takes. */
  function Cells(court: nat, start: int, length: nat): (cells: set<Cell>)
    ensures |cells| == length
    ensures forall cell :: cell in cells <==> cell.court == court && start <= cell.slot < start + length
  {
    if length == 0 then {} else Cells(court, start, length - 1) + {Cell(court, start + length - 1)}
  }

  lemma TotalNext(requests: seq<Request>, n: nat)
    requires 0 < n <= |requests|
    ensures TotalDuration(requests[..n]) == TotalDuration(requests[..n - 1]) + requests[n - 1].duration
  {
    assert requests[..n][..n - 1] == requests[..n - 1];
  }

  function CellsOf(courts: nat, requests: seq<Request>, n: nat): set<Cell>
    requires Fits(courts, requests) && n <= |requests|
  {
    if n == 0 then {}
    else CellsOf(courts, requests, n - 1) +
         Cells(Spot(courts, requests, n - 1).court, Spot(courts, requests, n - 1).block.start, requests[n - 1].duration)
  }

  function TotalDuration(requests: seq<Request>): nat {
    if requests == [] then 0 else TotalDuration(requests[..|requests| - 1]) + requests[|requests| - 1].duration
  }

  lemma {:induction false} CellsCount(courts: nat, requests: seq<Request>, n: nat)
    requires Fits(courts, requests) && n <= |requests|
    ensures |CellsOf(courts, requests, n)| <= TotalDuration(requests[..n])
    decreases n
  {
    if n > 0 {
      CellsCount(courts, requests, n - 1);
      TotalNext(requests, n);
      var p := Spot(courts, requests, n - 1);
      Finite.UnionCounts(CellsOf(courts, requests, n - 1), Cells(p.court, p.block.start, requests[n - 1].duration));
    }
  }

  lemma {:induction false} CellsHold(courts: nat, requests: seq<Request>, n: nat, j: nat, c: nat, x: int)
    requires Fits(courts, requests) && j < n <= |requests| && Occupies(Spot(courts, requests, j), c, x)
    ensures Cell(c, x) in CellsOf(courts, requests, n)
    decreases n
  {
    if j < n - 1 {
      CellsHold(courts, requests, n - 1, j, c, x);
    }
  }

  /** All slots of a span, on all courts. */
  function Grid(courts: nat, start: int, length: nat): (cells: set<Cell>)
    ensures |cells| == courts * length
    ensures forall cell :: cell in cells <==> 1 <= cell.court <= courts && start <= cell.slot < start + length
  {
    if courts == 0 then {}
    else
      assert Grid(courts - 1, start, length) !! Cells(courts, start, length);
      assert courts * length == (courts - 1) * length + length;
      Grid(courts - 1, start, length) + Cells(courts, start, length)
  }

  lemma WaitIsFilled(courts: nat, requests: seq<Request>, i: nat, cell: Cell)
    requires Fits(courts, requests) && InTimeOrder(requests) && i < |requests| && requests[i].pin == Anywhere
    requires 1 <= cell.court <= courts && requests[i].desired <= cell.slot < Spot(courts, requests, i).block.start
    ensures cell in CellsOf(courts, requests, i)
  {
    var j := WaitsOnlyForCourts(courts, requests, i, cell.court, cell.slot);
    CellsHold(courts, requests, i, j, cell.court, cell.slot);
  }

  lemma GridFits(courts: nat, start: int, length: nat, cells: set<Cell>)
    requires forall cell: Cell :: 1 <= cell.court <= courts && start <= cell.slot < start + length ==> cell in cells
    ensures courts * length <= |cells|
  {
    Finite.SubsetCounts(Grid(courts, start, length), cells);
  }

  /** The delay of a match that is not pinned, times the number of courts, is at most the total
      duration of everything placed before it. */
  lemma DelayIsBounded(courts: nat, requests: seq<Request>, i: nat)
    requires Fits(courts, requests) && InTimeOrder(requests) && i < |requests| && requests[i].pin == Anywhere
    ensures courts * (Spot(courts, requests, i).block.start - requests[i].desired) <= TotalDuration(requests[..i])
  {
    forall cell: Cell |
      1 <= cell.court <= courts && requests[i].desired <= cell.slot < Spot(courts, requests, i).block.start
      ensures cell in CellsOf(courts, requests, i)
    {
      WaitIsFilled(courts, requests, i, cell);
    }
    GridFits(courts, requests[i].desired, Spot(courts, requests, i).block.start - requests[i].desired,
      CellsOf(courts, requests, i));
    CellsCount(courts, requests, i);
  }

  // ---- wishes that can be kept ----------------------------------------------------

  function Wish(r: Request): Block {
    Block(r.desired, r.desired + r.duration)
  }

  function Wishes(requests: seq<Request>): (wishes: seq<Block>)
    ensures |wishes| == |requests| && forall i :: 0 <= i < |wishes| ==> wishes[i] == Wish(requests[i])
  {
    seq(|requests|, i requires 0 <= i < |requests| => Wish(requests[i]))
  }

  ghost predicate Kept(courts: nat, requests: seq<Request>, n: nat)
    requires Fits(courts, requests) && n <= |requests|
  {
    forall j {:trigger KeptAt(courts, requests, j)} :: 0 <= j < n ==> KeptAt(courts, requests, j)
  }

  predicate KeptAt(courts: nat, requests: seq<Request>, j: nat)
    requires Fits(courts, requests) && j < |requests|
  {
    Spot(courts, requests, j).block == Wish(requests[j])
  }

  /** If all of the first `d` courts are occupied at `x` by the first `n` placements, which
      have kept their wishes, at least `d` of these wishes are alive at `x`. */
  lemma {:induction false} CourtsAlive(courts: nat, requests: seq<Request>, i: nat, x: int, d: nat)
    returns (alive: set<nat>)
    requires Fits(courts, requests) && InTimeOrder(requests) && i < |requests| && requests[i].pin == Anywhere
    requires Kept(courts, requests, i) && requests[i].desired <= x < Spot(courts, requests, i).block.start
    requires d <= courts
    ensures |alive| == d && forall j :: j in alive ==>
      j < i && Covers(Wish(requests[j]), x) && Spot(courts, requests, j).court <= d
  {
    if d == 0 {
      alive := {};
    } else {
      var rest := CourtsAlive(courts, requests, i, x, d - 1);
      var j := WaitsOnlyForCourts(courts, requests, i, d, x);
      assert j !in rest && KeptAt(courts, requests, j);
      alive := rest + {j};
    }
  }

  lemma OneMoreAlive(requests: seq<Request>, i: nat, x: int, alive: set<nat>)
    requires i < |requests| && Covers(Wish(requests[i]), x)
    requires forall j :: j in alive ==> j < i && Covers(Wish(requests[j]), x)
    ensures |AliveAt(Wishes(requests), x)| > |alive|
  {
    forall j | j in alive + {i}
      ensures j in AliveAt(Wishes(requests), x)
    {
      assert Wishes(requests)[j] == Wish(requests[j]);
    }
    Finite.SubsetCounts(alive + {i}, AliveAt(Wishes(requests), x));
  }

  lemma OwnWish(courts: nat, requests: seq<Request>, i: nat)
    requires Fits(courts, requests) && i < |requests|
    ensures Covers(Wish(requests[i]), requests[i].desired)
  {
    assert requests[i] in requests;
  }

  /** A match waits only when more wishes than courts are alive. */
  lemma WaitNeedsDepth(courts: nat, requests: seq<Request>, i: nat)
    requires Fits(courts, requests) && InTimeOrder(requests) && i < |requests| && Kept(courts, requests, i)
    requires requests[i].pin == Anywhere && Spot(courts, requests, i).block.start > requests[i].desired
    ensures |AliveAt(Wishes(requests), requests[i].desired)| > courts
  {
    var alive := CourtsAlive(courts, requests, i, requests[i].desired, courts);
    OwnWish(courts, requests, i);
    OneMoreAlive(requests, i, requests[i].desired, alive);
  }

  lemma UnpinnedKept(courts: nat, requests: seq<Request>, i: nat)
    requires Fits(courts, requests) && i < |requests|
    requires requests[i].pin.On? || Spot(courts, requests, i).block.start <= requests[i].desired
    ensures Spot(courts, requests, i).block == Wish(requests[i])
  {
  }

  lemma NextKept(courts: nat, requests: seq<Request>, i: nat)
    requires Fits(courts, requests) && InTimeOrder(requests) && i < |requests| && Kept(courts, requests, i)
    requires forall x :: |AliveAt(Wishes(requests), x)| <= courts
    ensures KeptAt(courts, requests, i)
  {
    if requests[i].pin == Anywhere && Spot(courts, requests, i).block.start > requests[i].desired {
      WaitNeedsDepth(courts, requests, i);
    }
    UnpinnedKept(courts, requests, i);
  }

  lemma {:induction false} WishesKeptUpTo(courts: nat, requests: seq<Request>, n: nat)
    requires Fits(courts, requests) && InTimeOrder(requests) && n <= |requests|
    requires forall x :: |AliveAt(Wishes(requests), x)| <= courts
    ensures Kept(courts, requests, n)
    decreases n
  {
    if n > 0 {
      WishesKeptUpTo(courts, requests, n - 1);
      NextKept(courts, requests, n - 1);
      OneMoreKept(courts, requests, n - 1);
    }
  }

  lemma OneMoreKept(courts: nat, requests: seq<Request>, n: nat)
    requires Fits(courts, requests) && n < |requests| && Kept(courts, requests, n) && KeptAt(courts, requests, n)
    ensures Kept(courts, requests, n + 1)
  {
  }

  /** If the wishes are never more than `courts` deep, every match gets exactly its wish. */
  lemma WishesAreKept(courts: nat, requests: seq<Request>, i: nat)
    requires Fits(courts, requests) && InTimeOrder(requests) && i < |requests|
    requires forall x :: |AliveAt(Wishes(requests), x)| <= courts
    ensures Spot(courts, requests, i).block == Wish(requests[i])
  {
    WishesKeptUpTo(courts, requests, |requests|);
    assert KeptAt(courts, requests, i);
  }

  // ---- no double booking -----------------------------------------------------------

  /** No two placements share a court and a slot. */
  ghost predicate NoDoubleBooking(courts: nat, requests: seq<Request>)
    requires Fits(courts, requests)
  {
    forall i, j :: 0 <= i < j < |requests| && Spot(courts, requests, i).court == Spot(courts, requests, j).court ==>
      Disjoint(Spot(courts, requests, i).block, Spot(courts, requests, j).block)
  }

  /** The court of the i-th request, if it is pinned, is free by the time it asks for. */
  ghost predicate FindsCourtFree(courts: nat, requests: seq<Request>, i: nat)
    requires Fits(courts, requests) && i < |requests|
  {
    assert forall r :: r in requests[..i] ==> r in requests;
    requests[i].pin.On? ==> FreeAfter(courts, requests[..i])[requests[i].pin.court] <= requests[i].desired
  }

  /** A floor is double booked exactly if some pinned match does not find its court free;
      in particular never without pinned matches. */
  lemma DoubleBookedOnlyByPins(courts: nat, requests: seq<Request>)
    requires Fits(courts, requests) && InTimeOrder(requests)
    ensures NoDoubleBooking(courts, requests) <==>
      forall i :: 0 <= i < |requests| ==> FindsCourtFree(courts, requests, i)
  {
    if forall i :: 0 <= i < |requests| ==> FindsCourtFree(courts, requests, i) {
      forall i, j | 0 <= i < j < |requests| && Spot(courts, requests, i).court == Spot(courts, requests, j).court
        ensures Disjoint(Spot(courts, requests, i).block, Spot(courts, requests, j).block)
      {
        assert FindsCourtFree(courts, requests, j);
        FreeBounds(courts, requests, j, i);
      }
    } else {
      var j :| 0 <= j < |requests| && !FindsCourtFree(courts, requests, j);
      PinnedTooEarly(courts, requests, j);
    }
  }

  /** A pinned match whose court is not free overlaps what is there. */
  lemma PinnedTooEarly(courts: nat, requests: seq<Request>, j: nat)
    requires Fits(courts, requests) && InTimeOrder(requests) && j < |requests| && !FindsCourtFree(courts, requests, j)
    ensures !NoDoubleBooking(courts, requests)
  {
    assert forall r :: r in requests[..j] ==> r in requests;
    assert j > 0 ==> requests[j - 1].desired <= requests[j].desired;
    var i := Occupied(courts, requests, j, requests[j].pin.court, requests[j].desired);
    assert requests[j] in requests;
    assert Spot(courts, requests, i).court == Spot(courts, requests, j).court;
    DisjointMeansNoSharedSlot(Spot(courts, requests, i).block, Spot(courts, requests, j).block);
  }

  predicate EndsAt(p: Placement, c: nat, slot: int) {
    p.court == c && p.block.end == slot
  }

  /** A court that has been used is free from the end of one of its placements. */
  lemma {:induction false} FreeFromAnEnd(courts: nat, requests: seq<Request>, n: nat, c: nat)
    requires Fits(courts, requests) && n <= |requests| && Fits(courts, requests[..n]) && 1 <= c <= courts
    ensures FreeAfter(courts, requests[..n])[c] == 0 ||
      exists i: nat :: i < n && EndsAt(Spot(courts, requests, i), c, FreeAfter(courts, requests[..n])[c])
    decreases n
  {
    if n > 0 {
      FreeNext(courts, requests, n);
      FreeFromAnEnd(courts, requests, n - 1, c);
    }
  }

  /** Pinned requests come first, and follow each other on their courts. */
  ghost predicate PinsFollow(requests: seq<Request>) {
    forall i, j :: 0 <= i < j < |requests| && requests[j].pin.On? ==> PinFollows(requests[i], requests[j])
  }

  predicate PinFollows(r: Request, s: Request) {
    r.pin.On? && (r.pin == s.pin ==> r.desired + r.duration <= s.desired)
  }

  /** Then nothing is double booked. */
  lemma PinsFollowIsSafe(courts: nat, requests: seq<Request>)
    requires Fits(courts, requests) && InTimeOrder(requests) && PinsFollow(requests)
    ensures NoDoubleBooking(courts, requests)
  {
    DoubleBookedOnlyByPins(courts, requests);
    forall j | 0 <= j < |requests|
      ensures FindsCourtFree(courts, requests, j)
    {
      if requests[j].pin.On? {
        PinFindsCourtFree(courts, requests, j);
      }
    }
  }

  lemma PinFindsCourtFree(courts: nat, requests: seq<Request>, j: nat)
    requires Fits(courts, requests) && PinsFollow(requests) && j < |requests| && requests[j].pin.On?
    ensures FindsCourtFree(courts, requests, j)
  {
    assert forall r :: r in requests[..j] ==> r in requests;
    var c := requests[j].pin.court;
    assert requests[j] in requests;
    FreeFromAnEnd(courts, requests, j, c);
    if FreeAfter(courts, requests[..j])[c] != 0 {
      var i: nat :| i < j && EndsAt(Spot(courts, requests, i), c, FreeAfter(courts, requests[..j])[c]);
      assert PinFollows(requests[i], requests[j]);
    }
  }

  // ---- which court, and in which turn ---------------------------------------------

  /** A match that is not pinned takes the lowest court it can: on every lower court an earlier match of the
      placement is still on when it starts. */
  lemma LowerCourtsAreTaken(courts: nat, requests: seq<Request>, i: nat, c: nat) returns (j: nat)
    requires Fits(courts, requests) && i < |requests| && requests[i].pin == Anywhere
    requires requests[i].desired >= 0 && 1 <= c < Spot(courts, requests, i).court
    ensures j < i && Spot(courts, requests, j).court == c
    ensures Spot(courts, requests, j).block.end > Spot(courts, requests, i).block.start
  {
    assert forall r :: r in requests[..i] ==> r in requests;
    FreeFromAnEnd(courts, requests, i, c);
    j :| j < i && EndsAt(Spot(courts, requests, j), c, FreeAfter(courts, requests[..i])[c]);
  }

  lemma {:induction false} FreeGrows(courts: nat, requests: seq<Request>, m: nat, n: nat, c: nat)
    requires Fits(courts, requests) && m <= n <= |requests| && 1 <= c <= courts
    requires Fits(courts, requests[..m]) && Fits(courts, requests[..n])
    ensures FreeAfter(courts, requests[..m])[c] <= FreeAfter(courts, requests[..n])[c]
    decreases n
  {
    if m < n {
      FreeNext(courts, requests, n);
      FreeGrows(courts, requests, m, n - 1, c);
    }
  }

  /** `p` starts before `q`, or at the same time on a lower court. */
  predicate Leads(p: Placement, q: Placement) {
    p.block.start < q.block.start || (p.block.start == q.block.start && p.court < q.court)
  }

  lemma LaterTurn(free: Free, later: Free, courts: nat, r: Request, s: Request)
    requires Fits(courts, [r]) && Fits(courts, [s]) && ForCourts(free, courts) && ForCourts(later, courts)
    requires r.pin == Anywhere && s.pin == Anywhere && r.desired == s.desired && r.duration > 0
    requires forall c :: 1 <= c <= courts ==> free[c] <= later[c]
    requires PlaceOne(free, courts, r).block.end <= later[PlaceOne(free, courts, r).court]
    ensures Leads(PlaceOne(free, courts, r), PlaceOne(later, courts, s))
  {
    var p, q := PlaceOne(free, courts, r), PlaceOne(later, courts, s);
    assert p.court == Soonest(free, courts, r.desired) && q.court == Soonest(later, courts, r.desired);
    assert free[q.court] <= later[q.court];
  }

  /** Of two matches with the same wish, neither pinned, the one whose turn comes first starts first, or at
      the same time on a lower court. */
  lemma SameWishInTurn(courts: nat, requests: seq<Request>, i: nat, j: nat)
    requires Fits(courts, requests) && i < j < |requests| && requests[i].desired == requests[j].desired
    requires requests[i].pin == Anywhere && requests[j].pin == Anywhere
    ensures Leads(Spot(courts, requests, i), Spot(courts, requests, j))
  {
    assert forall r :: r in requests[..i] || r in requests[..j] || r in requests[..i + 1] ==> r in requests;
    var free, later := FreeAfter(courts, requests[..i]), FreeAfter(courts, requests[..j]);
    forall c | 1 <= c <= courts
      ensures free[c] <= later[c]
    {
      FreeGrows(courts, requests, i, j, c);
    }
    FreeNext(courts, requests, i + 1);
    FreeGrows(courts, requests, i + 1, j, Spot(courts, requests, i).court);
    assert requests[i] in requests;
    LaterTurn(free, later, courts, requests[i], requests[j]);
  }

  // ---- the method ------------------------------------------------------------------

  const BY_WISH := (r: Request) => (r.desired as int, r.order as int)

  /** Placing the next request of a list, given the courts after those before it. */
  lemma NextPlaced(courts: nat, requests: seq<Request>, i: nat)
    requires Fits(courts, requests) && i < |requests| && Fits(courts, requests[..i])
    ensures Fits(courts, requests[..i + 1])
    ensures var free := FreeAfter(courts, requests[..i]);
      var p := PlaceOne(free, courts, requests[i]);
      && p == Spot(courts, requests, i)
      && FreeAfter(courts, requests[..i + 1]) == free[p.court := Max(free[p.court], p.block.end)]
  {
    FreeNext(courts, requests, i + 1);
  }

  /** Place the requests in the order of their wishes. */
  method PlaceOnCourts(requests: seq<Request>, courts: nat) returns (placed: seq<Placement>)
    requires Fits(courts, requests)
    ensures Fits(courts, Sort(requests, BY_WISH)) && InTurn(Sort(requests, BY_WISH))
    ensures multiset(Sort(requests, BY_WISH)) == multiset(requests)
    ensures placed == PlaceAll(courts, Sort(requests, BY_WISH))
  {
    var sorted := Sort(requests, BY_WISH);
    SortedFits(requests, courts);
    placed := PlaceInOrder(sorted, courts);
  }

  lemma OneMore<T>(s: seq<T>, i: nat)
    requires i < |s|
    ensures s[..i + 1] == s[..i] + [s[i]]
  {
  }

  method PlaceInOrder(sorted: seq<Request>, courts: nat) returns (placed: seq<Placement>)
    requires Fits(courts, sorted)
    ensures placed == PlaceAll(courts, sorted)
  {
    var free: Free := Opening(courts);
    placed := [];
    ghost var all := PlaceAll(courts, sorted);
    for i := 0 to |sorted|
      invariant Fits(courts, sorted[..i]) && free == FreeAfter(courts, sorted[..i])
      invariant placed == all[..i]
    {
      NextPlaced(courts, sorted, i);
      var p := PlaceOne(free, courts, sorted[i]);
      OneMore(all, i);
      free := free[p.court := Max(free[p.court], p.block.end)];
      placed := placed + [p];
    }
  }

  lemma SortedFits(requests: seq<Request>, courts: nat)
    requires Fits(courts, requests)
    ensures Fits(courts, Sort(requests, BY_WISH)) && InTimeOrder(Sort(requests, BY_WISH))
    ensures InTurn(Sort(requests, BY_WISH)) && multiset(Sort(requests, BY_WISH)) == multiset(requests)
  {
    var sorted := Sort(requests, BY_WISH);
    SortSorts(requests, BY_WISH);
    forall r | r in sorted
      ensures r in requests
    {
      assert r in multiset(sorted);
    }
    forall i, j | 0 <= i < j < |sorted|
      ensures sorted[i].desired <= sorted[j].desired
      ensures sorted[i].desired == sorted[j].desired ==> sorted[i].order <= sorted[j].order
    {
      assert AtMost(BY_WISH(sorted[i]), BY_WISH(sorted[j]));
    }
  }
}
