/** Left-edge colouring of matches with courts: sweep the matches by start and give each
    the lowest court that is free again. It is legal, and no legal colouring uses fewer courts. */
module LeftEdge {
  import opened Intervals

  function BlocksOf(starts: seq<int>, durations: seq<int>): (blocks: seq<Block>)
    requires |starts| == |durations|
  {
    seq(|starts|, i requires 0 <= i < |starts| => Block(starts[i], starts[i] + durations[i]))
  }

  /** No two matches of one court overlap. */
  ghost predicate Legal(blocks: seq<Block>, colour: seq<nat>) {
    && |colour| == |blocks|
    && forall i, j :: 0 <= i < |blocks| && 0 <= j < |blocks| && i != j && colour[i] == colour[j] ==>
         Disjoint(blocks[i], blocks[j])
  }

  ghost predicate Within(colour: seq<nat>, courts: nat) {
    forall i :: 0 <= i < |colour| ==> colour[i] < courts
  }

  /** The numbers below `n`. */
  function Below(n: nat): (s: set<nat>)
    ensures |s| == n && forall c: nat :: c in s <==> c < n
  {
    if n == 0 then {} else Below(n - 1) + {n - 1}
  }

  lemma {:induction false} InjectiveIsSmaller(s: set<nat>, t: set<nat>, f: seq<nat>)
    requires forall i :: i in s ==> i < |f| && f[i] in t
    requires forall i, j :: i in s && j in s && i != j ==> f[i] != f[j]
    ensures |s| <= |t|
    decreases |s|
  {
    if s != {} {
      var i :| i in s;
      InjectiveIsSmaller(s - {i}, t - {f[i]}, f);
      assert |s| == |s - {i}| + 1 && |t| == |t - {f[i]}| + 1;
    }
  }

  /** Matches alive at the same slot need different courts: no legal colouring
      uses fewer courts than the most matches that are alive at once. */
  lemma LegalNeedsCourts(blocks: seq<Block>, colour: seq<nat>, courts: nat, x: int)
    requires Legal(blocks, colour) && Within(colour, courts)
    ensures |AliveAt(blocks, x)| <= courts
  {
    InjectiveIsSmaller(AliveAt(blocks, x), Below(courts), colour);
  }

  // ---- the sweep --------------------------------------------------------------

  function Indices(n: nat): seq<int> {
    if n == 0 then [] else Indices(n - 1) + [n - 1]
  }

  /** The matches in the order of the sweep: by start, then by position. */
  function SweepOrder(starts: seq<int>): seq<int> {
    Sort(Indices(|starts|), i => if 0 <= i < |starts| then (starts[i], i) else (0, i))
  }

  lemma {:induction false} IndicesOnce(n: nat, i: int)
    ensures multiset(Indices(n))[i] == if 0 <= i < n then 1 else 0
    ensures |Indices(n)| == n
    decreases n
  {
    if n > 0 {
      IndicesOnce(n - 1, i);
    }
  }

  lemma OnceInMultiset(s: seq<int>, j: nat, k: nat)
    requires j < k < |s| && s[j] == s[k]
    ensures multiset(s)[s[j]] >= 2
  {
    assert s == s[..k] + s[k..];
    assert s[..k][j] == s[j] && s[k..][0] == s[j];
    assert s[j] in multiset(s[..k]) && s[j] in multiset(s[k..]);
  }

  lemma SweepOrderAt(starts: seq<int>, i: int)
    ensures |SweepOrder(starts)| == |starts| && (i in SweepOrder(starts) <==> 0 <= i < |starts|)
    ensures multiset(SweepOrder(starts))[i] <= 1
  {
    SortSorts(Indices(|starts|), i => if 0 <= i < |starts| then (starts[i], i) else (0, i));
    IndicesOnce(|starts|, i);
    assert i in SweepOrder(starts) <==> i in multiset(SweepOrder(starts));
  }

  /** Match `i` starts before match `j`, or at the same slot and is listed before it. */
  predicate Before(starts: seq<int>, i: int, j: int)
    requires 0 <= i < |starts| && 0 <= j < |starts|
  {
    starts[i] < starts[j] || (starts[i] == starts[j] && i < j)
  }

  lemma SweepOrderAscends(starts: seq<int>, j: nat, k: nat)
    requires j < k < |SweepOrder(starts)|
    ensures 0 <= SweepOrder(starts)[j] < |starts| && 0 <= SweepOrder(starts)[k] < |starts|
    ensures Before(starts, SweepOrder(starts)[j], SweepOrder(starts)[k])
  {
    var key := i => if 0 <= i < |starts| then (starts[i], i) else (0, i);
    var order := SweepOrder(starts);
    assert order == Sort(Indices(|starts|), key);
    SortSorts(Indices(|starts|), key);
    SweepOrderAt(starts, order[j]);
    SweepOrderAt(starts, order[k]);
    if order[j] == order[k] {
      OnceInMultiset(order, j, k);
    }
    assert AtMost(key(order[j]), key(order[k]));
  }

  /** The sweep visits every match once, by ascending start. */
  lemma SweepOrderVisits(starts: seq<int>)
    ensures var order := SweepOrder(starts);
      && |order| == |starts|
      && (forall j :: 0 <= j < |order| ==> 0 <= order[j] < |starts|)
      && (forall j, k :: 0 <= j < k < |order| ==> Before(starts, order[j], order[k]))
      && (forall i :: 0 <= i < |starts| ==> i in order)
  {
    var order := SweepOrder(starts);
    SweepOrderAt(starts, 0);
    forall j | 0 <= j < |order|
      ensures 0 <= order[j] < |starts|
    {
      SweepOrderAt(starts, order[j]);
    }
    forall j, k | 0 <= j < k < |order|
      ensures Before(starts, order[j], order[k])
    {
      SweepOrderAscends(starts, j, k);
    }
    forall i | 0 <= i < |starts|
      ensures i in order
    {
      SweepOrderAt(starts, i);
    }
  }

  predicate Earlier(blocks: seq<Block>, i: int, j: int)
    requires 0 <= i < |blocks| && 0 <= j < |blocks|
  {
    blocks[i].start < blocks[j].start || (blocks[i].start == blocks[j].start && i < j)
  }

  /** `order` lists positions of `blocks`, each at most once, by ascending start. */
  ghost predicate Sweeps(blocks: seq<Block>, order: seq<int>) {
    && (forall j :: 0 <= j < |order| ==> 0 <= order[j] < |blocks|)
    && (forall j, k :: 0 <= j < k < |order| ==> Earlier(blocks, order[j], order[k]))
  }

  /** The first `m` matches of the sweep are legally coloured, with the courts of `freeAt`,
      each of which is taken until the end of its last match. */
  ghost predicate Swept(blocks: seq<Block>, order: seq<int>, m: nat, colour: seq<nat>, freeAt: seq<int>)
    requires Sweeps(blocks, order) && m <= |order| && |colour| == |blocks|
  {
    && (forall j :: 0 <= j < m ==> colour[order[j]] < |freeAt| && blocks[order[j]].end <= freeAt[colour[order[j]]])
    && (forall j, k :: 0 <= j < k < m && colour[order[j]] == colour[order[k]] ==>
        Disjoint(blocks[order[j]], blocks[order[k]]))
  }

  /** `who[c]` is a match of court `c` among the first `m` of the sweep. */
  ghost predicate OnEachCourt(blocks: seq<Block>, order: seq<int>, m: nat, colour: seq<nat>, who: seq<int>, courts: nat)
    requires Sweeps(blocks, order) && m <= |order| && |colour| == |blocks|
  {
    |who| == courts && forall c :: 0 <= c < courts ==>
      who[c] in order[..m] && 0 <= who[c] < |blocks| && colour[who[c]] == c
  }

  /** An earlier match of the court is still on when match `i` starts. */
  ghost predicate CourtTaken(blocks: seq<Block>, colour: seq<nat>, i: int, c: nat)
    requires |colour| == |blocks| && 0 <= i < |blocks|
  {
    exists j :: 0 <= j < |blocks| && Earlier(blocks, j, i) && colour[j] == c && blocks[j].end > blocks[i].start
  }

  /** A match is only on a higher court if all lower ones are taken. */
  ghost predicate LowestFree(blocks: seq<Block>, order: seq<int>, m: nat, colour: seq<nat>)
    requires Sweeps(blocks, order) && m <= |order| && |colour| == |blocks|
  {
    forall k, c :: 0 <= k < m && 0 <= c < colour[order[k]] ==> CourtTaken(blocks, colour, order[k], c)
  }

  /** A court given to one match later on changes nothing for those before it. */
  lemma StillTaken(blocks: seq<Block>, order: seq<int>, m: nat, colour: seq<nat>, c: nat, k: nat, d: nat)
    requires Sweeps(blocks, order) && k < m < |order| && |colour| == |blocks|
    requires CourtTaken(blocks, colour, order[k], d)
    ensures CourtTaken(blocks, colour[order[m] := c], order[k], d)
  {
    var j :| 0 <= j < |blocks| && Earlier(blocks, j, order[k]) && colour[j] == d
      && blocks[j].end > blocks[order[k]].start;
    assert Earlier(blocks, order[k], order[m]) && j != order[m];
    assert colour[order[m] := c][j] == d;
  }

  lemma StepKeepsLowest(blocks: seq<Block>, order: seq<int>, m: nat, colour: seq<nat>, freeAt: seq<int>,
                        last: seq<int>, c: nat)
    requires Sweeps(blocks, order) && m < |order| && |colour| == |blocks| && LowestFree(blocks, order, m, colour)
    requires OnEachCourt(blocks, order, m, colour, last, |freeAt|) && TakenUntil(blocks, last, freeAt)
    requires c <= |freeAt| && forall d :: 0 <= d < c ==> freeAt[d] > blocks[order[m]].start
    ensures LowestFree(blocks, order, m + 1, colour[order[m] := c])
  {
    var colour' := colour[order[m] := c];
    forall k, d | 0 <= k < m + 1 && 0 <= d < colour'[order[k]]
      ensures CourtTaken(blocks, colour', order[k], d)
    {
      if k < m {
        StillTaken(blocks, order, m, colour, c, k, d);
      } else {
        assert last[d] in order[..m] && colour[last[d]] == d;
        assert Earlier(blocks, last[d], order[m]) && colour'[last[d]] == d;
      }
    }
  }

  lemma StepKeepsSwept(blocks: seq<Block>, order: seq<int>, m: nat, colour: seq<nat>, freeAt: seq<int>, c: nat,
                       colour': seq<nat>, freeAt': seq<int>)
    requires Sweeps(blocks, order) && m < |order| && |colour| == |blocks| && Swept(blocks, order, m, colour, freeAt)
    requires blocks[order[m]].start <= blocks[order[m]].end
    requires c <= |freeAt| && (c < |freeAt| ==> freeAt[c] <= blocks[order[m]].start)
    requires colour' == colour[order[m] := c]
    requires freeAt' == if c < |freeAt| then freeAt[c := blocks[order[m]].end] else freeAt + [blocks[order[m]].end]
    ensures Swept(blocks, order, m + 1, colour', freeAt')
  {
    forall j | 0 <= j < m + 1
      ensures colour'[order[j]] < |freeAt'| && blocks[order[j]].end <= freeAt'[colour'[order[j]]]
    {
    }
    forall j, k | 0 <= j < k < m + 1 && colour'[order[j]] == colour'[order[k]]
      ensures Disjoint(blocks[order[j]], blocks[order[k]])
    {
    }
  }

  lemma StepKeepsOnEachCourt(blocks: seq<Block>, order: seq<int>, m: nat, colour: seq<nat>, who: seq<int>, courts: nat,
                             c: nat)
    requires Sweeps(blocks, order) && m < |order| && |colour| == |blocks|
    requires OnEachCourt(blocks, order, m, colour, who, courts)
    ensures OnEachCourt(blocks, order, m + 1, colour[order[m] := c], who, courts)
    ensures c < courts ==> OnEachCourt(blocks, order, m + 1, colour[order[m] := c], who[c := order[m]], courts)
    ensures c == courts ==> OnEachCourt(blocks, order, m + 1, colour[order[m] := c], who + [order[m]], courts + 1)
  {
    assert order[..m + 1] == order[..m] + [order[m]];
  }

  /** Each court is taken until the end of `last` on it. */
  ghost predicate TakenUntil(blocks: seq<Block>, last: seq<int>, freeAt: seq<int>) {
    |last| == |freeAt| && forall c :: 0 <= c < |last| ==> 0 <= last[c] < |blocks| && blocks[last[c]].end == freeAt[c]
  }

  /** The matches of `crowd` are all alive at `peak`. */
  ghost predicate Crowded(blocks: seq<Block>, crowd: seq<int>, peak: int) {
    forall c :: 0 <= c < |crowd| ==> 0 <= crowd[c] < |blocks| && Covers(blocks[crowd[c]], peak)
  }

  /** When no court is free, the last matches of all courts are alive, and so is the next. */
  lemma NewPeak(blocks: seq<Block>, order: seq<int>, m: nat, colour: seq<nat>, last: seq<int>, freeAt: seq<int>)
    requires Sweeps(blocks, order) && m < |order| && |colour| == |blocks|
    requires OnEachCourt(blocks, order, m, colour, last, |freeAt|) && TakenUntil(blocks, last, freeAt)
    requires blocks[order[m]].start < blocks[order[m]].end
    requires forall c :: 0 <= c < |freeAt| ==> freeAt[c] > blocks[order[m]].start
    ensures Crowded(blocks, last + [order[m]], blocks[order[m]].start)
  {
    forall c | 0 <= c < |last|
      ensures Covers(blocks[last[c]], blocks[order[m]].start)
    {
      assert last[c] in order[..m];
    }
  }

  /** A crowd of matches of different courts is no larger than the set of matches alive at its peak. */
  lemma CrowdIsAlive(blocks: seq<Block>, order: seq<int>, colour: seq<nat>, crowd: seq<int>, peak: int)
    requires Sweeps(blocks, order) && |colour| == |blocks|
    requires OnEachCourt(blocks, order, |order|, colour, crowd, |crowd|) && Crowded(blocks, crowd, peak)
    ensures |crowd| <= |AliveAt(blocks, peak)|
  {
    var positions := seq(|crowd|, c requires 0 <= c < |crowd| => var i: nat := crowd[c]; i);
    assert forall c :: 0 <= c < |crowd| ==> colour[positions[c]] == c;
    InjectiveIsSmaller(Below(|crowd|), AliveAt(blocks, peak), positions);
  }

  lemma SweptIsLegal(blocks: seq<Block>, order: seq<int>, colour: seq<nat>, freeAt: seq<int>)
    requires Sweeps(blocks, order) && |colour| == |blocks| && Swept(blocks, order, |order|, colour, freeAt)
    requires forall i :: 0 <= i < |blocks| ==> i in order
    ensures Legal(blocks, colour) && Within(colour, |freeAt|)
  {
    forall i, j | 0 <= i < |blocks| && 0 <= j < |blocks| && i != j && colour[i] == colour[j]
      ensures Disjoint(blocks[i], blocks[j])
    {
      assert i in order && j in order;
      var k :| 0 <= k < |order| && order[k] == i;
      var l :| 0 <= l < |order| && order[l] == j;
    }
    forall i | 0 <= i < |colour|
      ensures colour[i] < |freeAt|
    {
      assert i in order;
      var k :| 0 <= k < |order| && order[k] == i;
    }
  }

  /** What holds after `m` steps of the sweep: a legal colouring, the last match of each
      court, and as many matches as there are courts, one of each, alive at one slot. */
  ghost predicate SweepState(blocks: seq<Block>, order: seq<int>, m: nat, colour: seq<nat>, freeAt: seq<int>,
                             last: seq<int>, crowd: seq<int>, peak: int)
    requires Sweeps(blocks, order) && m <= |order|
  {
    && |colour| == |blocks| && Swept(blocks, order, m, colour, freeAt) && LowestFree(blocks, order, m, colour)
    && OnEachCourt(blocks, order, m, colour, last, |freeAt|) && TakenUntil(blocks, last, freeAt)
    && OnEachCourt(blocks, order, m, colour, crowd, |freeAt|) && Crowded(blocks, crowd, peak)
  }

  lemma ReuseCourt(blocks: seq<Block>, order: seq<int>, m: nat, colour: seq<nat>, freeAt: seq<int>,
                   last: seq<int>, crowd: seq<int>, peak: int, c: nat)
    requires Sweeps(blocks, order) && m < |order| && SweepState(blocks, order, m, colour, freeAt, last, crowd, peak)
    requires blocks[order[m]].start < blocks[order[m]].end && c < |freeAt| && freeAt[c] <= blocks[order[m]].start
    requires forall d :: 0 <= d < c ==> freeAt[d] > blocks[order[m]].start
    ensures SweepState(blocks, order, m + 1, colour[order[m] := c], freeAt[c := blocks[order[m]].end],
                       last[c := order[m]], crowd, peak)
  {
    StepKeepsSwept(blocks, order, m, colour, freeAt, c, colour[order[m] := c], freeAt[c := blocks[order[m]].end]);
    StepKeepsLowest(blocks, order, m, colour, freeAt, last, c);
    StepKeepsOnEachCourt(blocks, order, m, colour, last, |freeAt|, c);
    StepKeepsOnEachCourt(blocks, order, m, colour, crowd, |freeAt|, c);
  }

  lemma OpenCourt(blocks: seq<Block>, order: seq<int>, m: nat, colour: seq<nat>, freeAt: seq<int>,
                  last: seq<int>, crowd: seq<int>, peak: int)
    requires Sweeps(blocks, order) && m < |order| && SweepState(blocks, order, m, colour, freeAt, last, crowd, peak)
    requires blocks[order[m]].start < blocks[order[m]].end
    requires forall c :: 0 <= c < |freeAt| ==> freeAt[c] > blocks[order[m]].start
    ensures SweepState(blocks, order, m + 1, colour[order[m] := |freeAt|], freeAt + [blocks[order[m]].end],
                       last + [order[m]], last + [order[m]], blocks[order[m]].start)
  {
    StepKeepsSwept(blocks, order, m, colour, freeAt, |freeAt|, colour[order[m] := |freeAt|],
      freeAt + [blocks[order[m]].end]);
    StepKeepsLowest(blocks, order, m, colour, freeAt, last, |freeAt|);
    StepKeepsOnEachCourt(blocks, order, m, colour, last, |freeAt|, |freeAt|);
    NewPeak(blocks, order, m, colour, last, freeAt);
  }

  lemma SweepDone(blocks: seq<Block>, order: seq<int>, colour: seq<nat>, freeAt: seq<int>, last: seq<int>,
                  crowd: seq<int>, peak: int)
    requires Sweeps(blocks, order) && SweepState(blocks, order, |order|, colour, freeAt, last, crowd, peak)
    requires forall i :: 0 <= i < |blocks| ==> i in order
    ensures Legal(blocks, colour) && Within(colour, |freeAt|)
    ensures forall x :: |AliveAt(blocks, x)| <= |freeAt|
    ensures |AliveAt(blocks, peak)| == |freeAt|
    ensures forall i, c :: 0 <= i < |blocks| && 0 <= c < colour[i] ==> CourtTaken(blocks, colour, i, c)
  {
    forall i, c | 0 <= i < |blocks| && 0 <= c < colour[i]
      ensures CourtTaken(blocks, colour, i, c)
    {
      assert i in order;
      var k :| 0 <= k < |order| && order[k] == i;
    }
    SweptIsLegal(blocks, order, colour, freeAt);
    forall x
      ensures |AliveAt(blocks, x)| <= |freeAt|
    {
      LegalNeedsCourts(blocks, colour, |freeAt|, x);
    }
    CrowdIsAlive(blocks, order, colour, crowd, peak);
  }

  /** The lowest court that is free at `start`, or a new one. */
  method FreeCourt(freeAt: seq<int>, start: int) returns (c: nat)
    ensures c <= |freeAt| && (c < |freeAt| ==> freeAt[c] <= start)
    ensures forall d :: 0 <= d < c ==> freeAt[d] > start
  {
    c := 0;
    while c < |freeAt| && freeAt[c] > start
      invariant c <= |freeAt|
      invariant forall d :: 0 <= d < c ==> freeAt[d] > start
    {
      c := c + 1;
    }
  }

  /** One step of the sweep. */
  method ColourNext(block: Block, ghost blocks: seq<Block>, order: seq<int>, m: nat, colour: seq<nat>, freeAt: seq<int>,
                    ghost last: seq<int>, ghost crowd: seq<int>, ghost peak: int)
    returns (colour': seq<nat>, freeAt': seq<int>, ghost last': seq<int>, ghost crowd': seq<int>, ghost peak': int)
    requires Sweeps(blocks, order) && m < |order| && SweepState(blocks, order, m, colour, freeAt, last, crowd, peak)
    requires block == blocks[order[m]] && block.start < block.end
    ensures SweepState(blocks, order, m + 1, colour', freeAt', last', crowd', peak')
  {
    var c := FreeCourt(freeAt, block.start);
    colour' := colour[order[m] := c];
    crowd', peak' := crowd, peak;
    if c < |freeAt| {
      ReuseCourt(blocks, order, m, colour, freeAt, last, crowd, peak, c);
      freeAt' := freeAt[c := block.end];
      last' := last[c := order[m]];
    } else {
      OpenCourt(blocks, order, m, colour, freeAt, last, crowd, peak);
      freeAt' := freeAt + [block.end];
      last' := last + [order[m]];
      crowd', peak' := last', block.start;
    }
  }

  /** The matches that are on at slot `x`. */
  ghost function OnAt(starts: seq<int>, durations: seq<int>, x: int): set<nat>
    requires |starts| == |durations|
  {
    set i: nat | i < |starts| && starts[i] <= x < starts[i] + durations[i]
  }

  lemma OnAtIsAlive(starts: seq<int>, durations: seq<int>, x: int)
    requires |starts| == |durations|
    ensures AliveAt(BlocksOf(starts, durations), x) == OnAt(starts, durations, x)
  {
  }

  /** Two matches on one court do not overlap. */
  ghost predicate Coloured(starts: seq<int>, durations: seq<int>, colour: seq<nat>)
    requires |starts| == |durations|
  {
    && |colour| == |starts|
    && forall i, j :: 0 <= i < j < |starts| && colour[i] == colour[j] ==>
         starts[i] + durations[i] <= starts[j] || starts[j] + durations[j] <= starts[i]
  }

  /** A match before it in the sweep is still on, on court `c`. */
  ghost predicate TakenFor(starts: seq<int>, durations: seq<int>, colour: seq<nat>, i: nat, c: nat)
    requires |starts| == |durations| == |colour| && i < |starts|
  {
    exists j: nat :: j < |starts| && (starts[j] < starts[i] || (starts[j] == starts[i] && j < i)) && colour[j] == c
      && starts[j] + durations[j] > starts[i]
  }

  lemma TakenIsTaken(starts: seq<int>, durations: seq<int>, colour: seq<nat>, i: nat, c: nat)
    requires |starts| == |durations| == |colour| && i < |starts|
    requires CourtTaken(BlocksOf(starts, durations), colour, i, c)
    ensures TakenFor(starts, durations, colour, i, c)
  {
    var blocks := BlocksOf(starts, durations);
    var j :| 0 <= j < |blocks| && Earlier(blocks, j, i) && colour[j] == c && blocks[j].end > blocks[i].start;
    var k: nat := j;
    assert colour[k] == c && starts[k] + durations[k] > starts[i];
  }

  /** Colour the matches with courts. The colouring is legal, a match is on the lowest court that none before
      it still takes, and `courts`, the number of courts it uses, is the number of matches on at the busiest
      slot. */
  method ColourLeftEdge(starts: seq<int>, durations: seq<int>) returns (colour: seq<nat>, ghost courts: nat)
    requires |starts| == |durations| && forall i :: 0 <= i < |durations| ==> durations[i] > 0
    ensures Coloured(starts, durations, colour) && Legal(BlocksOf(starts, durations), colour)
    ensures Within(colour, courts)
    ensures forall i, c :: 0 <= i < |starts| && 0 <= c < colour[i] ==> TakenFor(starts, durations, colour, i, c)
    ensures forall x :: |OnAt(starts, durations, x)| <= courts
    ensures exists x :: |OnAt(starts, durations, x)| == courts
  {
    ghost var blocks := BlocksOf(starts, durations);
    var order := SweepOrder(starts);
    SweepOrderVisits(starts);
    colour := seq(|starts|, _ => 0);
    var freeAt: seq<int> := [];
    ghost var last: seq<int>, crowd: seq<int>, peak := [], [], 0;
    for m := 0 to |order|
      invariant SweepState(blocks, order, m, colour, freeAt, last, crowd, peak)
    {
      var i := order[m];
      colour, freeAt, last, crowd, peak :=
        ColourNext(Block(starts[i], starts[i] + durations[i]), blocks, order, m, colour, freeAt, last, crowd, peak);
    }
    courts := |freeAt|;
    SweepDone(blocks, order, colour, freeAt, last, crowd, peak);
    ColouredAsSwept(starts, durations, blocks, colour, courts, peak);
  }

  /** What the sweep ends with, on starts and durations. */
  lemma ColouredAsSwept(starts: seq<int>, durations: seq<int>, blocks: seq<Block>, colour: seq<nat>, courts: nat,
                        peak: int)
    requires |starts| == |durations| && blocks == BlocksOf(starts, durations) && Legal(blocks, colour)
    requires forall x :: |AliveAt(blocks, x)| <= courts
    requires |AliveAt(blocks, peak)| == courts
    requires forall i, c :: 0 <= i < |blocks| && 0 <= c < colour[i] ==> CourtTaken(blocks, colour, i, c)
    ensures Coloured(starts, durations, colour)
    ensures forall x :: |OnAt(starts, durations, x)| <= courts
    ensures |OnAt(starts, durations, peak)| == courts
    ensures forall i, c :: 0 <= i < |starts| && 0 <= c < colour[i] ==> TakenFor(starts, durations, colour, i, c)
  {
    forall x
      ensures AliveAt(blocks, x) == OnAt(starts, durations, x)
    {
      OnAtIsAlive(starts, durations, x);
    }
    forall i, c | 0 <= i < |starts| && 0 <= c < colour[i]
      ensures TakenFor(starts, durations, colour, i, c)
    {
      TakenIsTaken(starts, durations, colour, i, c);
    }
  }

  /** A capacity that is never exceeded is enough courts, and no colouring needs fewer than the depth. */
  lemma CapacityIsEnough(blocks: seq<Block>, courts: nat, peak: int, capacity: nat, colour: seq<nat>, other: nat)
    requires |AliveAt(blocks, peak)| == courts
    requires Legal(blocks, colour) && Within(colour, other)
    requires forall x :: |AliveAt(blocks, x)| <= capacity
    ensures courts <= capacity && courts <= other
  {
    LegalNeedsCourts(blocks, colour, other, peak);
  }
}
