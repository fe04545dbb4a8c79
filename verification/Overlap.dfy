/** The validators that sort windows and compare neighbours: when that decides whether
    any two of them overlap, and when it does not. */
module Overlap {
  import opened Intervals

  /** The slots a match takes, and the match. */
  datatype Window = Window(block: Block, unit: string)

  /** Which pairs of windows a statement is about: all, those with a match of the current
      wave, or those of earlier waves only. */
  datatype Scope = All | Wave(current: set<string>) | History(current: set<string>)

  predicate InScope(w: Window, v: Window, scope: Scope) {
    match scope
    case All => true
    case Wave(current) => w.unit in current || v.unit in current
    case History(current) => w.unit !in current && v.unit !in current
  }

  predicate Clear(w: Window, v: Window, scope: Scope) {
    InScope(w, v, scope) ==> Disjoint(w.block, v.block)
  }

  predicate ClearOf(w: Window, ws: seq<Window>, scope: Scope) {
    forall v | v in ws :: Clear(w, v, scope)
  }

  /** No two windows in the scope overlap. */
  predicate NoOverlap(ws: seq<Window>, scope: Scope) {
    ws == [] || (ClearOf(ws[0], ws[1..], scope) && NoOverlap(ws[1..], scope))
  }

  /** `NoOverlap` is about every pair. */
  lemma {:induction false} NoOverlapPairwise(ws: seq<Window>, scope: Scope)
    ensures NoOverlap(ws, scope) <==> forall i, j :: 0 <= i < j < |ws| ==> Clear(ws[i], ws[j], scope)
    decreases |ws|
  {
    if ws != [] {
      NoOverlapPairwise(ws[1..], scope);
      assert forall i :: 0 <= i < |ws| - 1 ==> ws[1..][i] == ws[i + 1];
      if NoOverlap(ws, scope) {
        forall i, j | 0 <= i < j < |ws|
          ensures Clear(ws[i], ws[j], scope)
        {
          assert ws[j] == ws[1..][j - 1];
          assert i > 0 ==> ws[i] == ws[1..][i - 1];
        }
      }
    }
  }

  /** Two windows overlap if neither ends by the time the other starts. */
  predicate Meet(w: Window, v: Window) {
    w.block.start < v.block.end && v.block.start < w.block.end
  }

  lemma AllInPlainTerms(ws: seq<Window>)
    ensures NoOverlap(ws, All) <==> forall i, j :: 0 <= i < j < |ws| ==> !Meet(ws[i], ws[j])
  {
    NoOverlapPairwise(ws, All);
    assert forall w, v :: Clear(w, v, All) <==> !Meet(w, v);
  }

  lemma WaveInPlainTerms(ws: seq<Window>, current: set<string>)
    ensures NoOverlap(ws, Wave(current)) <==>
      forall i, j :: 0 <= i < j < |ws| && (ws[i].unit in current || ws[j].unit in current) ==> !Meet(ws[i], ws[j])
  {
    NoOverlapPairwise(ws, Wave(current));
    assert forall w, v :: Clear(w, v, Wave(current)) <==> (w.unit in current || v.unit in current ==> !Meet(w, v));
  }

  lemma HistoryInPlainTerms(ws: seq<Window>, current: set<string>)
    ensures NoOverlap(ws, History(current)) <==>
      forall i, j :: 0 <= i < j < |ws| && ws[i].unit !in current && ws[j].unit !in current ==> !Meet(ws[i], ws[j])
  {
    NoOverlapPairwise(ws, History(current));
    assert forall w, v :: Clear(w, v, History(current)) <==>
      (w.unit !in current && v.unit !in current ==> !Meet(w, v));
  }

  /** What freedom from overlaps says of all windows, of those of a wave with any others, and of the earlier
      ones among each other. */
  lemma NoOverlapInPlainTerms(ws: seq<Window>, current: set<string>)
    ensures NoOverlap(ws, All) <==> forall i, j :: 0 <= i < j < |ws| ==> !Meet(ws[i], ws[j])
    ensures NoOverlap(ws, Wave(current)) <==>
      forall i, j :: 0 <= i < j < |ws| && (ws[i].unit in current || ws[j].unit in current) ==> !Meet(ws[i], ws[j])
    ensures NoOverlap(ws, History(current)) <==>
      forall i, j :: 0 <= i < j < |ws| && ws[i].unit !in current && ws[j].unit !in current ==> !Meet(ws[i], ws[j])
  {
    AllInPlainTerms(ws);
    WaveInPlainTerms(ws, current);
    HistoryInPlainTerms(ws, current);
  }

  ghost predicate NonEmpty(ws: seq<Window>) {
    forall w :: w in ws ==> w.block.start < w.block.end
  }

  // ---- sorting and comparing neighbours ----------------------------------------

  const BY_START := (w: Window) => (w.block.start, w.block.end)

  lemma {:induction false} InsertMembers(w: Window, ws: seq<Window>)
    ensures forall v :: v in Insert(w, ws, BY_START) <==> v == w || v in ws
    decreases |ws|
  {
    if ws != [] {
      InsertMembers(w, ws[1..]);
    }
  }

  lemma {:induction false} InsertOverlaps(w: Window, ws: seq<Window>, scope: Scope)
    ensures NoOverlap(Insert(w, ws, BY_START), scope) <==> ClearOf(w, ws, scope) && NoOverlap(ws, scope)
    decreases |ws|
  {
    if ws == [] {
      assert [w][1..] == [];
    } else if AtMost(BY_START(w), BY_START(ws[0])) {
      assert ([w] + ws)[1..] == ws;
    } else {
      var rest := Insert(w, ws[1..], BY_START);
      InsertOverlaps(w, ws[1..], scope);
      InsertMembers(w, ws[1..]);
      assert ([ws[0]] + rest)[1..] == rest;
      assert ClearOf(ws[0], rest, scope) <==> Clear(ws[0], w, scope) && ClearOf(ws[0], ws[1..], scope);
      ClearOfOneMore(w, ws, scope);
    }
  }

  lemma ClearOfOneMore(w: Window, ws: seq<Window>, scope: Scope)
    requires ws != []
    ensures ClearOf(w, ws, scope) <==> Clear(ws[0], w, scope) && ClearOf(w, ws[1..], scope)
  {
    assert Clear(ws[0], w, scope) == Clear(w, ws[0], scope);
    assert forall v :: v in ws <==> v == ws[0] || v in ws[1..];
  }

  /** Sorting windows does not change which of them there are, nor whether they overlap. */
  lemma {:induction false} SortOverlaps(ws: seq<Window>, scope: Scope)
    ensures forall w :: w in Sort(ws, BY_START) <==> w in ws
    ensures NoOverlap(Sort(ws, BY_START), scope) <==> NoOverlap(ws, scope)
    decreases |ws|
  {
    if ws != [] {
      SortOverlaps(ws[1..], scope);
      InsertMembers(ws[0], Sort(ws[1..], BY_START));
      InsertOverlaps(ws[0], Sort(ws[1..], BY_START), scope);
    }
  }

  ghost predicate NeighboursClear(ws: seq<Window>) {
    forall i :: 0 <= i < |ws| - 1 ==> ws[i].block.end <= ws[i + 1].block.start
  }

  lemma {:induction false} EndsBefore(ws: seq<Window>, i: nat, j: nat)
    requires NonEmpty(ws) && NeighboursClear(ws) && i < j < |ws|
    ensures ws[i].block.end <= ws[j].block.start
    decreases j
  {
    if i < j - 1 {
      EndsBefore(ws, i, j - 1);
      assert ws[j - 1] in ws && ws[j - 1].block.end <= ws[j - 1 + 1].block.start;
    }
  }

  /** Of sorted non-empty windows none overlap exactly if no neighbours do. */
  lemma NeighboursDecide(ws: seq<Window>)
    requires Sorted(ws, BY_START) && NonEmpty(ws)
    ensures NeighboursClear(ws) <==> NoOverlap(ws, All)
  {
    NoOverlapPairwise(ws, All);
    if NeighboursClear(ws) {
      forall i, j | 0 <= i < j < |ws|
        ensures Clear(ws[i], ws[j], All)
      {
        EndsBefore(ws, i, j);
      }
    }
    if NoOverlap(ws, All) {
      forall i | 0 <= i < |ws| - 1
        ensures ws[i].block.end <= ws[i + 1].block.start
      {
        assert Clear(ws[i], ws[i + 1], All) && AtMost(BY_START(ws[i]), BY_START(ws[i + 1]));
        assert ws[i] in ws && ws[i + 1] in ws;
      }
    }
  }

  datatype Clash = Clash(first: Window, second: Window)

  /** The validators' test of two neighbours. */
  predicate Clashes(w: Window, v: Window, scope: Scope) {
    v.block.start < w.block.end && InScope(w, v, scope)
  }

  /** Both windows of a reported clash are there, in this order, and overlap. */
  ghost predicate Real(clash: Clash, ws: seq<Window>, scope: Scope) {
    && clash.first in ws && clash.second in ws && InScope(clash.first, clash.second, scope)
    && clash.first.block.start <= clash.second.block.start < clash.first.block.end
  }

  ghost predicate NoNeighbourClashes(ws: seq<Window>, n: nat, scope: Scope) {
    forall i :: 0 <= i < n && i < |ws| - 1 ==> !Clashes(ws[i], ws[i + 1], scope)
  }

  lemma NeighbourIsReal(ws: seq<Window>, scope: Scope, i: nat)
    requires var sorted := Sort(ws, BY_START);
      0 < i < |sorted| && Clashes(sorted[i - 1], sorted[i], scope)
    ensures Real(Clash(Sort(ws, BY_START)[i - 1], Sort(ws, BY_START)[i]), ws, scope)
  {
    var sorted := Sort(ws, BY_START);
    SortSorts(ws, BY_START);
    SortOverlaps(ws, scope);
    assert sorted[i - 1] in sorted && sorted[i] in sorted && AtMost(BY_START(sorted[i - 1]), BY_START(sorted[i]));
  }

  /** Of the windows in order, two that follow each other, and clash. */
  ghost predicate Reported(clash: Clash, sorted: seq<Window>, n: nat, scope: Scope) {
    exists i :: 0 <= i < n && i < |sorted| - 1 && ReportedAt(clash, sorted, i, scope)
  }

  /** The pair at position `n`. */
  predicate ReportedAt(clash: Clash, sorted: seq<Window>, n: nat, scope: Scope)
    requires n < |sorted| - 1
  {
    Clashes(sorted[n], sorted[n + 1], scope) && clash == Clash(sorted[n], sorted[n + 1])
  }

  lemma OneMoreReported(clash: Clash, sorted: seq<Window>, n: nat, scope: Scope)
    requires n < |sorted| - 1
    ensures Reported(clash, sorted, n + 1, scope) <==>
      Reported(clash, sorted, n, scope) || ReportedAt(clash, sorted, n, scope)
  {
  }

  lemma NothingReported(sorted: seq<Window>, n: nat, scope: Scope)
    ensures NoNeighbourClashes(sorted, n, scope) <==> forall c :: !Reported(c, sorted, n, scope)
  {
    if !NoNeighbourClashes(sorted, n, scope) {
      var i :| 0 <= i < n && i < |sorted| - 1 && Clashes(sorted[i], sorted[i + 1], scope);
      assert ReportedAt(Clash(sorted[i], sorted[i + 1]), sorted, i, scope);
      assert Reported(Clash(sorted[i], sorted[i + 1]), sorted, n, scope);
    }
  }

  lemma ReportedIsReal(clash: Clash, ws: seq<Window>, n: nat, scope: Scope)
    requires Reported(clash, Sort(ws, BY_START), n, scope)
    ensures Real(clash, ws, scope)
  {
    var sorted := Sort(ws, BY_START);
    var i :| 0 <= i < n && i < |sorted| - 1 && ReportedAt(clash, sorted, i, scope);
    NeighbourIsReal(ws, scope, i + 1);
  }

  /** One more pair compared. */
  lemma NextReported(clashes: seq<Clash>, clashes': seq<Clash>, sorted: seq<Window>, n: nat, scope: Scope)
    requires n < |sorted| - 1 && forall c :: c in clashes <==> Reported(c, sorted, n, scope)
    requires clashes' == if Clashes(sorted[n], sorted[n + 1], scope) then clashes + [Clash(sorted[n], sorted[n + 1])]
                         else clashes
    ensures forall c :: c in clashes' <==> Reported(c, sorted, n + 1, scope)
  {
    forall c
      ensures c in clashes' <==> Reported(c, sorted, n + 1, scope)
    {
      OneMoreReported(c, sorted, n, scope);
    }
  }

  /** Sort the windows and report the neighbours that clash. */
  method NeighbourClashes(ws: seq<Window>, scope: Scope) returns (clashes: seq<Clash>)
    requires NonEmpty(ws)
    ensures clashes == [] <==> NoNeighbourClashes(Sort(ws, BY_START), |ws|, scope)
    ensures forall c :: c in clashes ==> Real(c, ws, scope)
    ensures forall c :: c in clashes <==> Reported(c, Sort(ws, BY_START), |ws|, scope)
  {
    var sorted := Sort(ws, BY_START);
    SortSorts(ws, BY_START);
    clashes := [];
    var i := 1;
    while i < |sorted|
      invariant 1 <= i && (i <= |sorted| || sorted == [])
      invariant forall c :: c in clashes <==> Reported(c, sorted, i - 1, scope)
    {
      ghost var before := clashes;
      if Clashes(sorted[i - 1], sorted[i], scope) {
        clashes := clashes + [Clash(sorted[i - 1], sorted[i])];
      }
      NextReported(before, clashes, sorted, i - 1, scope);
      i := i + 1;
    }
    AllReported(ws, clashes, i - 1, scope);
  }

  lemma AllReported(ws: seq<Window>, clashes: seq<Clash>, n: nat, scope: Scope)
    requires |Sort(ws, BY_START)| == |ws| <= n + 1
    requires forall c :: c in clashes <==> Reported(c, Sort(ws, BY_START), n, scope)
    ensures clashes == [] <==> NoNeighbourClashes(Sort(ws, BY_START), |ws|, scope)
    ensures forall c :: c in clashes ==> Real(c, ws, scope)
    ensures forall c :: c in clashes <==> Reported(c, Sort(ws, BY_START), |ws|, scope)
  {
    var sorted := Sort(ws, BY_START);
    forall c
      ensures Reported(c, sorted, n, scope) <==> Reported(c, sorted, |ws|, scope)
    {
    }
    NothingReported(sorted, |ws|, scope);
    assert clashes != [] ==> clashes[0] in clashes;
    forall c | c in clashes
      ensures Real(c, ws, scope)
    {
      ReportedIsReal(c, ws, n, scope);
    }
  }

  /** Checking all neighbours finds a clash exactly if two of the windows overlap. */
  method AllClashes(ws: seq<Window>) returns (clashes: seq<Clash>)
    requires NonEmpty(ws)
    ensures clashes == [] <==> NoOverlap(ws, All)
    ensures forall c :: c in clashes ==> Real(c, ws, All)
    ensures forall c :: c in clashes <==> Reported(c, Sort(ws, BY_START), |ws|, All)
  {
    clashes := NeighbourClashes(ws, All);
    SortSorts(ws, BY_START);
    SortOverlaps(ws, All);
    NeighboursDecide(Sort(ws, BY_START));
  }

  // ---- the check of one wave ------------------------------------------------------

  predicate Earlier(w: Window, current: set<string>) {
    w.unit !in current
  }

  /** `last` is the last of the sorted earlier windows that start at or before `x`. */
  ghost predicate LastStarting(ws: seq<Window>, current: set<string>, x: int, last: Window) {
    && last in ws && Earlier(last, current) && last.block.start <= x
    && forall e :: e in ws && Earlier(e, current) && e.block.start <= x ==> AtMost(BY_START(e), BY_START(last))
  }

  /** Wherever an earlier window lies, the last one that has started lies there too. A caller can
      check this of the earlier windows before the wave is laid. */
  ghost predicate LastCovers(ws: seq<Window>, current: set<string>) {
    forall x, e, last {:trigger LastStarting(ws, current, x, last), Covers(e.block, x)} ::
      e in ws && Earlier(e, current) && Covers(e.block, x) && LastStarting(ws, current, x, last) ==>
      Covers(last.block, x)
  }

  lemma NeighbourStarts(ws: seq<Window>, i: nat, j: nat)
    requires Sorted(ws, BY_START) && i <= j < |ws|
    ensures ws[i].block.start <= ws[j].block.start
  {
    assert i < j ==> AtMost(BY_START(ws[i]), BY_START(ws[j]));
  }

  /** A window of the wave overlaps nothing after it that its successor does not. */
  lemma WaveEndsBefore(ws: seq<Window>, current: set<string>, i: nat, j: nat)
    requires Sorted(ws, BY_START) && NoNeighbourClashes(ws, |ws|, Wave(current)) && i < j < |ws|
    requires !Earlier(ws[i], current)
    ensures ws[i].block.end <= ws[j].block.start
  {
    assert !Clashes(ws[i], ws[i + 1], Wave(current));
    NeighbourStarts(ws, i + 1, j);
  }

  /** Between `i` and a window `j` of the wave, the last earlier window. */
  lemma {:induction false} LastEarlierBefore(ws: seq<Window>, current: set<string>, i: nat, j: nat) returns (q: nat)
    requires i < j < |ws| && Earlier(ws[i], current)
    ensures i <= q < j && Earlier(ws[q], current) && forall k :: q < k < j ==> !Earlier(ws[k], current)
    decreases j
  {
    if Earlier(ws[j - 1], current) {
      q := j - 1;
    } else {
      q := LastEarlierBefore(ws, current, i, j - 1);
    }
  }

  /** That window is the last that starts at or before the start of `j`. */
  lemma IsLastStarting(ws: seq<Window>, current: set<string>, q: nat, j: nat)
    requires Sorted(ws, BY_START) && NonEmpty(ws) && NoNeighbourClashes(ws, |ws|, Wave(current))
    requires q < j < |ws| && Earlier(ws[q], current) && !Earlier(ws[j], current)
    requires forall k :: q < k < j ==> !Earlier(ws[k], current)
    ensures LastStarting(ws, current, ws[j].block.start, ws[q])
  {
    NeighbourStarts(ws, q, j);
    forall e | e in ws && Earlier(e, current) && e.block.start <= ws[j].block.start
      ensures AtMost(BY_START(e), BY_START(ws[q]))
    {
      var k :| 0 <= k < |ws| && ws[k] == e;
      if k > j {
        WaveEndsBefore(ws, current, j, k);
      }
      assert ws[j] in ws;
      assert k < q ==> AtMost(BY_START(ws[k]), BY_START(ws[q]));
    }
  }

  /** The wave is clear if no neighbours clash. */
  lemma NoClashMeansClear(ws: seq<Window>, current: set<string>, i: nat, j: nat)
    requires Sorted(ws, BY_START) && NonEmpty(ws) && LastCovers(ws, current)
    requires NoNeighbourClashes(ws, |ws|, Wave(current)) && i < j < |ws|
    ensures Clear(ws[i], ws[j], Wave(current))
  {
    if !Earlier(ws[i], current) {
      WaveEndsBefore(ws, current, i, j);
    } else if !Earlier(ws[j], current) && ws[j].block.start < ws[i].block.end {
      var x := ws[j].block.start;
      NeighbourStarts(ws, i, j);
      var q := LastEarlierBefore(ws, current, i, j);
      IsLastStarting(ws, current, q, j);
      assert ws[i] in ws && Covers(ws[i].block, x);
      assert Covers(ws[q].block, x);
      assert !Clashes(ws[q], ws[q + 1], Wave(current));
      NeighbourStarts(ws, q + 1, j);
    }
  }

  /** Neighbours that clash do overlap. */
  lemma ClearMeansNoClash(ws: seq<Window>, scope: Scope)
    requires Sorted(ws, BY_START) && NonEmpty(ws) && NoOverlap(ws, scope)
    ensures NoNeighbourClashes(ws, |ws|, scope)
  {
    NoOverlapPairwise(ws, scope);
    forall i | 0 <= i < |ws| - 1
      ensures !Clashes(ws[i], ws[i + 1], scope)
    {
      assert Clear(ws[i], ws[i + 1], scope) && AtMost(BY_START(ws[i]), BY_START(ws[i + 1]));
      assert ws[i] in ws && ws[i + 1] in ws;
    }
  }

  /** Where the last earlier window to start covers what any earlier one does, neighbours decide. */
  lemma NeighboursInScope(ws: seq<Window>, current: set<string>)
    requires Sorted(ws, BY_START) && NonEmpty(ws) && LastCovers(ws, current)
    ensures NoNeighbourClashes(ws, |ws|, Wave(current)) <==> NoOverlap(ws, Wave(current))
  {
    if NoNeighbourClashes(ws, |ws|, Wave(current)) {
      forall i, j | 0 <= i < j < |ws|
        ensures Clear(ws[i], ws[j], Wave(current))
      {
        NoClashMeansClear(ws, current, i, j);
      }
      NoOverlapPairwise(ws, Wave(current));
    }
    if NoOverlap(ws, Wave(current)) {
      ClearMeansNoClash(ws, Wave(current));
    }
  }

  lemma SameWindowsSameLast(ws: seq<Window>, vs: seq<Window>, current: set<string>)
    requires (forall w :: w in ws <==> w in vs) && LastCovers(ws, current)
    ensures LastCovers(vs, current)
  {
    forall x, e, last | e in vs && Earlier(e, current) && Covers(e.block, x) && LastStarting(vs, current, x, last)
      ensures Covers(last.block, x)
    {
      assert LastStarting(ws, current, x, last);
    }
  }

  lemma EarlierApart(ws: seq<Window>, current: set<string>, e: Window, f: Window)
    requires NoOverlap(ws, History(current)) && e in ws && f in ws && Earlier(e, current) && Earlier(f, current)
    ensures e == f || Disjoint(e.block, f.block)
  {
    NoOverlapPairwise(ws, History(current));
    var i :| 0 <= i < |ws| && ws[i] == e;
    var j :| 0 <= j < |ws| && ws[j] == f;
    assert Clear(ws[if i < j then i else j], ws[if i < j then j else i], History(current)) || i == j;
  }

  /** Disjoint earlier windows meet the condition. */
  lemma ClearHistoryCovers(ws: seq<Window>, current: set<string>)
    requires NonEmpty(ws) && NoOverlap(ws, History(current))
    ensures LastCovers(ws, current)
  {
    forall x, e, last | e in ws && Earlier(e, current) && Covers(e.block, x) && LastStarting(ws, current, x, last)
      ensures Covers(last.block, x)
    {
      EarlierApart(ws, current, e, last);
    }
  }

  /** The check of a wave, which passes over neighbours that both belong to earlier waves. It
      reports only real clashes, and misses none as long as the earlier windows allow it. */
  method WaveClashes(ws: seq<Window>, current: set<string>) returns (clashes: seq<Clash>)
    requires NonEmpty(ws)
    ensures forall c :: c in clashes ==> Real(c, ws, Wave(current))
    ensures forall c :: c in clashes <==> Reported(c, Sort(ws, BY_START), |ws|, Wave(current))
    ensures clashes == [] <==> NoNeighbourClashes(Sort(ws, BY_START), |ws|, Wave(current))
    ensures LastCovers(ws, current) ==> (clashes == [] <==> NoOverlap(ws, Wave(current)))
    ensures NoOverlap(ws, History(current)) ==> (clashes == [] <==> NoOverlap(ws, Wave(current)))
  {
    clashes := NeighbourClashes(ws, Wave(current));
    SortSorts(ws, BY_START);
    SortOverlaps(ws, Wave(current));
    if NoOverlap(ws, History(current)) {
      ClearHistoryCovers(ws, current);
    }
    if LastCovers(ws, current) {
      SameWindowsSameLast(ws, Sort(ws, BY_START), current);
      NeighboursInScope(Sort(ws, BY_START), current);
    }
  }

  // ---- exactly when the check of a wave decides ------------------------------------

  /** Of these earlier windows and this wave, the neighbours that clash decide whether the wave is clear. */
  ghost predicate Decides(earlier: seq<Window>, wave: seq<Window>, current: set<string>) {
    NoNeighbourClashes(Sort(wave + earlier, BY_START), |wave + earlier|, Wave(current)) <==>
    NoOverlap(wave + earlier, Wave(current))
  }

  ghost predicate IsWave(wave: seq<Window>, current: set<string>) {
    NonEmpty(wave) && forall w :: w in wave ==> !Earlier(w, current)
  }

  /** Where a window goes among sorted ones. */
  lemma {:induction false} InsertSplits(w: Window, ws: seq<Window>) returns (k: nat)
    requires Sorted(ws, BY_START)
    ensures k <= |ws| && Insert(w, ws, BY_START) == ws[..k] + [w] + ws[k..]
    ensures forall i :: 0 <= i < k ==> !AtMost(BY_START(w), BY_START(ws[i]))
    ensures forall i :: k <= i < |ws| ==> AtMost(BY_START(w), BY_START(ws[i]))
    decreases |ws|
  {
    if ws == [] || AtMost(BY_START(w), BY_START(ws[0])) {
      k := 0;
      assert ws[..0] + [w] + ws[0..] == [w] + ws;
    } else {
      var rest := InsertSplits(w, ws[1..]);
      k := rest + 1;
      assert ws == [ws[0]] + ws[1..];
      assert ws[..k] + [w] + ws[k..] == [ws[0]] + (ws[1..][..rest] + [w] + ws[1..][rest..]);
      forall i | 0 <= i < |ws|
        ensures AtMost(BY_START(w), BY_START(ws[i])) <==> i >= k
      {
        assert i > 0 ==> ws[i] == ws[1..][i - 1];
      }
    }
  }

  /** A one-slot window at `x`, where the last earlier window to start has already ended, clashes with
      neither of its neighbours. */
  lemma SlipsIn(earlier: seq<Window>, current: set<string>, x: int, last: Window, now: Window, k: nat)
    requires Sorted(earlier, BY_START) && NonEmpty(earlier) && (forall e :: e in earlier ==> Earlier(e, current))
    requires LastStarting(earlier, current, x, last) && last.block.end <= x && now.block == Block(x, x + 1)
    requires k <= |earlier|
    requires forall i :: 0 <= i < |earlier| ==> (AtMost(BY_START(now), BY_START(earlier[i])) <==> i >= k)
    ensures k > 0 ==> earlier[k - 1].block.end <= x
    ensures k < |earlier| ==> earlier[k].block.start >= x + 1
  {
    assert last in earlier;
    var p :| 0 <= p < |earlier| && earlier[p] == last;
    assert p < k;
    assert earlier[k - 1] in earlier && AtMost(BY_START(earlier[k - 1]), BY_START(last));
    assert p < k - 1 ==> AtMost(BY_START(earlier[p]), BY_START(earlier[k - 1]));
    assert k < |earlier| ==> earlier[k] in earlier;
  }

  /** Neighbours of which neither belongs to the wave never count as a clash. */
  lemma OnlyAround(earlier: seq<Window>, current: set<string>, now: Window, k: nat)
    requires k <= |earlier| && forall e :: e in earlier ==> Earlier(e, current)
    requires k > 0 ==> !Clashes(earlier[k - 1], now, Wave(current))
    requires k < |earlier| ==> !Clashes(now, earlier[k], Wave(current))
    ensures NoNeighbourClashes(earlier[..k] + [now] + earlier[k..], |earlier| + 1, Wave(current))
  {
    var ws := earlier[..k] + [now] + earlier[k..];
    forall i | 0 <= i < |earlier|
      ensures !Clashes(ws[i], ws[i + 1], Wave(current))
    {
      if i + 1 < k {
        assert ws[i] == earlier[i] && earlier[i] in earlier && ws[i + 1] == earlier[i + 1] && earlier[i + 1] in earlier;
      } else if i > k {
        assert ws[i] == earlier[i - 1] && earlier[i - 1] in earlier && ws[i + 1] == earlier[i] && earlier[i] in earlier;
      } else if i == k {
        assert ws[i] == now && ws[i + 1] == earlier[k];
      } else {
        assert ws[i] == earlier[k - 1] && ws[i + 1] == now;
      }
    }
  }

  /** If the condition fails at a slot, a window of that one slot is overlooked. */
  lemma WaveOverlooked(earlier: seq<Window>, current: set<string>, x: int, e: Window, last: Window, unit: string)
    requires NonEmpty(earlier) && (forall w :: w in earlier ==> Earlier(w, current)) && unit in current
    requires e in earlier && Covers(e.block, x) && LastStarting(earlier, current, x, last) && !Covers(last.block, x)
    ensures IsWave([Window(Block(x, x + 1), unit)], current)
    ensures !Decides(earlier, [Window(Block(x, x + 1), unit)], current)
  {
    var now := Window(Block(x, x + 1), unit);
    var sorted := Sort(earlier, BY_START);
    SortSorts(earlier, BY_START);
    SortOverlaps(earlier, All);
    assert LastStarting(sorted, current, x, last);
    var k := InsertSplits(now, sorted);
    SlipsIn(sorted, current, x, last, now, k);
    OnlyAround(sorted, current, now, k);
    assert ([now] + earlier)[0] == now && ([now] + earlier)[1..] == earlier;
    assert Sort([now] + earlier, BY_START) == Insert(now, sorted, BY_START);
    assert !Clear(now, e, Wave(current));
  }

  /** The check of a wave decides, for every wave laid over these earlier windows, whether it is clear,
      exactly if wherever an earlier window lies the last one that has started lies there too. */
  lemma WaveCheckDecides(earlier: seq<Window>, current: set<string>, unit: string)
    requires NonEmpty(earlier) && (forall w :: w in earlier ==> Earlier(w, current)) && unit in current
    ensures LastCovers(earlier, current) <==> forall wave :: IsWave(wave, current) ==> Decides(earlier, wave, current)
  {
    if LastCovers(earlier, current) {
      forall wave | IsWave(wave, current)
        ensures Decides(earlier, wave, current)
      {
        WaveDecided(earlier, wave, current);
      }
    } else {
      var x, e, last :| e in earlier && Earlier(e, current) && Covers(e.block, x)
        && LastStarting(earlier, current, x, last) && !Covers(last.block, x);
      WaveOverlooked(earlier, current, x, e, last, unit);
    }
  }

  lemma WaveDecided(earlier: seq<Window>, wave: seq<Window>, current: set<string>)
    requires NonEmpty(earlier) && IsWave(wave, current) && LastCovers(earlier, current)
    requires forall w :: w in earlier ==> Earlier(w, current)
    ensures Decides(earlier, wave, current)
  {
    var ws := wave + earlier;
    forall x, e, last | e in ws && Earlier(e, current) && Covers(e.block, x) && LastStarting(ws, current, x, last)
      ensures Covers(last.block, x)
    {
      assert e in earlier && last in earlier && LastStarting(earlier, current, x, last);
    }
    SortSorts(ws, BY_START);
    SortOverlaps(ws, Wave(current));
    SameWindowsSameLast(ws, Sort(ws, BY_START), current);
    NeighboursInScope(Sort(ws, BY_START), current);
  }

  /** So a wave can be overlooked: a long match of an earlier wave overlaps the current one, but a
      short match of the same earlier wave stands between them. */
  lemma WaveClashMissed(current: set<string>, long: string, short: string, now: string)
    requires long !in current && short !in current && now in current
    ensures var earlier := [Window(Block(0, 10), long), Window(Block(1, 2), short)];
      !LastCovers(earlier, current) && !Decides(earlier, [Window(Block(5, 6), now)], current)
  {
    var earlier := [Window(Block(0, 10), long), Window(Block(1, 2), short)];
    assert earlier[0] in earlier && earlier[1] in earlier;
    assert Covers(earlier[0].block, 5) && LastStarting(earlier, current, 5, earlier[1]);
    WaveOverlooked(earlier, current, 5, earlier[0], earlier[1], now);
  }
}
