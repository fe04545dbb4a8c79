/** Half-open blocks of slots, and sorting. */
module Intervals {

  /** The slots from `start` up to, not including, `end`. */
  datatype Block = Block(start: int, end: int)

  predicate Covers(b: Block, x: int) {
    b.start <= x < b.end
  }

  predicate Disjoint(a: Block, b: Block) {
    a.end <= b.start || b.end <= a.start
  }

  /** Blocks are disjoint exactly when no slot is in both, as long as neither is empty. */
  lemma DisjointMeansNoSharedSlot(a: Block, b: Block)
    requires a.start < a.end && b.start < b.end
    ensures Disjoint(a, b) <==> !exists x :: Covers(a, x) && Covers(b, x)
  {
    if !Disjoint(a, b) {
      assert Covers(a, if a.start < b.start then b.start else a.start);
      assert Covers(b, if a.start < b.start then b.start else a.start);
    }
  }

  /** The positions in `blocks` of those that cover `x`. */
  function AliveAt(blocks: seq<Block>, x: int): set<nat> {
    set i: nat | i < |blocks| && Covers(blocks[i], x)
  }

  // ---- sorting --------------------------------------------------------------

  /** Sort keys are compared as pairs. */
  predicate AtMost(k: (int, int), l: (int, int)) {
    k.0 < l.0 || (k.0 == l.0 && k.1 <= l.1)
  }

  ghost predicate Sorted<T>(s: seq<T>, key: T -> (int, int)) {
    forall i, j :: 0 <= i < j < |s| ==> AtMost(key(s[i]), key(s[j]))
  }

  function Insert<T>(x: T, s: seq<T>, key: T -> (int, int)): seq<T> {
    if s == [] then [x]
    else if AtMost(key(x), key(s[0])) then [x] + s
    else [s[0]] + Insert(x, s[1..], key)
  }

  /** A stable sort by `key`. */
  function Sort<T>(s: seq<T>, key: T -> (int, int)): seq<T> {
    if s == [] then [] else Insert(s[0], Sort(s[1..], key), key)
  }

  lemma {:induction false} InsertAdds<T>(x: T, s: seq<T>, key: T -> (int, int))
    ensures multiset(Insert(x, s, key)) == multiset{x} + multiset(s)
    decreases |s|
  {
    if s != [] {
      assert s == [s[0]] + s[1..];
      if !AtMost(key(x), key(s[0])) {
        InsertAdds(x, s[1..], key);
      }
    }
  }

  lemma FirstThenSorted<T>(x: T, s: seq<T>, key: T -> (int, int))
    requires Sorted(s, key) && forall y :: y in s ==> AtMost(key(x), key(y))
    ensures Sorted([x] + s, key)
  {
  }

  lemma {:induction false} InsertSorts<T>(x: T, s: seq<T>, key: T -> (int, int))
    requires Sorted(s, key)
    ensures Sorted(Insert(x, s, key), key)
    decreases |s|
  {
    if s != [] {
      if AtMost(key(x), key(s[0])) {
        FirstThenSorted(x, s, key);
      } else {
        InsertSorts(x, s[1..], key);
        InsertAdds(x, s[1..], key);
        forall y | y in Insert(x, s[1..], key)
          ensures AtMost(key(s[0]), key(y))
        {
          assert y in multiset(Insert(x, s[1..], key));
          assert y == x || y in s[1..];
        }
        FirstThenSorted(s[0], Insert(x, s[1..], key), key);
      }
    }
  }

  /** Sorting permutes its input and puts it in order. */
  lemma {:induction false} SortSorts<T>(s: seq<T>, key: T -> (int, int))
    ensures multiset(Sort(s, key)) == multiset(s)
    ensures |Sort(s, key)| == |s|
    ensures Sorted(Sort(s, key), key)
    decreases |s|
  {
    if s != [] {
      SortSorts(s[1..], key);
      InsertAdds(s[0], Sort(s[1..], key), key);
      InsertSorts(s[0], Sort(s[1..], key), key);
      assert s == [s[0]] + s[1..];
    }
    assert |multiset(Sort(s, key))| == |Sort(s, key)| && |multiset(s)| == |s|;
  }

  /** Sorting moves elements: where a sorted element was, and where an element goes. */
  lemma SortedFrom<T>(s: seq<T>, key: T -> (int, int), i: nat) returns (k: nat)
    requires i < |Sort(s, key)|
    ensures k < |s| && Sort(s, key)[i] == s[k]
  {
    SortSorts(s, key);
    assert Sort(s, key)[i] in multiset(s);
    k :| 0 <= k < |s| && s[k] == Sort(s, key)[i];
  }

  lemma SortedTo<T>(s: seq<T>, key: T -> (int, int), k: nat) returns (i: nat)
    requires k < |s|
    ensures i < |Sort(s, key)| && Sort(s, key)[i] == s[k]
  {
    SortSorts(s, key);
    assert s[k] in multiset(Sort(s, key));
    i :| 0 <= i < |Sort(s, key)| && Sort(s, key)[i] == s[k];
  }

  /** Where an element goes: before the first that is not smaller. */
  lemma {:induction false} InsertAt<T>(x: T, s: seq<T>, key: T -> (int, int)) returns (k: nat)
    ensures k <= |s| && Insert(x, s, key) == s[..k] + [x] + s[k..]
    ensures forall i :: 0 <= i < k ==> !AtMost(key(x), key(s[i]))
    decreases |s|
  {
    if s == [] || AtMost(key(x), key(s[0])) {
      k := 0;
      assert s[..0] + [x] + s[0..] == [x] + s;
    } else {
      var rest := InsertAt(x, s[1..], key);
      k := rest + 1;
      assert s[..k] + [x] + s[k..] == [s[0]] + (s[1..][..rest] + [x] + s[1..][rest..]);
      assert forall i :: 0 < i < k ==> s[i] == s[1..][i - 1];
    }
  }

  /** Elements with the same key keep their order. */
  lemma {:induction false} SortIsStable<T>(s: seq<T>, key: T -> (int, int), i: nat, j: nat) returns (a: nat, b: nat)
    requires i < j < |Sort(s, key)| && key(Sort(s, key)[i]) == key(Sort(s, key)[j])
    ensures a < b < |s| && s[a] == Sort(s, key)[i] && s[b] == Sort(s, key)[j]
    decreases |s|
  {
    var rest := Sort(s[1..], key);
    var k := InsertAt(s[0], rest, key);
    var sorted := rest[..k] + [s[0]] + rest[k..];
    assert Sort(s, key) == sorted;
    if i == k {
      a := 0;
      b := SortedFrom(s[1..], key, j - 1);
    } else {
      assert j != k;
      a, b := SortIsStable(s[1..], key, if i < k then i else i - 1, if j < k then j else j - 1);
      a := a + 1;
    }
    b := b + 1;
  }

  ghost predicate Distinct<T>(s: seq<T>) {
    forall i, j :: 0 <= i < j < |s| ==> s[i] != s[j]
  }

  lemma {:induction false} InsertDistinct<T>(x: T, s: seq<T>, key: T -> (int, int))
    requires Distinct(s) && x !in s
    ensures Distinct(Insert(x, s, key)) && forall y :: y in Insert(x, s, key) <==> y == x || y in s
    decreases |s|
  {
    if s != [] {
      assert s[0] !in s[1..];
      InsertDistinct(x, s[1..], key);
    }
  }

  /** Sorting lists what was listed, each as often as before. */
  lemma {:induction false} SortDistinct<T>(s: seq<T>, key: T -> (int, int))
    requires Distinct(s)
    ensures Distinct(Sort(s, key)) && forall y :: y in Sort(s, key) <==> y in s
    decreases |s|
  {
    if s != [] {
      assert s[0] !in s[1..];
      SortDistinct(s[1..], key);
      InsertDistinct(s[0], Sort(s[1..], key), key);
    }
  }
}
