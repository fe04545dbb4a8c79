/** Whole runs of operator results: confluence, progress, retries, and the
    isolation of events from one another. */
module Runs {
  import opened Bracket
  import Settling
  import opened Coherence

  datatype Entry = Entry(unit: UnitId, result: Result)

  /** Every entry is for a match whose participants are both known when it is entered. */
  ghost predicate Legal(t: Topology, st: Facts, ops: seq<Entry>)
    requires Good(t, st)
    decreases |ops|
  {
    ops == [] ||
    (&& Playable(t.graph, st, ops[0].unit)
     && (RecordKeepsGood(t, st, ops[0].unit, ops[0].result);
         Legal(t, Record(t.graph, st, ops[0].unit, ops[0].result), ops[1..])))
  }

  ghost function Run(t: Topology, st: Facts, ops: seq<Entry>): Facts
    requires Good(t, st) && Legal(t, st, ops)
    decreases |ops|
  {
    if ops == [] then st
    else
      RecordKeepsGood(t, st, ops[0].unit, ops[0].result);
      Run(t, Record(t.graph, st, ops[0].unit, ops[0].result), ops[1..])
  }

  function Entered(ops: seq<Entry>): map<UnitId, Result> {
    if ops == [] then map[] else map[ops[0].unit := ops[0].result] + Entered(ops[1..])
  }

  lemma UpdateThenAdd<K, V>(m: map<K, V>, k: K, v: V, n: map<K, V>)
    ensures m[k := v] + n == m + (map[k := v] + n)
  {
  }

  /** A run stays among the good states and plays exactly what was entered. */
  lemma {:induction false} RunPlays(t: Topology, st: Facts, ops: seq<Entry>)
    requires Good(t, st) && Legal(t, st, ops)
    ensures Good(t, Run(t, st, ops))
    ensures Played(Run(t, st, ops)) == Played(st) + Entered(ops)
    decreases |ops|
  {
    if ops != [] {
      RecordKeepsGood(t, st, ops[0].unit, ops[0].result);
      RunPlays(t, Record(t.graph, st, ops[0].unit, ops[0].result), ops[1..]);
      UpdateThenAdd(Played(st), ops[0].unit, ops[0].result, Entered(ops[1..]));
    }
  }

  /** In a legal run no match is entered twice, nor one that was played before. */
  lemma {:induction false} EntriesAreDistinct(t: Topology, st: Facts, ops: seq<Entry>, e: Entry)
    requires Good(t, st) && Legal(t, st, ops) && e in ops
    ensures e.unit !in st.results
    ensures e.unit in Entered(ops) && Entered(ops)[e.unit] == e.result
    decreases |ops|
  {
    var u, r := ops[0].unit, ops[0].result;
    if e in ops[1..] {
      RecordKeepsGood(t, st, u, r);
      EntriesAreDistinct(t, Record(t.graph, st, u, r), ops[1..], e);
      Settling.PropagateFits(t.graph, st, u, r);
      if e.unit in Propagate(t.graph, st, u, r).results {
        Settling.SettleKeepsResult(t.graph, Propagate(t.graph, st, u, r), e.unit);
      }
    } else {
      assert e == ops[0];
      if u in Entered(ops[1..]) {
        EnteredComesFrom(ops[1..], u);
        var f :| f in ops[1..] && f.unit == u;
        RecordKeepsGood(t, st, u, r);
        EntriesAreDistinct(t, Record(t.graph, st, u, r), ops[1..], f);
        Settling.PropagateFits(t.graph, st, u, r);
        Settling.SettleKeepsResult(t.graph, Propagate(t.graph, st, u, r), u);
      }
    }
  }

  lemma EnteredComesFrom(ops: seq<Entry>, u: UnitId)
    requires u in Entered(ops)
    ensures exists e :: e in ops && e.unit == u && e.result == Entered(ops)[u]
  {
    if u in Entered(ops[1..]) {
      EnteredComesFrom(ops[1..], u);
    } else {
      assert ops[0] in ops;
    }
  }

  /** Confluence: two runs that enter the same results, in whatever orders, end with
      the same slots, sides, results and walkovers. */
  lemma Confluence(t: Topology, st: Facts, p: seq<Entry>, q: seq<Entry>)
    requires Good(t, st) && Legal(t, st, p) && Legal(t, st, q)
    requires forall e :: e in p <==> e in q
    ensures Run(t, st, p) == Run(t, st, q)
  {
    EnteredIncluded(t, st, p, q);
    EnteredIncluded(t, st, q, p);
    MapsIncluded(Entered(p), Entered(q));
    RunPlays(t, st, p);
    RunPlays(t, st, q);
    GoodStatesAgree(t, Run(t, st, p), Run(t, st, q));
  }

  ghost predicate Included<K, V>(m: map<K, V>, n: map<K, V>) {
    forall k :: k in m ==> k in n && n[k] == m[k]
  }

  lemma MapsIncluded<K, V>(m: map<K, V>, n: map<K, V>)
    requires Included(m, n) && Included(n, m)
    ensures m == n
  {
  }

  lemma EnteredIncluded(t: Topology, st: Facts, p: seq<Entry>, q: seq<Entry>)
    requires Good(t, st) && Legal(t, st, q)
    requires forall e :: e in p ==> e in q
    ensures Included(Entered(p), Entered(q))
  {
    forall u | u in Entered(p)
      ensures u in Entered(q) && Entered(q)[u] == Entered(p)[u]
    {
      EnteredComesFrom(p, u);
      var e :| e in p && e.unit == u && e.result == Entered(p)[u];
      EntriesAreDistinct(t, st, q, e);
    }
  }

  /** A tournament never gets stuck: as long as some unit has no result, some match can be played. */
  lemma {:induction false} NeverStuck(t: Topology, st: Facts, u: UnitId)
    requires Good(t, st) && u in t.graph && u !in st.results
    ensures exists v :: Playable(t.graph, st, v)
    decreases t.graph[u].round
  {
    if d :| d in t.graph[u].deps && d !in st.results {
      NeverStuck(t, st, d);
    } else {
      assert !Eligible(t.graph, st, u);
      assert Playable(t.graph, st, u);
    }
  }

  /** What the guard of the result command checks is what order independence needs:
      in a good state, both sides known means all dependencies in, and conversely. */
  lemma PlayableIffReady(t: Topology, st: Facts, u: UnitId)
    requires Good(t, st) && u in t.graph && u !in st.results
    ensures Playable(t.graph, st, u) <==> Ready(t.graph, st, u)
  {
    assert !Eligible(t.graph, st, u);
    if !OneSided(st.rows[u]) {
      PlayableIsReady(t, st, u);
    }
  }

  // ---- retry ----------------------------------------------------------------

  function Forget(st: Facts, u: UnitId): Facts {
    Facts(st.rows, st.results - {u})
  }

  lemma NothingWaits(t: Topology, st: Facts, u: UnitId, d: UnitId)
    requires Coherent(t, st) && u in st.results && d in t.graph
    ensures !Points(st.rows[d].slotA, u) && !Points(st.rows[d].slotB, u)
  {
    assert CoherentAt(t, st, d);
  }

  lemma RetryStep(t: Topology, st: Facts, u: UnitId)
    requires Coherent(t, st) && u in st.results
    ensures Propagate(t.graph, Forget(st, u), u, st.results[u]) == st
  {
    var st' := Propagate(t.graph, Forget(st, u), u, st.results[u]);
    forall d | d in st.rows
      ensures st'.rows[d] == st.rows[d]
    {
      NothingWaits(t, st, u, d);
    }
    assert st'.rows == st.rows;
    assert st'.results == st.results;
  }

  /** Dropping a result and recording the same one again changes nothing, whatever
      has been played downstream. */
  lemma ExactRetry(t: Topology, st: Facts, u: UnitId)
    requires Good(t, st) && u in st.results
    ensures Fits(t.graph, Forget(st, u))
    ensures Record(t.graph, Forget(st, u), u, st.results[u]) == st
  {
    RetryStep(t, st, u);
  }

  // ---- events do not interfere ----------------------------------------------

  ghost predicate SameOutside(g: Graph, st: Facts, st': Facts, event: EventId) {
    forall v :: v in g && g[v].event != event ==>
      && v in st.rows && v in st'.rows && st'.rows[v] == st.rows[v]
      && (v in st'.results <==> v in st.results)
      && (v in st.results ==> st'.results[v] == st.results[v])
  }

  lemma {:induction false} SettleLocal(g: Graph, st: Facts, st': Facts, event: EventId)
    requires Fits(g, st) && Stable(g, st) && Fits(g, st') && SameOutside(g, st, st', event)
    ensures SameOutside(g, st, Settling.Settle(g, st'), event)
    decreases |Settling.Open(g, st')|
  {
    if !Stable(g, st') {
      var w := Settling.Pick(g, st');
      Settling.FireFits(g, st', w);
      assert !Eligible(g, st, w);
      SettleLocal(g, st, Fire(g, st', w), event);
    }
  }

  /** From a stable state, recording a result touches only units of its own event. */
  lemma RecordLocal(g: Graph, st: Facts, u: UnitId, r: Result)
    requires Fits(g, st) && Stable(g, st) && u in g
    ensures SameOutside(g, st, Record(g, st, u, r), g[u].event)
  {
    Settling.PropagateFits(g, st, u, r);
    SettleLocal(g, st, Propagate(g, st, u, r), g[u].event);
  }
}
