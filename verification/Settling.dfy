/** The walkover sweep as a fixpoint: it terminates, and every order of firing
    eligible units ends in the same state. */
module Settling {
  import opened Bracket

  ghost function Pick(g: Graph, st: Facts): (u: UnitId)
    requires !Stable(g, st)
    ensures Eligible(g, st, u)
  {
    var u :| Eligible(g, st, u);
    u
  }

  function Open(g: Graph, st: Facts): set<UnitId> {
    g.Keys - st.results.Keys
  }

  /** Where the sweep ends: fire eligible units until none is left. */
  ghost function Settle(g: Graph, st: Facts): Facts
    requires Fits(g, st)
    decreases |Open(g, st)|
  {
    if Stable(g, st) then st
    else
      var u := Pick(g, st);
      FireFits(g, st, u);
      Settle(g, Fire(g, st, u))
  }

  /** Each firing records exactly one more result. */
  lemma FireFits(g: Graph, st: Facts, u: UnitId)
    requires Fits(g, st) && Eligible(g, st, u)
    ensures Fits(g, Fire(g, st, u))
    ensures Open(g, Fire(g, st, u)) == Open(g, st) - {u}
    ensures |Open(g, Fire(g, st, u))| == |Open(g, st)| - 1
  {
    assert Open(g, Fire(g, st, u)) == Open(g, st) - {u};
  }

  lemma PropagateFits(g: Graph, st: Facts, u: UnitId, r: Result)
    requires Fits(g, st) && u in g
    ensures Fits(g, Propagate(g, st, u, r))
  {
  }

  /** A firing leaves every other eligible unit eligible, with the same sides. */
  lemma StaysEligible(g: Graph, st: Facts, u: UnitId, v: UnitId)
    requires Fits(g, st) && Eligible(g, st, u) && Eligible(g, st, v) && u != v
    ensures Eligible(g, Fire(g, st, u), v)
    ensures Fire(g, st, u).rows[v] == st.rows[v]
  {
    assert u !in g[v].deps;
    NotFed(g, st, u, Walkover(st.rows[u]), v);
  }

  lemma ReceivesCommute(g: Graph, u: UnitId, fromU: Row, ru: Result, v: UnitId, fromV: Row, rv: Result,
                        d: UnitId, row: Row)
    requires u != v
    ensures Receive(g, v, fromV, rv, d, Receive(g, u, fromU, ru, d, row))
         == Receive(g, u, fromU, ru, d, Receive(g, v, fromV, rv, d, row))
  {
  }

  lemma UpdatesCommute<K, V>(m: map<K, V>, k: K, x: V, l: K, y: V)
    requires k != l
    ensures m[k := x][l := y] == m[l := y][k := x]
  {
  }

  /** Two eligible units can be walked over in either order. */
  lemma FiringsCommute(g: Graph, st: Facts, u: UnitId, v: UnitId)
    requires Fits(g, st) && Eligible(g, st, u) && Eligible(g, st, v) && u != v
    ensures Fits(g, Fire(g, st, u)) && Fits(g, Fire(g, st, v))
    ensures Eligible(g, Fire(g, st, u), v) && Eligible(g, Fire(g, st, v), u)
    ensures Fire(g, Fire(g, st, u), v) == Fire(g, Fire(g, st, v), u)
  {
    FireFits(g, st, u);
    FireFits(g, st, v);
    StaysEligible(g, st, u, v);
    StaysEligible(g, st, v, u);
    var ru, rv := Walkover(st.rows[u]), Walkover(st.rows[v]);
    PropagationsCommute(g, st, u, ru, v, rv);
  }

  /** Two results recorded on units that do not feed each other can be swapped. */
  lemma PropagationsCommute(g: Graph, st: Facts, u: UnitId, ru: Result, v: UnitId, rv: Result)
    requires u in st.rows && v in st.rows && u != v
    requires Propagate(g, st, u, ru).rows[v] == st.rows[v]
    requires Propagate(g, st, v, rv).rows[u] == st.rows[u]
    ensures Propagate(g, Propagate(g, st, u, ru), v, rv) == Propagate(g, Propagate(g, st, v, rv), u, ru)
  {
    var uv, vu := Propagate(g, Propagate(g, st, u, ru), v, rv), Propagate(g, Propagate(g, st, v, rv), u, ru);
    forall d | d in st.rows
      ensures uv.rows[d] == vu.rows[d]
    {
      ReceivesCommute(g, u, st.rows[u], ru, v, st.rows[v], rv, d, st.rows[d]);
    }
    assert uv.rows == vu.rows;
    UpdatesCommute(st.results, u, ru, v, rv);
  }

  /** Whichever eligible unit is fired first, the sweep ends in the same state. */
  lemma {:induction false} AnyFirstFiring(g: Graph, st: Facts, u: UnitId)
    requires Fits(g, st) && Eligible(g, st, u)
    ensures Fits(g, Fire(g, st, u))
    ensures Settle(g, st) == Settle(g, Fire(g, st, u))
    decreases |Open(g, st)|
  {
    FireFits(g, st, u);
    var v := Pick(g, st);
    if u != v {
      FireFits(g, st, v);
      FiringsCommute(g, st, u, v);
      AnyFirstFiring(g, Fire(g, st, v), u);
      AnyFirstFiring(g, Fire(g, st, u), v);
    }
  }

  ghost predicate Firings(g: Graph, st: Facts, order: seq<UnitId>, end: Facts)
    requires Fits(g, st)
    decreases |order|
  {
    if order == [] then end == st
    else
      && Eligible(g, st, order[0])
      && (FireFits(g, st, order[0]); Firings(g, Fire(g, st, order[0]), order[1..], end))
  }

  /** Confluence of the sweep: any sequence of firings that cannot be continued
      ends where `Settle` ends, with the same walkovers. */
  lemma {:induction false} AnySweepOrder(g: Graph, st: Facts, order: seq<UnitId>, end: Facts)
    requires Fits(g, st) && Firings(g, st, order, end) && Stable(g, end)
    ensures end == Settle(g, st)
    decreases |order|
  {
    if order != [] {
      var u := order[0];
      FireFits(g, st, u);
      AnyFirstFiring(g, st, u);
      AnySweepOrder(g, Fire(g, st, u), order[1..], end);
    }
  }

  /** The sweep ends stable and keeps every result it found. */
  lemma {:induction false} SettleEnds(g: Graph, st: Facts)
    requires Fits(g, st)
    ensures Fits(g, Settle(g, st)) && Stable(g, Settle(g, st))
    decreases |Open(g, st)|
  {
    if !Stable(g, st) {
      var u := Pick(g, st);
      FireFits(g, st, u);
      SettleEnds(g, Fire(g, st, u));
    }
  }

  lemma {:induction false} SettleKeepsResult(g: Graph, st: Facts, u: UnitId)
    requires Fits(g, st) && u in st.results
    ensures u in Settle(g, st).results && Settle(g, st).results[u] == st.results[u]
    decreases |Open(g, st)|
  {
    if !Stable(g, st) {
      var v := Pick(g, st);
      FireFits(g, st, v);
      SettleKeepsResult(g, Fire(g, st, v), u);
    }
  }
}
