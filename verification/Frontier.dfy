/** How states grow: which units an operation has changed. */
module Frontier {
  import opened Bracket
  import Settling

  /** A slot is rewritten at most once, from a feeder to something concrete. */
  predicate GrownSlot(x: Slot, y: Slot) {
    y == x || (x.Feeder? && !y.Feeder?)
  }

  /** Sides only change together with a slot. */
  predicate GrownRow(x: Row, y: Row) {
    && GrownSlot(x.slotA, y.slotA) && GrownSlot(x.slotB, y.slotB)
    && (x.slotA == y.slotA && x.slotB == y.slotB ==> x == y)
  }

  ghost predicate Grown(st: Facts, st': Facts) {
    && st'.rows.Keys == st.rows.Keys
    && st.results.Keys <= st'.results.Keys
    && forall v :: v in st.rows ==> GrownRow(st.rows[v], st'.rows[v])
  }

  predicate RowChanged(st: Facts, st': Facts, v: UnitId) {
    v in st.rows && v in st'.rows && st'.rows[v] != st.rows[v]
  }

  predicate Resulted(st: Facts, st': Facts, v: UnitId) {
    v in st'.results && v !in st.results
  }

  predicate Changed(st: Facts, st': Facts, v: UnitId) {
    RowChanged(st, st', v) || Resulted(st, st', v)
  }

  lemma PropagateGrows(g: Graph, st: Facts, u: UnitId, r: Result, v: UnitId)
    requires Fits(g, st) && u in g && v in g
    ensures GrownRow(st.rows[v], Propagate(g, st, u, r).rows[v])
    ensures RowChanged(st, Propagate(g, st, u, r), v) <==> Feeds(g, u, v, st.rows[v])
  {
  }

  lemma PropagateIsGrown(g: Graph, st: Facts, u: UnitId, r: Result)
    requires Fits(g, st) && u in g
    ensures Grown(st, Propagate(g, st, u, r))
  {
    forall v | v in st.rows
      ensures GrownRow(st.rows[v], Propagate(g, st, u, r).rows[v])
    {
      PropagateGrows(g, st, u, r, v);
    }
  }

  /** Changes add up: nothing that changed is ever changed back. */
  lemma ChangesAddUp(a: Facts, b: Facts, c: Facts, v: UnitId)
    requires Grown(a, b) && Grown(b, c)
    ensures RowChanged(a, c, v) <==> RowChanged(a, b, v) || RowChanged(b, c, v)
    ensures Resulted(a, c, v) <==> Resulted(a, b, v) || Resulted(b, c, v)
  {
    if v in a.rows {
      assert GrownRow(a.rows[v], b.rows[v]) && GrownRow(b.rows[v], c.rows[v]);
    }
  }

  lemma GrownTransitive(a: Facts, b: Facts, c: Facts)
    requires Grown(a, b) && Grown(b, c)
    ensures Grown(a, c)
  {
    forall v | v in a.rows
      ensures GrownRow(a.rows[v], c.rows[v])
    {
      assert GrownRow(a.rows[v], b.rows[v]) && GrownRow(b.rows[v], c.rows[v]);
    }
  }

  /** What one more step adds to the changes since `start`. */
  lemma StepChanges(g: Graph, start: Facts, st: Facts, u: UnitId, r: Result, v: UnitId)
    requires Fits(g, st) && Grown(start, st) && u in g && u !in st.results && v in g
    ensures Grown(start, Propagate(g, st, u, r))
    ensures Changed(start, Propagate(g, st, u, r), v) <==>
      Changed(start, st, v) || v == u || Feeds(g, u, v, st.rows[v])
  {
    PropagateIsGrown(g, st, u, r);
    GrownTransitive(start, st, Propagate(g, st, u, r));
    ChangesAddUp(start, st, Propagate(g, st, u, r), v);
    PropagateGrows(g, st, u, r, v);
  }

  /** What holds of a draw at every point of a sweep that found it in state `start`. */
  ghost predicate Swept(g: Graph, start: Facts, st: Facts) {
    Fits(g, start) && Fits(g, st) && Grown(start, st) && Settling.Settle(g, st) == Settling.Settle(g, start)
  }

  lemma SweptStep(g: Graph, start: Facts, st: Facts, u: UnitId)
    requires Swept(g, start, st) && Eligible(g, st, u)
    ensures Swept(g, start, Fire(g, st, u))
  {
    Settling.FireFits(g, st, u);
    Settling.AnyFirstFiring(g, st, u);
    PropagateIsGrown(g, st, u, Walkover(st.rows[u]));
    GrownTransitive(start, st, Fire(g, st, u));
  }
}
