/** Correcting a result: the draw as if the match had not been played. */
module Correction {
  import opened Bracket
  import Finite
  import Settling
  import opened Coherence
  import opened Runs
  import Reconciliation

  // ---- transitive dependents ------------------------------------------------

  /** `v` depends on `m`, directly or through other units. */
  ghost predicate DependsOn(g: Graph, v: UnitId, m: UnitId)
    requires WellFormed(g) && v in g
    decreases g[v].round
  {
    m in g[v].deps || exists d :: d in g[v].deps && DependsOn(g, d, m)
  }

  ghost function Dependents(g: Graph, m: UnitId): set<UnitId>
    requires WellFormed(g)
  {
    set v | v in g && DependsOn(g, v, m)
  }

  /** A set that holds the direct dependents of `m` and of all its members holds every dependent. */
  lemma {:induction false} ClosedHoldsDependents(g: Graph, m: UnitId, s: set<UnitId>, v: UnitId)
    requires WellFormed(g) && v in g && DependsOn(g, v, m)
    requires forall w, d {:trigger d in g[w].deps} :: w in g && d in g[w].deps && (d == m || d in s) ==> w in s
    ensures v in s
    decreases g[v].round
  {
    if m !in g[v].deps {
      var d :| d in g[v].deps && DependsOn(g, d, m);
      ClosedHoldsDependents(g, m, s, d);
      assert d in g[v].deps;
    }
  }

  // ---- the corrected state --------------------------------------------------

  /** No unit that depends on `m` has a result. */
  ghost predicate NothingDownstream(g: Graph, st: Facts, m: UnitId)
    requires WellFormed(g)
  {
    Dependents(g, m) !! st.results.Keys
  }

  /** `st` with `m` unplayed: its result gone and every slot resolved anew. */
  function Erased(t: Topology, st: Facts, m: UnitId): Facts
    requires t.origin.Keys == t.graph.Keys
  {
    Facts(map u | u in t.graph ::
            Shown(t, u, Resolve(Forget(st, m), t.origin[u].slotA), Resolve(Forget(st, m), t.origin[u].slotB)),
          st.results - {m})
  }

  /** Only direct dependents of `m` look different once `m` is erased. */
  lemma ErasedRow(t: Topology, st: Facts, m: UnitId, u: UnitId)
    requires Coherent(t, st) && u in t.graph && m !in t.graph[u].deps
    ensures Erased(t, st, m).rows[u] == st.rows[u]
  {
    assert CoherentAt(t, st, u);
    forall s | s == t.origin[u].slotA || s == t.origin[u].slotB
      ensures Resolve(Forget(st, m), s) == Resolve(st, s)
    {
      assert s.Feeder? ==> s.unit in t.graph[u].deps;
    }
  }

  /** A unit that still has a result is not a dependent of `m`, so it looks the same. */
  lemma KeptRow(t: Topology, st: Facts, m: UnitId, u: UnitId)
    requires Coherent(t, st) && NothingDownstream(t.graph, st, m) && u in st.results
    ensures m !in t.graph[u].deps && Erased(t, st, m).rows[u] == st.rows[u]
  {
    assert u !in Dependents(t.graph, m);
    assert !DependsOn(t.graph, u, m);
    ErasedRow(t, st, m, u);
  }

  lemma ErasedCoherentAt(t: Topology, st: Facts, m: UnitId, u: UnitId)
    requires Coherent(t, st) && NothingDownstream(t.graph, st, m) && u in t.graph
    ensures CoherentAt(t, Erased(t, st, m), u)
  {
    var e := Erased(t, st, m);
    forall s | s == t.origin[u].slotA || s == t.origin[u].slotB
      ensures Resolve(e, s) == Resolve(Forget(st, m), s)
    {
      if s.Feeder? && s.unit in e.results {
        KeptRow(t, st, m, s.unit);
      }
    }
    if u in e.results {
      KeptRow(t, st, m, u);
      assert CoherentAt(t, st, u);
    }
  }

  lemma ErasedCoherent(t: Topology, st: Facts, m: UnitId)
    requires Coherent(t, st) && NothingDownstream(t.graph, st, m)
    ensures Coherent(t, Erased(t, st, m))
  {
    forall u | u in t.graph
      ensures CoherentAt(t, Erased(t, st, m), u)
    {
      ErasedCoherentAt(t, st, m, u);
    }
  }

  lemma ErasedStableAt(t: Topology, st: Facts, m: UnitId, u: UnitId)
    requires Good(t, st) && m in st.results && !OneSided(st.rows[m]) && NothingDownstream(t.graph, st, m)
    ensures !Eligible(t.graph, Erased(t, st, m), u)
  {
    assert !Eligible(t.graph, st, u);
    if u == m {
      KeptRow(t, st, m, m);
    } else if u in t.graph && Ready(t.graph, Erased(t, st, m), u) {
      assert m !in t.graph[u].deps;
      ErasedRow(t, st, m, u);
    }
  }

  /** Erasing a played match from a good state without downstream results leaves a good
      state, in which exactly the other matches were played. */
  lemma ErasedIsGood(t: Topology, st: Facts, m: UnitId)
    requires Good(t, st) && m in st.results && !OneSided(st.rows[m]) && NothingDownstream(t.graph, st, m)
    ensures Good(t, Erased(t, st, m))
    ensures Played(Erased(t, st, m)) == Played(st) - {m}
    ensures Playable(t.graph, Erased(t, st, m), m)
  {
    var e := Erased(t, st, m);
    ErasedCoherent(t, st, m);
    forall u
      ensures !Eligible(t.graph, e, u)
      ensures u in e.results ==> u in st.rows && e.rows[u] == st.rows[u]
    {
      ErasedStableAt(t, st, m, u);
      if u in e.results {
        KeptRow(t, st, m, u);
      }
    }
    forall u | u in e.rows
      ensures ExplainedAt(e, u)
    {
      assert ExplainedAt(st, u);
    }
    PlayedWithout(st, e, m);
    KeptRow(t, st, m, m);
  }

  lemma PlayedWithout(st: Facts, e: Facts, m: UnitId)
    requires e.rows.Keys == st.rows.Keys && e.results == st.results - {m}
    requires forall u :: u in e.results && u in st.rows ==> e.rows[u] == st.rows[u]
    ensures Played(e) == Played(st) - {m}
  {
  }

  // ---- a correction rewrites history -----------------------------------------

  /** The state of a run is determined by what it entered. */
  lemma RunEndsAt(t: Topology, ops: seq<Entry>, st: Facts)
    requires Good(t, st) && Legal(t, Registered(t), ops) && Entered(ops) == Played(st)
    ensures Run(t, Registered(t), ops) == st
  {
    RegisteredIsGood(t);
    RunPlays(t, Registered(t), ops);
    AddToNothing(Entered(ops));
    GoodStatesAgree(t, Run(t, Registered(t), ops), st);
  }

  lemma AddToNothing<K, V>(m: map<K, V>)
    ensures map[] + m == m
  {
  }

  /** The corrected state is the one of every run that entered everything but `m`. */
  lemma CorrectionForgets(t: Topology, st: Facts, m: UnitId, ops: seq<Entry>)
    requires Good(t, st) && m in st.results && !OneSided(st.rows[m]) && NothingDownstream(t.graph, st, m)
    requires Legal(t, Registered(t), ops) && Entered(ops) == Played(st) - {m}
    ensures Run(t, Registered(t), ops) == Erased(t, st, m)
  {
    ErasedIsGood(t, st, m);
    RunEndsAt(t, ops, Erased(t, st, m));
  }

  lemma UpdateAfterRemoval<V>(p: map<UnitId, V>, m: UnitId, r: V)
    ensures (p - {m})[m := r] == p[m := r]
    ensures m in p && p[m] == r ==> p[m := r] == p
  {
  }

  /** A corrected match can be recorded anew; then it counts as played with the new result. */
  lemma CorrectedIsGood(t: Topology, st: Facts, m: UnitId, r: Result)
    requires Good(t, st) && m in st.results && !OneSided(st.rows[m]) && NothingDownstream(t.graph, st, m)
    ensures Coherent(t, Erased(t, st, m))
    ensures Good(t, Record(t.graph, Erased(t, st, m), m, r))
    ensures Played(Record(t.graph, Erased(t, st, m), m, r)) == Played(st)[m := r]
  {
    ErasedIsGood(t, st, m);
    RecordKeepsGood(t, Erased(t, st, m), m, r);
    UpdateAfterRemoval(Played(st), m, r);
  }

  /** Recording `r` on the corrected match gives the state of every run that entered `r`
      for it, and everything else as it was, in the first place. */
  lemma CorrectionRewrites(t: Topology, st: Facts, m: UnitId, r: Result, ops: seq<Entry>)
    requires Good(t, st) && m in st.results && !OneSided(st.rows[m]) && NothingDownstream(t.graph, st, m)
    requires Legal(t, Registered(t), ops) && Entered(ops) == Played(st)[m := r]
    ensures Coherent(t, Erased(t, st, m))
    ensures Record(t.graph, Erased(t, st, m), m, r) == Run(t, Registered(t), ops)
  {
    CorrectedIsGood(t, st, m, r);
    RunEndsAt(t, ops, Record(t.graph, Erased(t, st, m), m, r));
  }

  lemma PlayedAt(st: Facts, m: UnitId)
    requires m in st.results && m in st.rows && !OneSided(st.rows[m])
    ensures Played(st)[m := st.results[m]] == Played(st)
  {
    UpdateAfterRemoval(Played(st), m, st.results[m]);
  }

  /** Correcting a match and recording the same result again restores every slot, side and result. */
  lemma CorrectionRestores(t: Topology, st: Facts, m: UnitId)
    requires Good(t, st) && m in st.results && !OneSided(st.rows[m]) && NothingDownstream(t.graph, st, m)
    ensures Coherent(t, Erased(t, st, m))
    ensures Record(t.graph, Erased(t, st, m), m, st.results[m]) == st
  {
    CorrectedIsGood(t, st, m, st.results[m]);
    PlayedAt(st, m);
    GoodStatesAgree(t, Record(t.graph, Erased(t, st, m), m, st.results[m]), st);
  }

  // ---- replaying results -----------------------------------------------------

  /** A state on the way to `goal`: coherent, and nothing played that `goal` has not. */
  ghost predicate Towards(t: Topology, st: Facts, goal: Facts) {
    Coherent(t, st) && Explained(st) && Good(t, goal) && Included(Played(st), Played(goal))
  }

  lemma SameResolve(t: Topology, st: Facts, goal: Facts, u: UnitId)
    requires Coherent(t, st) && Coherent(t, goal) && u in t.graph && Ready(t.graph, st, u)
    requires forall d :: d in t.graph[u].deps ==> LineOf(st, d) == LineOf(goal, d)
    ensures st.rows[u] == goal.rows[u] && Ready(t.graph, goal, u)
  {
    assert CoherentAt(t, st, u) && CoherentAt(t, goal, u);
    forall s | s == t.origin[u].slotA || s == t.origin[u].slotB
      ensures Resolve(st, s) == Resolve(goal, s)
    {
      if s.Feeder? {
        assert s.unit in t.graph[u].deps;
        assert LineOf(st, s.unit) == LineOf(goal, s.unit);
      }
    }
    forall d | d in t.graph[u].deps
      ensures d in goal.results
    {
      assert LineOf(st, d) == LineOf(goal, d);
    }
  }

  /** What is recorded on the way to `goal` is recorded the same way there. */
  lemma {:induction false} Below(t: Topology, st: Facts, goal: Facts, u: UnitId)
    requires Towards(t, st, goal) && u in st.results
    ensures u in t.graph && LineOf(st, u) == LineOf(goal, u)
    decreases t.graph[u].round
  {
    assert u in t.graph && CoherentAt(t, st, u);
    forall d | d in t.graph[u].deps
      ensures LineOf(st, d) == LineOf(goal, d)
    {
      Below(t, st, goal, d);
    }
    SameResolve(t, st, goal, u);
    assert ExplainedAt(st, u) && ExplainedAt(goal, u) && !Eligible(t.graph, goal, u);
    if !OneSided(st.rows[u]) {
      assert u in Played(st);
    }
  }

  /** A unit that is ready on the way to `goal` already looks as it does there. */
  lemma ReadyLooksFinal(t: Topology, st: Facts, goal: Facts, u: UnitId)
    requires Towards(t, st, goal) && u in t.graph && Ready(t.graph, st, u)
    ensures st.rows[u] == goal.rows[u]
  {
    forall d | d in t.graph[u].deps
      ensures LineOf(st, d) == LineOf(goal, d)
    {
      Below(t, st, goal, d);
    }
    SameResolve(t, st, goal, u);
  }

  lemma IncludedUpdate<V>(p: map<UnitId, V>, q: map<UnitId, V>, u: UnitId, r: V)
    requires Included(p, q) && u in q && q[u] == r
    ensures Included(p[u := r], q)
  {
  }

  lemma ReplayPlays(t: Topology, st: Facts, goal: Facts, u: UnitId)
    requires Towards(t, st, goal) && u in goal.results && u !in st.results && Ready(t.graph, st, u)
    ensures u in st.rows && Reconciliation.Supported(st.rows[u], goal.results[u])
    ensures OneSided(st.rows[u]) ==> goal.results[u] == Walkover(st.rows[u])
    ensures Included(Played(Propagate(t.graph, st, u, goal.results[u])), Played(goal))
  {
    ReadyLooksFinal(t, st, goal, u);
    assert ExplainedAt(goal, u);
    PlayedStep(t, st, u, goal.results[u]);
    if !OneSided(st.rows[u]) {
      IncludedUpdate(Played(st), Played(goal), u, goal.results[u]);
    }
  }

  /** Replaying one retained result goes on towards `goal`. */
  lemma ReplayTowards(t: Topology, st: Facts, goal: Facts, u: UnitId)
    requires Towards(t, st, goal) && u in goal.results && u !in st.results && Ready(t.graph, st, u)
    ensures Reconciliation.Supported(st.rows[u], goal.results[u])
    ensures Towards(t, Record(t.graph, st, u, goal.results[u]), goal)
    ensures u in Record(t.graph, st, u, goal.results[u]).results
  {
    var r := goal.results[u];
    ReplayPlays(t, st, goal, u);
    CoherentStep(t, st, u, r);
    ExplainedStep(t, st, u, r);
    SettleCoherent(t, Propagate(t.graph, st, u, r));
    Settling.SettleKeepsResult(t.graph, Propagate(t.graph, st, u, r), u);
  }

  /** When every result of `goal` has been replayed, the state is `goal`. */
  lemma ReplayArrives(t: Topology, st: Facts, goal: Facts)
    requires Towards(t, st, goal) && goal.results.Keys <= st.results.Keys
    ensures st == goal
  {
    forall u | u in st.rows
      ensures LineOf(st, u) == LineOf(goal, u)
    {
      if u in st.results {
        Below(t, st, goal, u);
      } else {
        UnresultedRow(t, st, goal, u);
      }
    }
    LinesDetermine(st, goal);
  }

  lemma UnresultedRow(t: Topology, st: Facts, goal: Facts, u: UnitId)
    requires Towards(t, st, goal) && goal.results.Keys <= st.results.Keys && u in t.graph
    ensures st.rows[u] == goal.rows[u]
  {
    assert CoherentAt(t, st, u) && CoherentAt(t, goal, u);
    forall s | s == t.origin[u].slotA || s == t.origin[u].slotB
      ensures Resolve(st, s) == Resolve(goal, s)
    {
      if s.Feeder? && s.unit in st.results {
        Below(t, st, goal, s.unit);
      }
    }
  }

  /** The replay never gets stuck: among retained results that are not replayed yet, one is ready. */
  lemma {:induction false} ReplayFindsReady(t: Topology, st: Facts, goal: Facts, u: UnitId)
    requires Coherent(t, goal) && Fits(t.graph, st) && u in goal.results && u !in st.results
    ensures exists v :: v in goal.results && v !in st.results && Ready(t.graph, st, v)
    decreases t.graph[u].round
  {
    assert CoherentAt(t, goal, u);
    if d :| d in t.graph[u].deps && d !in st.results {
      ReplayFindsReady(t, st, goal, d);
    } else {
      assert Ready(t.graph, st, u);
    }
  }

  // ---- every good state is reachable ------------------------------------------

  /** From any good state on the way to `goal` there is a legal run that ends at `goal`. */
  lemma {:induction false} GoodIsReachable(t: Topology, st: Facts, goal: Facts) returns (ops: seq<Entry>)
    requires Good(t, st) && Towards(t, st, goal)
    ensures Legal(t, st, ops) && Run(t, st, ops) == goal
    decreases |goal.results.Keys - st.results.Keys|
  {
    if goal.results.Keys <= st.results.Keys {
      ReplayArrives(t, st, goal);
      ops := [];
    } else {
      var w :| w in goal.results && w !in st.results;
      ReplayFindsReady(t, st, goal, w);
      var u :| u in goal.results && u !in st.results && Ready(t.graph, st, u);
      var r := goal.results[u];
      PlayableIffReady(t, st, u);
      ReplayTowards(t, st, goal, u);
      RecordKeepsGood(t, st, u, r);
      var next := Record(t.graph, st, u, r);
      RecordGrows(t.graph, st, u, r);
      assert goal.results.Keys - next.results.Keys <= goal.results.Keys - st.results.Keys - {u};
      Finite.SubsetSmaller(goal.results.Keys - next.results.Keys, goal.results.Keys - st.results.Keys, u);
      var rest := GoodIsReachable(t, next, goal);
      ops := [Entry(u, r)] + rest;
      assert ops[1..] == rest;
    }
  }

  lemma RecordGrows(g: Graph, st: Facts, u: UnitId, r: Result)
    requires Fits(g, st) && u in g
    ensures st.results.Keys + {u} <= Record(g, st, u, r).results.Keys
  {
    Settling.PropagateFits(g, st, u, r);
    forall v | v in st.results || v == u
      ensures v in Record(g, st, u, r).results
    {
      Settling.SettleKeepsResult(g, Propagate(g, st, u, r), v);
    }
  }

  /** Some legal run from registration ends in the state. */
  ghost predicate Reachable(t: Topology, st: Facts)
    requires WellBuilt(t)
  {
    exists ops :: Legal(t, Registered(t), ops) && Run(t, Registered(t), ops) == st
  }

  /** The invariant is exact: a state is good if and only if some legal run of the registered draw ends in it. */
  lemma GoodIffReachable(t: Topology, st: Facts)
    requires WellBuilt(t)
    ensures Good(t, st) <==> Reachable(t, st)
  {
    RegisteredIsGood(t);
    if Good(t, st) {
      var ops := GoodIsReachable(t, Registered(t), st);
    }
    forall ops | Legal(t, Registered(t), ops)
      ensures Good(t, Run(t, Registered(t), ops))
    {
      RunPlays(t, Registered(t), ops);
    }
  }
}
