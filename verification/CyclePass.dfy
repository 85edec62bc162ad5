/** One scan for cyclic garbage: what the detector's answer and the counts mean for the engine. */
module CyclePass {
  import opened Graphs
  import opened Cells
  import opened EngineState
  import opened Coverage
  import opened Sweeping
  import opened Reclaiming
  import opened Tarjan
  import opened CycleDetectors
  import opened ExternalCounts

  /** The suspects worth scanning: marked, live and still referenced. */
  ghost predicate SuspectRoots(e: Engine, roots: seq<nat>)
    requires e.Sized()
  {
    && (forall k :: 0 <= k < |roots| ==> roots[k] < |e.tab|)
    && (forall i: nat :: i in roots <==>
          i in e.suspectStack && i < |e.tab| && e.suspectMark[i] && e.pool[i].live && e.TotalOf(i) > 0)
  }

  lemma VisitedIsScan(e: Engine, roots: seq<nat>, k: nat, vs: seq<nat>, scc: seq<nat>)
    requires Consistent(e) && SuspectRoots(e, roots)
    requires Components(Heap(e.pool, e.tab), roots, k, vs, scc)
    ensures ScanOf(e, Elems(vs))
  {
    var g, h := e.G(), Heap(e.pool, e.tab);
    var rs := LiveRoots(h, roots);
    forall x | x in g && x.0 in Elems(vs) ensures x.1 in Elems(vs) {
      EdgeEnds(e.pool, e.tab, x.0, x.1);
      assert FromRoot(g, rs, x.0);
      var r :| r in rs && Reach(g, r, x.0);
      ReachEdge(g, x.0, x.1);
      ReachTrans(g, r, x.0, x.1);
      assert FromRoot(g, rs, x.1);
    }
    forall i: nat | e.Live(i) && e.suspectMark[i] && e.TotalOf(i) > 0 ensures i in Elems(vs) {
      assert i in roots && i in rs;
      ReachRefl(g, i);
      assert FromRoot(g, rs, i);
    }
    forall i | i in Elems(vs) ensures e.Live(i) && e.TotalOf(i) > 0 && Pending(e, i) {
      assert FromRoot(g, rs, i);
      VisitedPending(e, roots, i);
    }
  }

  lemma VisitedPending(e: Engine, roots: seq<nat>, i: nat)
    requires Consistent(e) && SuspectRoots(e, roots) && i < |e.tab|
    requires FromRoot(e.G(), LiveRoots(Heap(e.pool, e.tab), roots), i)
    ensures e.Live(i) && e.TotalOf(i) > 0 && Pending(e, i)
  {
    var g := e.G();
    var r :| r in LiveRoots(Heap(e.pool, e.tab), roots) && Reach(g, r, i);
    assert Candidate(e, r);
    PendingVia(e, r, i);
    if r != i {
      var w := ReachLastEdge(g, r, i);
      EdgeEnds(e.pool, e.tab, w, i);
      TotalsNonNegative(e, i);
    }
  }

  /** No root among the nodes with id `s`, and every edge into them comes from one of them. */
  ghost predicate Isolated(e: Engine, scc: seq<nat>, s: nat)
    requires e.Sized() && |scc| == |e.tab|
  {
    && (forall i: nat :: i < |scc| && scc[i] == s ==> e.tab[i].root == 0)
    && (forall x :: x in e.G() && x.0 < |scc| && x.1 < |scc| && scc[x.1] == s ==> scc[x.0] == s)
  }

  lemma OrphanIffIsolated(e: Engine, roots: seq<nat>, k: nat, vs: seq<nat>, scc: seq<nat>, v: nat)
    requires Consistent(e) && SuspectRoots(e, roots)
    requires Components(Heap(e.pool, e.tab), roots, k, vs, scc) && v in vs
    ensures v < |scc| && (Orphan(e, v) <==> Isolated(e, scc, scc[v]))
  {
    var g, s := e.G(), scc[v];
    VisitedIsScan(e, roots, k, vs, scc);
    if Isolated(e, scc, s) {
      IsolatedIsOrphan(e, vs, scc, v);
    }
    if Orphan(e, v) {
      forall i: nat | i < |scc| && scc[i] == s ensures e.tab[i].root == 0 {
        assert i in vs && SameComponent(g, i, v);
        assert !Rooted(e, i);
        TotalsNonNegative(e, i);
        assert i in Elems(vs);
      }
      forall x | x in g && x.0 < |scc| && x.1 < |scc| && scc[x.1] == s ensures scc[x.0] == s {
        assert x.1 in vs && SameComponent(g, x.1, v);
        ReachEdge(g, x.0, x.1);
        ReachTrans(g, x.0, x.1, v);
        assert Reach(g, v, x.0);
        ReachStaysIn(g, Elems(vs), v, x.0);
        assert x.0 in vs && SameComponent(g, x.0, v);
      }
    }
  }

  lemma IsolatedIsOrphan(e: Engine, vs: seq<nat>, scc: seq<nat>, v: nat)
    requires e.Sized() && TableOk(e.pool, e.tab) && |scc| == |e.tab|
    requires v in vs && v < |scc| && Isolated(e, scc, scc[v]) && scc[v] != UNVISITED
    requires forall u: nat :: u < |scc| ==> (u in vs <==> scc[u] != UNVISITED)
    requires forall u: nat, w: nat :: u < |scc| && w < |scc| && u in vs && w in vs ==>
               (scc[u] == scc[w] <==> SameComponent(e.G(), u, w))
    ensures Orphan(e, v)
  {
    var g := e.G();
    var c := set i: nat | i < |scc| && scc[i] == scc[v];
    forall x | x in g && x.1 in c ensures x.0 in c { EdgeEnds(e.pool, e.tab, x.0, x.1); }
    forall a: nat | Reach(g, a, v) ensures Reach(g, v, a) && !Rooted(e, a) {
      ReachBackIn(g, c, a, v);
      assert a in vs && SameComponent(g, a, v);
    }
  }

  /** The component test decides orphanhood. */
  lemma OrphanByCounts(e: Engine, roots: seq<nat>, k: nat, vs: seq<nat>, scc: seq<nat>, v: nat)
    requires Consistent(e) && SuspectRoots(e, roots)
    requires Components(Heap(e.pool, e.tab), roots, k, vs, scc) && v in vs
    ensures v < |scc|
    ensures Orphan(e, v) <==>
            ListSum(RootOf(Heap(e.pool, e.tab)), vs, scc, scc[v]) == 0 &&
            ListSum(EdgeOf(Heap(e.pool, e.tab)), vs, scc, scc[v]) ==
              ListSum(InternalOf(Heap(e.pool, e.tab), scc, scc[v]), vs, scc, scc[v])
  {
    var h := Heap(e.pool, e.tab);
    VisitedIsScan(e, roots, k, vs, scc);
    forall i: nat | i < |scc| && scc[i] == scc[v] ensures e.pool[i].live {
      assert i in Elems(vs);
    }
    OrphanIffIsolated(e, roots, k, vs, scc, v);
    ExternalTest(h, vs, scc, scc[v]);
    forall x | x in e.G() ensures x.0 < |scc| && x.1 < |scc| { EdgeEnds(e.pool, e.tab, x.0, x.1); }
  }

  // ---- reclaiming component after component ---------------------------------------------------

  /** Everything the reclaim loop relies on about the state `e` at the scan, the unmarked state
      `e1`, the listed nodes and the verdict per component. */
  ghost predicate Judged(e: Engine, e1: Engine, vs: seq<nat>, scc: seq<nat>, doomed: seq<bool>) {
    && Consistent(e) && Scanned(e, e1, Elems(vs)) && ScanOf(e, Elems(vs)) && Consistent(e1)
    && |scc| == |e.tab| && InRange(vs, |e.tab|) && Distinct(vs)
    && (forall i: nat :: i < |e.tab| && e.zeroMark[i] ==> e.TotalOf(i) == 0)
    && (forall v: nat :: v < |scc| ==> (v in vs <==> scc[v] < |doomed|))
    && (forall v: nat :: v in vs ==> (doomed[scc[v]] <==> Orphan(e, v)))
    && (forall u: nat, v: nat :: u in vs && v in vs ==> (scc[u] == scc[v] <==> SameComponent(e.G(), u, v)))
  }

  /** The nodes of doomed components with an id below `s`. */
  ghost function Done(vs: seq<nat>, scc: seq<nat>, doomed: seq<bool>, s: nat): set<nat> {
    set v | v in vs && v < |scc| && scc[v] < s && scc[v] < |doomed| && doomed[scc[v]]
  }

  ghost predicate MembersOf(vs: seq<nat>, scc: seq<nat>, s: nat, ms: seq<nat>) {
    && Distinct(ms)
    && (forall i :: i in ms <==> i in vs && i < |scc| && scc[i] == s)
  }

  /** An orphan's predecessors are in its component. */
  lemma OrphanPredecessor(e: Engine, e1: Engine, vs: seq<nat>, scc: seq<nat>, doomed: seq<bool>, u: nat, v: nat)
    requires Judged(e, e1, vs, scc, doomed) && (u, v) in e.G() && v in vs && doomed[scc[v]]
    ensures u in vs && scc[u] == scc[v]
  {
    var g := e.G();
    ReachEdge(g, u, v);
    assert Orphan(e, v) && Reach(g, v, u);
    assert v in Elems(vs);
    ReachStaysIn(g, Elems(vs), v, u);
    assert u in vs && SameComponent(g, u, v);
  }

  lemma DoneBackClosed(e: Engine, e1: Engine, vs: seq<nat>, scc: seq<nat>, doomed: seq<bool>, s: nat)
    requires Judged(e, e1, vs, scc, doomed)
    ensures BackClosed(e.G(), Done(vs, scc, doomed, s))
  {
    forall x | x in e.G() && x.1 in Done(vs, scc, doomed, s) ensures x.0 in Done(vs, scc, doomed, s) {
      OrphanPredecessor(e, e1, vs, scc, doomed, x.0, x.1);
    }
  }

  lemma MembersReclaimable(e: Engine, e1: Engine, es: Engine, vs: seq<nat>, scc: seq<nat>,
                           doomed: seq<bool>, s: nat, ms: seq<nat>)
    requires Judged(e, e1, vs, scc, doomed) && s < |doomed| && doomed[s] && MembersOf(vs, scc, s, ms)
    requires Reclaimed(e1, es, Done(vs, scc, doomed, s))
    ensures InRange(ms, |es.tab|) && BackClosed(es.G(), Elems(ms))
    ensures forall k :: 0 <= k < |ms| ==> es.Live(ms[k]) && !es.zeroMark[ms[k]]
    ensures forall k :: 0 <= k < |ms| ==> forall t :: t in es.tab[ms[k]].outs ==>
              Valid(es.pool, t) && (t.index in Elems(ms) <==> scc[t.index] == s)
  {
    var done := Done(vs, scc, doomed, s);
    DoneBackClosed(e, e1, vs, scc, doomed, s);
    ReclaimedGraph(e1, es, done);
    forall x | x in es.G() && x.1 in Elems(ms) ensures x.0 in Elems(ms) {
      OrphanPredecessor(e, e1, vs, scc, doomed, x.0, x.1);
    }
    forall k | 0 <= k < |ms|
      ensures ms[k] < |es.tab| && es.Live(ms[k]) && !es.zeroMark[ms[k]]
      ensures forall t :: t in es.tab[ms[k]].outs ==> Valid(es.pool, t)
    {
      var i := ms[k];
      assert i in ms && i in Elems(vs) && i !in done;
      if TargetOf(e1.G(), done, i) {
        var x :| x in e1.G() && x.0 in done && x.1 == i;
        OrphanPredecessor(e, e1, vs, scc, doomed, x.0, i);
      }
      assert SameCell(e1, es, i);
      assert RowOk(es.pool, es.tab, i);
    }
  }

  lemma DoneNext(vs: seq<nat>, scc: seq<nat>, doomed: seq<bool>, s: nat, ms: seq<nat>)
    requires s < |doomed| && MembersOf(vs, scc, s, ms)
    ensures Done(vs, scc, doomed, s + 1) ==
            if doomed[s] then Done(vs, scc, doomed, s) + Elems(ms) else Done(vs, scc, doomed, s)
  {
    forall v: nat
      ensures v in Done(vs, scc, doomed, s + 1) <==>
              v in Done(vs, scc, doomed, s) || (doomed[s] && v in Elems(ms))
    {
      assert v in Elems(ms) <==> v in vs && v < |scc| && scc[v] == s;
    }
  }

  lemma DoneGrows(vs: seq<nat>, scc: seq<nat>, doomed: seq<bool>, s: nat, ms: seq<nat>)
    requires s < |doomed| && MembersOf(vs, scc, s, ms)
    ensures if doomed[s] && ms != [] then Done(vs, scc, doomed, s + 1) != {} else Done(vs, scc, doomed, s + 1) == Done(vs, scc, doomed, s)
  {
    DoneNext(vs, scc, doomed, s, ms);
    if ms == [] {
      assert Elems(ms) == {};
    } else {
      assert ms[0] in Elems(ms);
    }
  }

  lemma ComponentReclaimed(e: Engine, e1: Engine, es: Engine, vs: seq<nat>, scc: seq<nat>,
                           doomed: seq<bool>, s: nat, ms: seq<nat>)
    requires Judged(e, e1, vs, scc, doomed) && s < |doomed| && doomed[s] && MembersOf(vs, scc, s, ms)
    requires Reclaimed(e1, es, Done(vs, scc, doomed, s))
    ensures InRange(ms, |es.tab|)
    ensures Reclaimed(e1, ReclaimComponent(es, ms), Done(vs, scc, doomed, s + 1))
  {
    MembersReclaimable(e, e1, es, vs, scc, doomed, s, ms);
    ReclaimComponentEffect(es, ms);
    DoneBackClosed(e, e1, vs, scc, doomed, s);
    ReclaimedTwice(e1, es, ReclaimComponent(es, ms), Done(vs, scc, doomed, s), Elems(ms));
    DoneNext(vs, scc, doomed, s, ms);
  }

  /** After the last component, exactly the orphans of the scanned region are gone. */
  lemma AllDone(e: Engine, e1: Engine, vs: seq<nat>, scc: seq<nat>, doomed: seq<bool>)
    requires Judged(e, e1, vs, scc, doomed)
    ensures forall v: nat :: v in Done(vs, scc, doomed, |doomed|) <==> v in Elems(vs) && Orphan(e, v)
  {
  }
}
