/** What collection promises over whole runs, and exactly when it keeps the promise. */
module Exactness {
  import opened Graphs
  import opened Cells
  import opened EngineState
  import opened Coverage
  import opened Sweeping
  import opened CollectionEngines

  // ---- one sweep ------------------------------------------------------------------------------

  lemma AnchoredIsKept(e: Engine, a: nat, u: nat)
    requires e.Sized() && Anchor(e, a) && Reach(e.G(), a, u) && e.Live(u)
    ensures u in Kept(e)
  {
    assert Anchored(e, u);
  }

  /** A sweep never frees a cell that a root reaches, nor one that is still waiting for its first
      message. */
  lemma KeepsReachable(e: Engine, u: nat)
    requires Consistent(e) && e.Live(u) && (Reachable(e, u) || Unborn(e, u))
    ensures u in Kept(e)
  {
    if Reachable(e, u) {
      var r: nat :| Rooted(e, r) && Reach(e.G(), r, u);
      AnchoredIsKept(e, r, u);
    } else {
      UnbornNotPending(e, u);
      ReachRefl(e.G(), u);
      AnchoredIsKept(e, u, u);
    }
  }

  lemma SweptGraph(e: Engine, e': Engine)
    requires e.Sized() && TableOk(e.pool, e.tab) && Swept(e, e')
    ensures e'.G() <= e.G()
    ensures forall x :: x in e.G() && x.0 in Kept(e) ==> x in e'.G()
  {
    KeptClosed(e);
    forall x | x in e'.G() ensures x in e.G() {
      EdgeEnds(e'.pool, e'.tab, x.0, x.1);
      assert Survives(e, e', x.0) && Survives(e, e', x.1);
      EdgeIff(e.pool, e.tab, x.0, x.1);
    }
    forall x | x in e.G() && x.0 in Kept(e) ensures x in e'.G() {
      EdgeEnds(e.pool, e.tab, x.0, x.1);
      assert e'.Live(x.0) && e'.Live(x.1);
      assert Survives(e, e', x.0) && Survives(e, e', x.1);
      EdgeIff(e'.pool, e'.tab, x.0, x.1);
    }
  }

  /** Reachability and the waiting cells survive a sweep unchanged. */
  lemma SweptReachable(e: Engine, e': Engine, u: nat)
    requires Settled(e) && Swept(e, e')
    ensures Reachable(e', u) <==> Reachable(e, u)
  {
    SweptGraph(e, e');
    KeptClosed(e);
    if Reachable(e, u) {
      var r: nat :| Rooted(e, r) && Reach(e.G(), r, u);
      ReachRefl(e.G(), r);
      assert Reachable(e, r);
      KeepsReachable(e, r);
      assert Survives(e, e', r) && Rooted(e', r);
      ReachInside(e.G(), e'.G(), Kept(e), r, u);
      ReachableVia(e', r, u);
    }
    if Reachable(e', u) {
      var r: nat :| Rooted(e', r) && Reach(e'.G(), r, u);
      assert Survives(e, e', r) && Rooted(e, r);
      ReachMonotone(e'.G(), e.G(), r, u);
      ReachableVia(e, r, u);
    }
  }

  lemma {:induction false} WalkInside(g: Graph, g': Graph, s: set<nat>, p: seq<nat>)
    requires Closed(g, s) && Walk(g, p) && p[0] in s
    requires forall x :: x in g && x.0 in s ==> x in g'
    ensures Reach(g', p[0], p[|p| - 1])
    decreases |p|
  {
    if |p| == 1 {
      ReachRefl(g', p[0]);
    } else {
      assert Hop(g, p, 0);
      WalkTail(g, p);
      WalkInside(g, g', s, p[1..]);
      ReachEdge(g', p[0], p[1]);
      ReachTrans(g', p[0], p[1], p[|p| - 1]);
    }
  }

  lemma ReachInside(g: Graph, g': Graph, s: set<nat>, u: nat, v: nat)
    requires Closed(g, s) && u in s && Reach(g, u, v)
    requires forall x :: x in g && x.0 in s ==> x in g'
    ensures Reach(g', u, v)
  {
    var p :| WalkFromTo(g, p, u, v);
    WalkInside(g, g', s, p);
  }

  /** The live cells are the reachable ones and the ones nothing has been said about. */
  ghost predicate Exact(e: Engine)
    requires e.Sized()
  {
    forall u: nat :: ExactCell(e, u)
  }

  ghost predicate ExactCell(e: Engine, u: nat)
    requires e.Sized()
  {
    e.Live(u) ==> Reachable(e, u) || Unborn(e, u)
  }

  /** A sweep is exact if and only if every unreachable cell was pending before it. */
  lemma SweepExactIff(e: Engine, e': Engine)
    requires Settled(e) && Swept(e, e')
    ensures Exact(e') <==> Covered(e)
    ensures forall u: nat :: e.Live(u) && (Reachable(e, u) || Unborn(e, u)) ==> e'.Live(u)
  {
    forall u: nat | e.Live(u) && (Reachable(e, u) || Unborn(e, u)) ensures e'.Live(u) {
      KeepsReachable(e, u);
    }
    if Covered(e) {
      forall u: nat ensures ExactCell(e', u) {
        if e'.Live(u) { CoveredIsExact(e, e', u); }
      }
    }
    if Exact(e') {
      forall u: nat ensures CoveredCell(e, u) {
        if e.Live(u) { ExactWasCovered(e, e', u); }
      }
    }
  }

  lemma CoveredIsExact(e: Engine, e': Engine, u: nat)
    requires Settled(e) && Swept(e, e') && Covered(e) && e'.Live(u)
    ensures Reachable(e', u) || Unborn(e', u)
  {
    assert u in Kept(e);
    var a: nat :| Anchor(e, a) && Reach(e.G(), a, u);
    assert CoveredCell(e, a);
    if e.tab[a].root > 0 {
      ReachableVia(e, a, u);
      SweptReachable(e, e', u);
    } else if Reachable(e, a) {
      var r: nat :| Rooted(e, r) && Reach(e.G(), r, a);
      ReachTrans(e.G(), r, a, u);
      ReachableVia(e, r, u);
      SweptReachable(e, e', u);
    } else {
      NoWayOut(e, a, u);
      StaysUnborn(e, e', u);
    }
  }

  lemma StaysUnborn(e: Engine, e': Engine, u: nat)
    requires Settled(e) && Swept(e, e') && Unborn(e, u) && e'.Live(u)
    ensures Unborn(e', u)
  {
    assert Survives(e, e', u);
    SweptGraph(e, e');
    TotalsNonNegative(e', u);
    if e'.tab[u].edge > 0 {
      var w := HasPredecessor(e'.pool, e'.tab, u);
      EdgeEnds(e.pool, e.tab, w, u);
    }
  }

  lemma ExactWasCovered(e: Engine, e': Engine, u: nat)
    requires Settled(e) && Swept(e, e') && Exact(e') && e.Live(u)
    ensures Reachable(e, u) || Unborn(e, u) || Pending(e, u)
  {
    SweepStarts(e);
    assert Progresses(e, Kept(e), u);
    assert ExactCell(e', u);
    if u in Kept(e) && !Reachable(e, u) && !Pending(e, u) {
      SweptReachable(e, e', u);
      assert Unborn(e', u) && Survives(e, e', u);
      WasUnborn(e, e', u);
    }
  }

  lemma WasUnborn(e: Engine, e': Engine, u: nat)
    requires Settled(e) && Swept(e, e') && u in Kept(e) && !Pending(e, u) && Unborn(e', u) && Survives(e, e', u)
    ensures Unborn(e, u)
  {
    assert e.tab[u].edge == 0 by {
      TotalsNonNegative(e, u);
      if e.tab[u].edge > 0 { NoLostPredecessor(e, e', u); }
    }
    NotPendingUnmarked(e, u);
  }

  lemma NotPendingUnmarked(e: Engine, u: nat)
    requires e.Sized() && e.Live(u) && !Pending(e, u) && e.TotalOf(u) == 0
    ensures !e.zeroMark[u]
  {
    if e.zeroMark[u] {
      ReachRefl(e.G(), u);
      PendingVia(e, u, u);
    }
  }

  /** A kept cell that is not pending loses no incoming edge. */
  lemma NoLostPredecessor(e: Engine, e': Engine, u: nat)
    requires Consistent(e) && Swept(e, e') && u in Kept(e) && !Pending(e, u) && e.tab[u].edge > 0
    ensures e'.tab[u].edge > 0
  {
    var p := HasPredecessor(e.pool, e.tab, u);
    assert p in Kept(e) by {
      EdgeEnds(e.pool, e.tab, p, u);
      if p !in Kept(e) {
        SweepStarts(e);
        assert Progresses(e, Kept(e), p);
        PendingBelow(e, p, u);
      }
    }
    SweptGraph(e, e');
    EdgeEnds(e'.pool, e'.tab, p, u);
  }

  // ---- whole runs -----------------------------------------------------------------------------

  datatype Step = Allocate(i: nat) | AllocateRooted(i: nat) | Apply(m: Msg) | Collect

  ghost predicate Taken(e: Engine, s: Step, e': Engine) {
    e.Sized() && match s
      case Allocate(i) => i < |e.tab| && !e.Live(i) && e' == Activate(e, i)
      case AllocateRooted(i) =>
        && i < |e.tab| && !e.Live(i)
        && e' == Process(Activate(e, i), RootAdd(Current(e.pool, i), 1))
      case Apply(m) => Disciplined(e, m) && e' == Process(e, m)
      case Collect => Swept(e, e')
  }

  /** A run from an empty pool. */
  ghost predicate Run(capacity: nat, es: seq<Engine>, ss: seq<Step>) {
    && |es| == |ss| + 1 && es[0] == Init(capacity)
    && forall k: nat :: k < |ss| ==> StepAt(es, ss, k)
  }

  ghost predicate StepAt(es: seq<Engine>, ss: seq<Step>, k: nat)
    requires k < |ss| && k + 1 < |es|
  {
    Taken(es[k], ss[k], es[k + 1])
  }

  lemma InitCovered(capacity: nat)
    ensures Settled(Init(capacity)) && Covered(Init(capacity))
  {
    InitSettled(capacity);
  }

  lemma StepKeeps(e: Engine, s: Step, e': Engine)
    requires Settled(e) && Covered(e) && Taken(e, s, e')
    ensures Settled(e') && Covered(e')
  {
    match s
    case Allocate(i) => ActivateKeepsCovered(e, i);
    case AllocateRooted(i) =>
      ActivateKeepsCovered(e, i);
      ProcessKeepsCovered(Activate(e, i), RootAdd(Current(e.pool, i), 1));
    case Apply(m) => ProcessKeepsCovered(e, m);
    case Collect =>
      SweepExactIff(e, e');
      forall u: nat ensures CoveredCell(e', u) { assert ExactCell(e', u); }
  }

  lemma {:induction false} RunKeeps(capacity: nat, es: seq<Engine>, ss: seq<Step>, k: nat)
    requires Run(capacity, es, ss) && k < |es|
    ensures Settled(es[k]) && Covered(es[k])
  {
    if k == 0 {
      InitCovered(capacity);
    } else {
      RunKeeps(capacity, es, ss, k - 1);
      assert StepAt(es, ss, k - 1);
      StepKeeps(es[k - 1], ss[k - 1], es[k]);
    }
  }

  /** When everything unreachable was pending, a sweep frees exactly the cells that are neither
      reachable nor waiting for their first message. */
  lemma SweptExactly(e: Engine, e': Engine, u: nat)
    requires Settled(e) && Covered(e) && Swept(e, e')
    ensures e'.Live(u) <==> e.Live(u) && (Reachable(e, u) || Unborn(e, u))
  {
    if e.Live(u) && (Reachable(e, u) || Unborn(e, u)) {
      KeepsReachable(e, u);
    }
    if e'.Live(u) {
      assert Survives(e, e', u) && u in Kept(e);
      CoveredIsExact(e, e', u);
      SweptReachable(e, e', u);
      if !Reachable(e, u) {
        if Pending(e, u) {
          PendingStays(e, e', u);
        } else {
          WasUnborn(e, e', u);
        }
      }
    }
  }

  /** Every collection of every run leaves live exactly the reachable cells and those waiting for
      their first message. */
  lemma RunExact(capacity: nat, es: seq<Engine>, ss: seq<Step>, k: nat)
    requires Run(capacity, es, ss) && k < |ss| && ss[k].Collect?
    ensures es[k].Sized() && es[k + 1].Sized()
    ensures forall u: nat :: es[k + 1].Live(u) <==>
              es[k].Live(u) && (Reachable(es[k], u) || Unborn(es[k], u))
    ensures Exact(es[k + 1])
  {
    RunKeeps(capacity, es, ss, k);
    var e, e' := es[k], es[k + 1];
    assert StepAt(es, ss, k);
    SweepExactIff(e, e');
    forall u: nat ensures e'.Live(u) <==> e.Live(u) && (Reachable(e, u) || Unborn(e, u)) {
      SweptExactly(e, e', u);
    }
  }

  lemma PendingStays(e: Engine, e': Engine, u: nat)
    requires Settled(e) && Swept(e, e') && Covered(e) && u in Kept(e) && Pending(e, u)
    ensures Reachable(e, u)
  {
    var a: nat :| Anchor(e, a) && Reach(e.G(), a, u);
    assert CoveredCell(e, a);
    if e.tab[a].root > 0 {
      ReachableVia(e, a, u);
    } else if Reachable(e, a) {
      var r: nat :| Rooted(e, r) && Reach(e.G(), r, a);
      ReachTrans(e.G(), r, a, u);
      ReachableVia(e, r, u);
    } else {
      NoWayOut(e, a, u);
    }
  }

  // ---- runs in which every allocation takes its root at once ----------------------------------

  /** Every live cell has been referenced: it still is, or it is a zero candidate. */
  ghost predicate AllBorn(e: Engine)
    requires e.Sized()
  {
    forall u: nat :: e.Live(u) ==> e.TotalOf(u) > 0 || e.zeroMark[u]
  }

  lemma ProcessKeepsBorn(e: Engine, m: Msg)
    requires Settled(e) && AllBorn(e) && !PartialUnderflow(e, m)
    ensures Process(e, m).Sized() && AllBorn(Process(e, m))
  {
    ProcessKeepsTable(e, m);
    var e' := Process(e, m);
    forall u: nat | e'.Live(u) ensures e'.TotalOf(u) > 0 || e'.zeroMark[u] {
      TotalsNonNegative(e, u);
      TotalsNonNegative(e', u);
      BornCell(e, m, u);
    }
  }

  lemma BornCell(e: Engine, m: Msg, u: nat)
    requires Settled(e) && AllBorn(e) && !PartialUnderflow(e, m) && e.Live(u)
    requires Process(e, m).Sized() && Process(e, m).pool == e.pool && |Process(e, m).tab| == |e.tab|
    requires Process(e, m).TotalOf(u) >= 0 && e.tab[u].root >= 0 && e.tab[u].edge >= 0
    ensures Process(e, m).TotalOf(u) > 0 || Process(e, m).zeroMark[u]
  {
    match m
    case RootAdd(b, count) =>
    case RootRemove(b, count) =>
      if Valid(e.pool, b) && e.tab[b.index].root >= count {
        ReviewedIsBorn(SetRoot(e, b.index, e.tab[b.index].root - count), b.index, u);
      }
    case RootCheck(b) => if Valid(e.pool, b) { ReviewedIsBorn(e, b.index, u); }
    case EdgeAdd(a, b) => if Valid(e.pool, a) && Valid(e.pool, b) { EdgeAddCounts(e, a, b); }
    case EdgeRemove(a, b) => UnlinkedIsBorn(e, a, b, u);
    case Terminate =>
  }

  lemma ReviewedIsBorn(e: Engine, b: nat, u: nat)
    requires e.Sized() && b < |e.tab| && u < |e.tab| && e.TotalOf(u) >= 0
    requires u != b ==> e.TotalOf(u) > 0 || e.zeroMark[u]
    ensures Reconsider(e, b).Sized() && Reconsider(e, b).tab == e.tab
    ensures e.TotalOf(u) > 0 || Reconsider(e, b).zeroMark[u]
  {
  }

  lemma UnlinkedIsBorn(e: Engine, a: Handle, b: Handle, u: nat)
    requires Settled(e) && AllBorn(e) && e.Live(u)
    requires Process(e, EdgeRemove(a, b)).Sized() && |Process(e, EdgeRemove(a, b)).tab| == |e.tab|
    requires Process(e, EdgeRemove(a, b)).TotalOf(u) >= 0
    ensures Process(e, EdgeRemove(a, b)).TotalOf(u) > 0 || Process(e, EdgeRemove(a, b)).zeroMark[u]
  {
    if Valid(e.pool, a) && b in e.tab[a.index].outs {
      EdgeRemoveShape(e, a, b);
      UnlinkedTotals(e, a.index, b);
      ReconsiderFrame(Unlinked(e, a.index, b), b.index);
      ReviewedIsBorn(Unlinked(e, a.index, b), b.index, u);
    } else {
      assert Process(e, EdgeRemove(a, b)) == e;
    }
  }

  lemma ReachableReferenced(e: Engine, u: nat)
    requires e.Sized() && TableOk(e.pool, e.tab) && u < |e.tab| && Reachable(e, u)
    ensures e.Live(u) && e.TotalOf(u) > 0
  {
    var r: nat :| Rooted(e, r) && Reach(e.G(), r, u);
    TotalsNonNegative(e, u);
    if r != u {
      var w := ReachLastEdge(e.G(), r, u);
      EdgeEnds(e.pool, e.tab, w, u);
    }
  }

  lemma StepKeepsBorn(e: Engine, s: Step, e': Engine)
    requires Settled(e) && Covered(e) && AllBorn(e) && Taken(e, s, e') && !s.Allocate?
    ensures e'.Sized() && AllBorn(e')
  {
    match s
    case AllocateRooted(i) =>
      ActivateKeepsSettled(e, i);
      forall u: nat | e'.Live(u) ensures e'.TotalOf(u) > 0 || e'.zeroMark[u] {}
    case Apply(m) => ProcessKeepsBorn(e, m);
    case Collect =>
      StepKeeps(e, s, e');
      SweepExactIff(e, e');
      forall u: nat | e'.Live(u) ensures e'.TotalOf(u) > 0 || e'.zeroMark[u] {
        assert ExactCell(e', u);
        SweptBorn(e, e', u);
        ReachableReferenced(e', u);
      }
  }

  ghost predicate LiveIsReachable(e: Engine)
    requires e.Sized()
  {
    forall u: nat :: u < |e.tab| ==> (e.Live(u) <==> Reachable(e, u))
  }

  lemma SweptBorn(e: Engine, e': Engine, u: nat)
    requires Settled(e) && Covered(e) && AllBorn(e) && Swept(e, e') && e'.Live(u)
    ensures Reachable(e', u)
  {
    CoveredIsExact(e, e', u);
    if !Reachable(e', u) {
      SweptReachable(e, e', u);
      assert u in Kept(e) && Survives(e, e', u);
      if Pending(e, u) {
        PendingStays(e, e', u);
      } else {
        WasUnborn(e, e', u);
      }
    }
  }

  lemma {:induction false} RunKeepsBorn(capacity: nat, es: seq<Engine>, ss: seq<Step>, k: nat)
    requires Run(capacity, es, ss) && k < |es| && forall j :: 0 <= j < |ss| ==> !ss[j].Allocate?
    ensures es[k].Sized() && AllBorn(es[k])
  {
    if k == 0 {
    } else {
      RunKeepsBorn(capacity, es, ss, k - 1);
      RunKeeps(capacity, es, ss, k - 1);
      assert StepAt(es, ss, k - 1);
      StepKeepsBorn(es[k - 1], ss[k - 1], es[k]);
    }
  }

  /** With rooted allocations, live after a collection means reachable. */
  lemma RootedRunExact(capacity: nat, es: seq<Engine>, ss: seq<Step>, k: nat)
    requires Run(capacity, es, ss) && k < |ss| && ss[k].Collect?
    requires forall j :: 0 <= j < |ss| ==> !ss[j].Allocate?
    ensures es[k + 1].Sized() && LiveIsReachable(es[k + 1])
  {
    RunKeeps(capacity, es, ss, k);
    RunKeepsBorn(capacity, es, ss, k);
    var e, e' := es[k], es[k + 1];
    assert StepAt(es, ss, k);
    forall u: nat | u < |e'.tab| ensures e'.Live(u) <==> Reachable(e', u) {
      if e'.Live(u) { SweptBorn(e, e', u); }
      if Reachable(e', u) { ReachableReferenced(e', u); }
    }
  }
}
