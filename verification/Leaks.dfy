/** The messages that lose the last mark of a garbage cycle, and exactly when they do. */
module Leaks {
  import opened Graphs
  import opened Cells
  import opened EngineState
  import opened Coverage

  // ---- storing into a cell that no root reaches -----------------------------------------------

  /** Storing `b` into `a` does not take away the only candidate that covers them: a root reaches
      `a`, or some candidate covers `a` and `b` is not a zero candidate, or another candidate
      reaches `a`. */
  ghost predicate EdgeAddSafe(e: Engine, a: nat, b: nat)
    requires e.Sized() && a < |e.tab| && b < |e.tab|
  {
    || Reachable(e, a)
    || (!Unborn(e, a) && (e.TotalOf(b) > 0 || e.suspectMark[b] || Unborn(e, b)))
    || exists m: nat :: m != b && Candidate(e, m) && Reach(e.G(), m, a)
  }

  /** An edge store keeps every unreachable cell covered if and only if it is safe. */
  lemma EdgeAddCoveredIff(e: Engine, a: Handle, b: Handle)
    requires Settled(e) && Covered(e) && Valid(e.pool, a) && Valid(e.pool, b)
    ensures Process(e, EdgeAdd(a, b)).Sized()
    ensures Covered(Process(e, EdgeAdd(a, b))) <==> EdgeAddSafe(e, a.index, b.index)
  {
    EdgeAddCounts(e, a, b);
    EdgeAddGraph(e, a, b);
    EdgeAddKeepsTable(e, a, b);
    if EdgeAddSafe(e, a.index, b.index) {
      if Reachable(e, a.index) {
        EdgeAddKeepsCovered(e, a, b);
      } else {
        SafeKeepsCovered(e, a, b);
      }
    } else {
      UnsafeUncovers(e, a, b);
    }
  }

  lemma AddedCandidate(e: Engine, a: Handle, b: Handle, m: nat)
    requires e.Sized() && TableOk(e.pool, e.tab) && Valid(e.pool, a) && Valid(e.pool, b)
    requires Candidate(e, m) && (m != b.index || e.TotalOf(m) > 0 || e.suspectMark[m])
    ensures Process(e, EdgeAdd(a, b)).Sized() && Candidate(Process(e, EdgeAdd(a, b)), m)
  {
    EdgeAddCounts(e, a, b);
    TotalsNonNegative(e, m);
  }

  lemma SafeKeepsCovered(e: Engine, a: Handle, b: Handle)
    requires Settled(e) && Covered(e) && Valid(e.pool, a) && Valid(e.pool, b)
    requires EdgeAddSafe(e, a.index, b.index) && !Reachable(e, a.index)
    requires Process(e, EdgeAdd(a, b)).Sized()
    ensures Covered(Process(e, EdgeAdd(a, b)))
  {
    var e' := Process(e, EdgeAdd(a, b));
    EdgeAddCounts(e, a, b);
    EdgeAddGraph(e, a, b);
    var m := CoverOfSource(e, a, b);
    ReachMonotone(e.G(), e'.G(), m, a.index);
    assert !Unborn(e, a.index) by {
      if Unborn(e, a.index) { UnbornNotPending(e, a.index); }
    }
    forall u: nat ensures CoveredCell(e', u) {
      if e'.Live(u) { SafeCell(e, a, b, m, u); }
    }
  }

  /** Some candidate that stays one covers the source. */
  lemma CoverOfSource(e: Engine, a: Handle, b: Handle) returns (m: nat)
    requires Settled(e) && Covered(e) && Valid(e.pool, a) && Valid(e.pool, b)
    requires EdgeAddSafe(e, a.index, b.index) && !Reachable(e, a.index)
    ensures Reach(e.G(), m, a.index)
    ensures Process(e, EdgeAdd(a, b)).Sized() && Candidate(Process(e, EdgeAdd(a, b)), m)
  {
    if x: nat :| x != b.index && Candidate(e, x) && Reach(e.G(), x, a.index) {
      m := x;
    } else {
      assert CoveredCell(e, a.index);
      m :| Candidate(e, m) && Reach(e.G(), m, a.index);
    }
    AddedCandidate(e, a, b, m);
  }

  lemma SafeCell(e: Engine, a: Handle, b: Handle, m: nat, u: nat)
    requires Settled(e) && Covered(e) && Valid(e.pool, a) && Valid(e.pool, b) && e.Live(u)
    requires !Reachable(e, a.index) && !Unborn(e, a.index)
    requires Process(e, EdgeAdd(a, b)).Sized() && Candidate(Process(e, EdgeAdd(a, b)), m)
    requires Reach(Process(e, EdgeAdd(a, b)).G(), m, a.index)
    ensures CoveredCell(Process(e, EdgeAdd(a, b)), u)
  {
    var e' := Process(e, EdgeAdd(a, b));
    var g, g' := e.G(), e'.G();
    EdgeAddCounts(e, a, b);
    EdgeAddGraph(e, a, b);
    assert CoveredCell(e, u);
    if Reachable(e, u) {
      var r: nat :| Rooted(e, r) && Reach(g, r, u);
      ReachMonotone(g, g', r, u);
      assert Rooted(e', r);
      ReachableVia(e', r, u);
    } else if Unborn(e, u) && u != b.index {
      assert SameCounts(e.tab[u], e'.tab[u]) && u != a.index;
    } else {
      var x := if Unborn(e, u) then b.index else (var y: nat :| Candidate(e, y) && Reach(g, y, u); y);
      if Unborn(e, u) { ReachRefl(g, u); }
      ReachMonotone(g, g', x, u);
      if x == b.index {
        ReachEdge(g', a.index, b.index);
        ReachTrans(g', m, a.index, b.index);
        ReachTrans(g', m, b.index, u);
        PendingVia(e', m, u);
      } else {
        AddedCandidate(e, a, b, x);
        PendingVia(e', x, u);
      }
    }
  }

  lemma {:induction false} WalkToSource(g: Graph, a: nat, b: nat, p: seq<nat>)
    requires Walk(g + {(a, b)}, p) && p[|p| - 1] == a
    ensures Reach(g, p[0], a)
    decreases |p|
  {
    if p[0] == a {
      ReachRefl(g, a);
    } else {
      WalkTail(g + {(a, b)}, p);
      WalkToSource(g, a, b, p[1..]);
      assert Hop(g + {(a, b)}, p, 0);
      ReachEdge(g, p[0], p[1]);
      ReachTrans(g, p[0], p[1], a);
    }
  }

  /** Nothing new reaches the source of an added edge. */
  lemma ReachSource(g: Graph, a: nat, b: nat, x: nat)
    requires Reach(g + {(a, b)}, x, a)
    ensures Reach(g, x, a)
  {
    var p :| WalkFromTo(g + {(a, b)}, p, x, a);
    WalkToSource(g, a, b, p);
  }

  lemma UnsafeUncovers(e: Engine, a: Handle, b: Handle)
    requires Settled(e) && Covered(e) && Valid(e.pool, a) && Valid(e.pool, b)
    requires !EdgeAddSafe(e, a.index, b.index) && Process(e, EdgeAdd(a, b)).Sized()
    ensures !Covered(Process(e, EdgeAdd(a, b)))
  {
    var e' := Process(e, EdgeAdd(a, b));
    EdgeAddCounts(e, a, b);
    EdgeAddGraph(e, a, b);
    EdgeAddKeepsTable(e, a, b);
    SourceNotReachable(e, a, b);
    SourceNotPending(e, a, b);
    assert e'.tab[a.index].outs != [];
    assert !CoveredCell(e', a.index);
  }

  lemma SourceNotReachable(e: Engine, a: Handle, b: Handle)
    requires e.Sized() && Valid(e.pool, a) && Valid(e.pool, b) && !Reachable(e, a.index)
    requires Process(e, EdgeAdd(a, b)).Sized()
    ensures !Reachable(Process(e, EdgeAdd(a, b)), a.index)
  {
    var e' := Process(e, EdgeAdd(a, b));
    EdgeAddCounts(e, a, b);
    EdgeAddGraph(e, a, b);
    if Reachable(e', a.index) {
      var r: nat :| Rooted(e', r) && Reach(e'.G(), r, a.index);
      ReachSource(e.G(), a.index, b.index, r);
      ReachableVia(e, r, a.index);
    }
  }

  lemma SourceNotPending(e: Engine, a: Handle, b: Handle)
    requires Settled(e) && Covered(e) && Valid(e.pool, a) && Valid(e.pool, b)
    requires !EdgeAddSafe(e, a.index, b.index) && Process(e, EdgeAdd(a, b)).Sized()
    ensures !Pending(Process(e, EdgeAdd(a, b)), a.index)
  {
    var e' := Process(e, EdgeAdd(a, b));
    EdgeAddCounts(e, a, b);
    EdgeAddGraph(e, a, b);
    TotalsNonNegative(e, b.index);
    if Pending(e', a.index) {
      var m: nat :| Candidate(e', m) && Reach(e'.G(), m, a.index);
      ReachSource(e.G(), a.index, b.index, m);
      if m != b.index {
        assert SameCounts(e.tab[m], e'.tab[m]) && Candidate(e, m);
      } else {
        BackTargetSafe(e, a.index, b.index);
      }
    }
  }

  /** If the target itself reaches the source and is referenced or suspected, the store is safe. */
  lemma BackTargetSafe(e: Engine, a: nat, b: nat)
    requires Settled(e) && Covered(e) && e.Live(a) && e.Live(b) && e.suspectMark[b] && Reach(e.G(), b, a)
    ensures EdgeAddSafe(e, a, b)
  {
    if Unborn(e, a) {
      UnbornNotPending(e, a);
      PendingVia(e, b, a);
    }
  }

  // ---- removing more roots than there are -----------------------------------------------------

  /** `b` stays covered when its roots are cleared without a look at it: another root or another
      candidate reaches it, it already carries the mark that fits the count it keeps, or its row is
      as good as never used. */
  ghost predicate UnderflowSafe(e: Engine, b: nat)
    requires e.Sized() && b < |e.tab|
  {
    || (exists r: nat :: r != b && Rooted(e, r) && Reach(e.G(), r, b))
    || (exists m: nat :: m != b && Candidate(e, m) && Reach(e.G(), m, b))
    || (if e.tab[b].edge == 0 then e.zeroMark[b] else e.suspectMark[b])
    || (e.tab[b].edge == 0 && e.tab[b].outs == [] && !e.zeroMark[b])
  }

  lemma ClearedRoots(e: Engine, b: nat)
    requires Settled(e) && e.Live(b)
    ensures var e' := SetRoot(e, b, 0);
      && e'.G() == e.G() && TableOk(e'.pool, e'.tab)
      && (forall i: nat :: i != b ==> (Rooted(e', i) <==> Rooted(e, i)) && (Candidate(e', i) <==> Candidate(e, i)) && (Unborn(e', i) <==> Unborn(e, i)))
      && !Rooted(e', b)
  {
    var e' := SetRoot(e, b, 0);
    RootChangeKeepsTable(e, b, 0);
    SameOutsSameEdges(e.pool, e.tab, e'.tab);
  }

  /** A removal past a positive root count keeps every unreachable cell covered exactly when the
      cell it names stays covered. */
  lemma UnderflowCoveredIff(e: Engine, b: Handle, c: nat)
    requires Settled(e) && Covered(e) && PartialUnderflow(e, RootRemove(b, c))
    ensures Process(e, RootRemove(b, c)) == SetRoot(e, b.index, 0)
    ensures Covered(Process(e, RootRemove(b, c))) <==> UnderflowSafe(e, b.index)
  {
    var e' := SetRoot(e, b.index, 0);
    assert Process(e, RootRemove(b, c)) == e';
    ClearedRoots(e, b.index);
    TotalsNonNegative(e, b.index);
    ReachRefl(e.G(), b.index);
    if UnderflowSafe(e, b.index) {
      ClearedIsCovered(e, b.index);
      forall u: nat ensures CoveredCell(e', u) {
        if e.Live(u) { BelowCleared(e, b.index, u); }
      }
    }
    if Covered(e') {
      assert CoveredCell(e', b.index);
      if Pending(e', b.index) {
        var m: nat :| Candidate(e', m) && Reach(e'.G(), m, b.index);
      } else if Reachable(e', b.index) {
        var r: nat :| Rooted(e', r) && Reach(e'.G(), r, b.index);
      }
    }
  }

  lemma ClearedIsCovered(e: Engine, b: nat)
    requires Settled(e) && e.Live(b) && e.tab[b].edge >= 0 && UnderflowSafe(e, b)
    ensures var e' := SetRoot(e, b, 0); Reachable(e', b) || Pending(e', b) || Unborn(e', b)
  {
    var e' := SetRoot(e, b, 0);
    ClearedRoots(e, b);
    ReachRefl(e.G(), b);
    if r: nat :| r != b && Rooted(e, r) && Reach(e.G(), r, b) {
      ReachableVia(e', r, b);
    } else if m: nat :| m != b && Candidate(e, m) && Reach(e.G(), m, b) {
      PendingVia(e', m, b);
    } else if if e.tab[b].edge == 0 then e.zeroMark[b] else e.suspectMark[b] {
      PendingVia(e', b, b);
    }
  }

  /** Whatever `b` covered follows `b`. */
  lemma BelowCleared(e: Engine, b: nat, u: nat)
    requires Settled(e) && Covered(e) && e.Live(b) && e.Live(u)
    requires var e' := SetRoot(e, b, 0); Reachable(e', b) || Pending(e', b) || Unborn(e', b)
    ensures CoveredCell(SetRoot(e, b, 0), u)
  {
    var e' := SetRoot(e, b, 0);
    var g := e.G();
    ClearedRoots(e, b);
    assert CoveredCell(e, u);
    if r: nat :| Rooted(e, r) && Reach(g, r, u) {
      if r == b { BelowCovered(e', b, u); } else { ReachableVia(e', r, u); }
    } else if m: nat :| Candidate(e, m) && Reach(g, m, u) {
      if m == b { BelowCovered(e', b, u); } else { PendingVia(e', m, u); }
    }
  }

  lemma BelowCovered(e: Engine, b: nat, u: nat)
    requires e.Sized() && TableOk(e.pool, e.tab) && e.Live(b) && Reach(e.G(), b, u)
    requires Reachable(e, b) || Pending(e, b) || Unborn(e, b)
    ensures Reachable(e, u) || Pending(e, u) || Unborn(e, u)
  {
    if r: nat :| Rooted(e, r) && Reach(e.G(), r, b) {
      ReachTrans(e.G(), r, b, u);
      ReachableVia(e, r, u);
    } else if m: nat :| Candidate(e, m) && Reach(e.G(), m, b) {
      ReachTrans(e.G(), m, b, u);
      PendingVia(e, m, u);
    } else {
      NoWayOut(e, b, u);
    }
  }

  /** Such a removal keeps marks and stacks in step exactly when it does not leave a suspect whose
      count is zero without a zero mark. */
  lemma UnderflowSettledIff(e: Engine, b: Handle, c: nat)
    requires Settled(e) && PartialUnderflow(e, RootRemove(b, c))
    ensures Settled(Process(e, RootRemove(b, c))) <==>
            !(e.suspectMark[b.index] && e.tab[b.index].edge == 0 && !e.zeroMark[b.index])
  {
    var e' := SetRoot(e, b.index, 0);
    assert Process(e, RootRemove(b, c)) == e';
    RootChangeKeepsTable(e, b.index, 0);
    assert forall i :: 0 <= i < |e.tab| && i != b.index ==> e'.TotalOf(i) == e.TotalOf(i);
  }

  /** The one kind of message after which marks and stacks are out of step. */
  predicate Unsettles(e: Engine, m: Msg)
    requires e.Sized()
  {
    && PartialUnderflow(e, m)
    && e.suspectMark[m.b.index] && e.tab[m.b.index].edge == 0 && !e.zeroMark[m.b.index]
  }

  /** Every other message keeps them in step, and this one never does. */
  lemma SettledIff(e: Engine, m: Msg)
    requires Settled(e)
    ensures Settled(Process(e, m)) <==> !Unsettles(e, m)
  {
    if PartialUnderflow(e, m) {
      UnderflowSettledIff(e, m.b, m.count);
    } else {
      ProcessKeepsSettled(e, m);
    }
  }

  // ---- concrete leaks -------------------------------------------------------------------------

  /** Two live cells, the first rooted once and pointing at the second. */
  function TwoCells(): Engine {
    Engine([Slot(1, true), Slot(1, true)], [Row(1, 0, [Handle(1, 1)]), Row(0, 1, [])],
           [false, false], [false, false], [], [])
  }

  lemma TwoCellsGraph()
    ensures TwoCells().G() == {(0, 1)} && Settled(TwoCells())
  {
    var e := TwoCells();
    assert e.tab[0].outs == [Handle(1, 1)] && e.tab[1].outs == [];
    assert Handle(1, 1) in e.tab[0].outs;
    forall x ensures x in e.G() <==> x == (0, 1) {}
    assert In(e.tab, Handle(0, 1), 1) == 0 && In(e.tab, Handle(1, 1), 1) == 1;
    assert In(e.tab, Handle(0, 1), 2) == 0 && In(e.tab, Handle(1, 1), 2) == 1;
    assert RowOk(e.pool, e.tab, 0) && RowOk(e.pool, e.tab, 1);
  }

  /** Dropping the root of the first cell and then storing it into the second, which nothing
      reaches any more, leaves both alive, unreachable and unmarked. */
  lemma StoreIntoGarbageLeaks()
    ensures var e := Process(TwoCells(), RootRemove(Handle(0, 1), 1));
      && Settled(e) && Covered(e) && !Reachable(e, 1)
      && !EdgeAddSafe(e, 1, 0)
      && Process(e, EdgeAdd(Handle(1, 1), Handle(0, 1))).Sized()
      && !Covered(Process(e, EdgeAdd(Handle(1, 1), Handle(0, 1))))
  {
    TwoCellsGraph();
    var e0 := TwoCells();
    TwoCellsCovered();
    var e := Process(e0, RootRemove(Handle(0, 1), 1));
    ProcessKeepsCovered(e0, RootRemove(Handle(0, 1), 1));
    assert e == e0.(tab := e0.tab[0 := Row(0, 0, [Handle(1, 1)])], zeroMark := [true, false], zeroStack := [0]);
    assert !Reachable(e, 1) by { assert forall r: nat :: !Rooted(e, r); }
    assert forall m: nat :: Candidate(e, m) ==> m == 0;
    assert !EdgeAddSafe(e, 1, 0);
    UnsafeUncovers(e, Handle(1, 1), Handle(0, 1));
  }

  lemma TwoCellsCovered()
    ensures Covered(TwoCells())
  {
    TwoCellsGraph();
    var e := TwoCells();
    ReachRefl(e.G(), 0);
    ReachEdge(e.G(), 0, 1);
    forall u: nat ensures CoveredCell(e, u) {
      if u < 2 {
        assert Rooted(e, 0) && Reach(e.G(), 0, u);
        ReachableVia(e, 0, u);
      }
    }
  }

  /** A folded removal of two roots from a cell that has one clears the count without a mark. */
  lemma PartialUnderflowLeaks()
    ensures var e := Process(TwoCells(), RootRemove(Handle(0, 1), 2));
      && PartialUnderflow(TwoCells(), RootRemove(Handle(0, 1), 2))
      && e.Sized() && e.Live(0) && e.TotalOf(0) == 0 && !Covered(e)
  {
    TwoCellsGraph();
    var e0 := TwoCells();
    var e := Process(e0, RootRemove(Handle(0, 1), 2));
    assert e == e0.(tab := e0.tab[0 := Row(0, 0, [Handle(1, 1)])]);
    assert forall m: nat :: !Candidate(e, m) by { assert forall m: nat :: Candidate(e, m) ==> m < 2; }
    assert !Pending(e, 0);
    assert !Reachable(e, 0) by { assert forall r: nat :: !Rooted(e, r); }
    assert !CoveredCell(e, 0);
  }
}
