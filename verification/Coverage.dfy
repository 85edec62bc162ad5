/** Why marking on every decrement is enough: every live cell that no root reaches can be reached
    from a pending candidate. */
module Coverage {
  import opened Graphs
  import opened Cells
  import opened EngineState

  ghost predicate Rooted(e: Engine, i: nat)
    requires e.Sized()
  {
    e.Live(i) && e.tab[i].root > 0
  }

  /** Some cell with a positive root count reaches `u` along recorded edges. */
  ghost predicate Reachable(e: Engine, u: nat)
    requires e.Sized()
  {
    exists r: nat :: Rooted(e, r) && Reach(e.G(), r, u)
  }

  /** A live cell that the next sweep will look at. */
  ghost predicate Candidate(e: Engine, i: nat)
    requires e.Sized()
  {
    e.Live(i) && if e.TotalOf(i) == 0 then e.zeroMark[i] else e.suspectMark[i]
  }

  ghost predicate Pending(e: Engine, u: nat)
    requires e.Sized()
  {
    exists m: nat :: Candidate(e, m) && Reach(e.G(), m, u)
  }

  /** Allocated, but no message about it has been applied yet. */
  ghost predicate Unborn(e: Engine, u: nat)
    requires e.Sized()
  {
    e.Live(u) && e.tab[u] == EMPTY_ROW && !e.zeroMark[u]
  }

  ghost predicate Covered(e: Engine)
    requires e.Sized()
  {
    forall u: nat :: CoveredCell(e, u)
  }

  ghost predicate CoveredCell(e: Engine, u: nat)
    requires e.Sized()
  {
    e.Live(u) ==> Reachable(e, u) || Unborn(e, u) || Pending(e, u)
  }

  lemma ReachableVia(e: Engine, r: nat, u: nat)
    requires e.Sized() && Rooted(e, r) && Reach(e.G(), r, u)
    ensures Reachable(e, u)
  {
  }

  lemma PendingVia(e: Engine, m: nat, u: nat)
    requires e.Sized() && Candidate(e, m) && Reach(e.G(), m, u)
    ensures Pending(e, u)
  {
  }

  lemma NoWayOut(e: Engine, b: nat, u: nat)
    requires e.Sized() && TableOk(e.pool, e.tab) && b < |e.tab| && e.tab[b].outs == []
    requires Reach(e.G(), b, u)
    ensures u == b
  {
    if u != b {
      var w := ReachFirstEdge(e.G(), b, u);
      EdgeEnds(e.pool, e.tab, b, w);
    }
  }

  lemma UnbornNotPending(e: Engine, u: nat)
    requires e.Sized() && TableOk(e.pool, e.tab) && Unborn(e, u)
    ensures !Pending(e, u)
  {
    if Pending(e, u) {
      var m: nat :| Candidate(e, m) && Reach(e.G(), m, u);
      if m != u {
        var w := ReachLastEdge(e.G(), m, u);
        EdgeEnds(e.pool, e.tab, w, u);
      }
    }
  }

  // ---- a count of `b` goes down ---------------------------------------------------------------

  /** `e'` is `e` with references to `b` taken away and `b` re-evaluated. */
  ghost predicate Lowered(e: Engine, e': Engine, b: nat) {
    && e.Sized() && e'.Sized() && e'.pool == e.pool
    && TableOk(e.pool, e.tab) && TableOk(e'.pool, e'.tab)
    && e.Live(b)
    && (forall i :: 0 <= i < |e.tab| && i != b ==> SameCounts(e.tab[i], e'.tab[i]))
    && (forall i :: 0 <= i < |e.tab| && e.tab[i].outs == [] ==> e'.tab[i].outs == [])
    && e'.TotalOf(b) <= e.TotalOf(b)
    && e'.G() <= e.G()
    && (forall x :: x in e.G() && x.1 != b ==> x in e'.G())
    && (forall i :: 0 <= i < |e.tab| && i != b ==>
          e'.zeroMark[i] == e.zeroMark[i] && e'.suspectMark[i] == e.suspectMark[i])
    && (e'.TotalOf(b) == 0 ==> e'.zeroMark[b])
    && (e'.TotalOf(b) > 0 && e'.tab[b].outs != [] ==> e'.suspectMark[b])
  }

  predicate SameCounts(r: Row, r': Row) { r'.root == r.root && r'.edge == r.edge }

  /** Removing edges into `b` only cuts walks at `b`. */
  lemma {:induction false} WalkUpTo(g: Graph, g': Graph, b: nat, p: seq<nat>)
    requires Walk(g, p)
    requires forall x :: x in g && x.1 != b ==> x in g'
    ensures Reach(g', p[0], p[|p| - 1]) || Reach(g', b, p[|p| - 1])
    decreases |p|
  {
    if |p| == 1 {
      ReachRefl(g', p[0]);
    } else {
      WalkTail(g, p);
      WalkUpTo(g, g', b, p[1..]);
      assert Hop(g, p, 0);
      if p[1] != b && Reach(g', p[1], p[|p| - 1]) {
        ReachEdge(g', p[0], p[1]);
        ReachTrans(g', p[0], p[1], p[|p| - 1]);
      }
    }
  }

  lemma ReachUpTo(g: Graph, g': Graph, b: nat, u: nat, v: nat)
    requires Reach(g, u, v)
    requires forall x :: x in g && x.1 != b ==> x in g'
    ensures Reach(g', u, v) || Reach(g', b, v)
  {
    var p :| WalkFromTo(g, p, u, v);
    WalkUpTo(g, g', b, p);
  }

  lemma LoweredCandidate(e: Engine, e': Engine, b: nat, m: nat)
    requires Lowered(e, e', b) && Candidate(e, m) && m != b
    ensures Candidate(e', m)
  {
    assert SameCounts(e.tab[m], e'.tab[m]);
  }

  /** Everything `b` still reaches is reachable or pending, whatever became of `b`. */
  lemma BelowLowered(e: Engine, e': Engine, b: nat, u: nat)
    requires Lowered(e, e', b) && Covered(e) && Reach(e'.G(), b, u)
    ensures Reachable(e', u) || Pending(e', u)
  {
    TotalsNonNegative(e', b);
    if e'.TotalOf(b) == 0 || e'.tab[b].outs != [] {
      PendingVia(e', b, u);
    } else if e'.tab[b].root > 0 {
      ReachableVia(e', b, u);
    } else {
      LeafStaysCovered(e, e', b);
      NoWayOut(e', b, u);
    }
  }

  /** A cell without records that keeps an incoming edge is covered through its predecessor. */
  lemma LeafStaysCovered(e: Engine, e': Engine, b: nat)
    requires Lowered(e, e', b) && Covered(e)
    requires e'.tab[b].outs == [] && e'.tab[b].root <= 0 && e'.TotalOf(b) > 0
    ensures Reachable(e', b) || Pending(e', b)
  {
    var g, g' := e.G(), e'.G();
    var w := HasPredecessor(e'.pool, e'.tab, b);
    EdgeEnds(e'.pool, e'.tab, w, b);
    ReachEdge(g', w, b);
    assert w != b && e.tab[w].outs != [];
    assert CoveredCell(e, w);
    if Reachable(e, w) {
      var r: nat :| Rooted(e, r) && Reach(g, r, w);
      NotThroughLeaf(e, e', b, r, w);
      assert SameCounts(e.tab[r], e'.tab[r]);
      ReachTrans(g', r, w, b);
      ReachableVia(e', r, b);
    } else {
      var m: nat :| Candidate(e, m) && Reach(g, m, w);
      NotThroughLeaf(e, e', b, m, w);
      LoweredCandidate(e, e', b, m);
      ReachTrans(g', m, w, b);
      PendingVia(e', m, b);
    }
  }

  lemma NotThroughLeaf(e: Engine, e': Engine, b: nat, x: nat, w: nat)
    requires Lowered(e, e', b) && e'.tab[b].outs == [] && w != b && Reach(e.G(), x, w)
    ensures Reach(e'.G(), x, w) && x != b
  {
    ReachUpTo(e.G(), e'.G(), b, x, w);
    if Reach(e'.G(), b, w) {
      NoWayOut(e', b, w);
    }
  }

  lemma LoweredKeepsCovered(e: Engine, e': Engine, b: nat)
    requires Lowered(e, e', b) && Covered(e)
    ensures Covered(e')
  {
    forall u: nat ensures CoveredCell(e', u) {
      if e'.Live(u) { LoweredCell(e, e', b, u); }
    }
  }

  lemma LoweredCell(e: Engine, e': Engine, b: nat, u: nat)
    requires Lowered(e, e', b) && Covered(e) && e.Live(u)
    ensures Reachable(e', u) || Unborn(e', u) || Pending(e', u)
  {
    var g, g' := e.G(), e'.G();
    assert CoveredCell(e, u);
    if Reachable(e, u) {
      var r: nat :| Rooted(e, r) && Reach(g, r, u);
      ReachUpTo(g, g', b, r, u);
      if Reach(g', b, u) {
        BelowLowered(e, e', b, u);
      } else {
        assert r != b && SameCounts(e.tab[r], e'.tab[r]);
        ReachableVia(e', r, u);
      }
    } else if Pending(e, u) {
      var m: nat :| Candidate(e, m) && Reach(g, m, u);
      ReachUpTo(g, g', b, m, u);
      if Reach(g', b, u) {
        BelowLowered(e, e', b, u);
      } else {
        LoweredCandidate(e, e', b, m);
        PendingVia(e', m, u);
      }
    } else if u == b {
      ReachRefl(g', b);
      BelowLowered(e, e', b, b);
    } else {
      assert SameCounts(e.tab[u], e'.tab[u]);
    }
  }

  // ---- a count of `b` goes up -----------------------------------------------------------------

  /** `e'` is `e` with a reference added to `b`, which a root reaches afterwards. */
  ghost predicate Raised(e: Engine, e': Engine, b: nat) {
    && e.Sized() && e'.Sized() && e'.pool == e.pool
    && TableOk(e.pool, e.tab) && TableOk(e'.pool, e'.tab)
    && e'.zeroMark == e.zeroMark && e'.suspectMark == e.suspectMark
    && e.G() <= e'.G()
    && (forall i :: 0 <= i < |e.tab| && i != b ==> SameCounts(e.tab[i], e'.tab[i]))
    && (forall i :: 0 <= i < |e.tab| && e.tab[i].root > 0 ==> e'.tab[i].root > 0)
    && (forall i :: 0 <= i < |e.tab| && Unborn(e, i) && i != b ==> e'.tab[i].outs == [])
    && Reachable(e', b)
  }

  lemma RaisedKeepsCovered(e: Engine, e': Engine, b: nat)
    requires Raised(e, e', b) && Covered(e)
    ensures Covered(e')
  {
    forall u: nat ensures CoveredCell(e', u) {
      if e'.Live(u) { RaisedCell(e, e', b, u); }
    }
  }

  lemma RaisedCell(e: Engine, e': Engine, b: nat, u: nat)
    requires Raised(e, e', b) && Covered(e) && e.Live(u)
    ensures Reachable(e', u) || Unborn(e', u) || Pending(e', u)
  {
    var g, g' := e.G(), e'.G();
    assert CoveredCell(e, u);
    if Reachable(e, u) {
      var r: nat :| Rooted(e, r) && Reach(g, r, u);
      ReachMonotone(g, g', r, u);
      ReachableVia(e', r, u);
    } else if Pending(e, u) {
      var m: nat :| Candidate(e, m) && Reach(g, m, u);
      ReachMonotone(g, g', m, u);
      if m == b {
        var r: nat :| Rooted(e', r) && Reach(g', r, b);
        ReachTrans(g', r, b, u);
        ReachableVia(e', r, u);
      } else {
        assert SameCounts(e.tab[m], e'.tab[m]);
        PendingVia(e', m, u);
      }
    } else if u != b {
      assert SameCounts(e.tab[u], e'.tab[u]);
      assert e'.tab[u] == EMPTY_ROW;
    }
  }

  // ---- every message --------------------------------------------------------------------------

  /** The mutator's side of the bargain: a root removal never takes a positive count below zero,
      and an edge is only stored into a cell that some root reaches. */
  ghost predicate Disciplined(e: Engine, m: Msg)
    requires e.Sized()
  {
    && !PartialUnderflow(e, m)
    && (m.RootAdd? ==> m.count > 0)
    && (m.EdgeAdd? && Valid(e.pool, m.a) && Valid(e.pool, m.b) ==> Reachable(e, m.a.index))
  }

  lemma ProcessKeepsCovered(e: Engine, m: Msg)
    requires Settled(e) && Covered(e) && Disciplined(e, m)
    ensures Settled(Process(e, m)) && Covered(Process(e, m))
  {
    ProcessKeepsSettled(e, m);
    match m
    case RootAdd(b, count) => RootAddKeepsCovered(e, b, count);
    case RootRemove(b, count) => RootRemoveKeepsCovered(e, b, count);
    case RootCheck(b) => RootCheckKeepsCovered(e, b);
    case EdgeAdd(a, b) => EdgeAddKeepsCovered(e, a, b);
    case EdgeRemove(a, b) => EdgeRemoveKeepsCovered(e, a, b);
    case Terminate =>
  }

  lemma SameOutsSameEdges(pool: seq<Slot>, tab: seq<Row>, tab': seq<Row>)
    requires |tab| == |tab'|
    requires forall i :: 0 <= i < |tab| ==> tab'[i].outs == tab[i].outs
    ensures Edges(pool, tab') == Edges(pool, tab)
  {
    forall x | x in Edges(pool, tab') ensures x in Edges(pool, tab) {}
    forall x | x in Edges(pool, tab) ensures x in Edges(pool, tab') {
      var u: nat, t :| u < |tab| && t in tab[u].outs && Valid(pool, t) && x == (u, t.index);
      assert t in tab'[u].outs;
    }
  }

  lemma RootAddRaises(e: Engine, i: nat, n: nat)
    requires Settled(e) && e.Live(i) && n > 0
    ensures Raised(e, AddRoot(e, i, n), i)
  {
    var e' := AddRoot(e, i, n);
    TotalsNonNegative(e, i);
    RootChangeKeepsTable(e, i, e.tab[i].root + n);
    SameOutsSameEdges(e.pool, e.tab, e'.tab);
    assert Reachable(e', i) by {
      ReachRefl(e'.G(), i);
      ReachableVia(e', i, i);
    }
  }

  lemma RootAddKeepsCovered(e: Engine, b: Handle, count: nat)
    requires Settled(e) && Covered(e) && count > 0
    ensures Covered(Process(e, RootAdd(b, count)))
  {
    if Valid(e.pool, b) {
      RootAddRaises(e, b.index, count);
      RaisedKeepsCovered(e, AddRoot(e, b.index, count), b.index);
    }
  }

  lemma RootRemoveKeepsCovered(e: Engine, b: Handle, count: nat)
    requires Settled(e) && Covered(e) && !PartialUnderflow(e, RootRemove(b, count))
    ensures Covered(Process(e, RootRemove(b, count)))
  {
    if Valid(e.pool, b) {
      var r := e.tab[b.index].root;
      TotalsNonNegative(e, b.index);
      if r < count {
        NothingRemoved(e, b, count);
      } else {
        LowerRoot(e, b.index, r - count);
      }
    }
  }

  lemma LowerRoot(e: Engine, i: nat, r: nat)
    requires e.Sized() && TableOk(e.pool, e.tab) && Covered(e) && e.Live(i) && r <= e.tab[i].root
    ensures Reconsider(SetRoot(e, i, r), i).Sized() && Covered(Reconsider(SetRoot(e, i, r), i))
  {
    RootRemoveLowers(e, i, r);
    LoweredKeepsCovered(e, Reconsider(SetRoot(e, i, r), i), i);
  }

  lemma RootRemoveLowers(e: Engine, i: nat, r: nat)
    requires e.Sized() && TableOk(e.pool, e.tab) && e.Live(i) && r <= e.tab[i].root
    ensures Lowered(e, Reconsider(SetRoot(e, i, r), i), i)
  {
    var e1 := SetRoot(e, i, r);
    RootChangeKeepsTable(e, i, r);
    SameOutsSameEdges(e.pool, e.tab, e1.tab);
    TotalsNonNegative(e1, i);
    ReconsiderFrame(e1, i);
  }

  lemma RootCheckKeepsCovered(e: Engine, b: Handle)
    requires Settled(e) && Covered(e)
    ensures Covered(Process(e, RootCheck(b)))
  {
    if Valid(e.pool, b) {
      LoweredKeepsCovered(e, Reconsider(e, b.index), b.index);
    }
  }

  lemma EdgeAddGraph(e: Engine, a: Handle, b: Handle)
    requires e.Sized() && Valid(e.pool, a) && Valid(e.pool, b)
    ensures Process(e, EdgeAdd(a, b)).G() == e.G() + {(a.index, b.index)}
  {
    var e' := Process(e, EdgeAdd(a, b));
    assert e'.tab[a.index].outs == [b] + e.tab[a.index].outs;
    assert b in e'.tab[a.index].outs;
    forall x | x in e.G()
      ensures x in e'.G()
    {
      var u: nat, t :| u < |e.tab| && t in e.tab[u].outs && Valid(e.pool, t) && x == (u, t.index);
      assert t in e'.tab[u].outs;
    }
    forall x | x in e'.G()
      ensures x in e.G() + {(a.index, b.index)}
    {
      var u: nat, t :| u < |e.tab| && t in e'.tab[u].outs && Valid(e.pool, t) && x == (u, t.index);
      assert t in e.tab[u].outs || (u == a.index && t == b);
    }
  }

  lemma EdgeAddReaches(e: Engine, a: Handle, b: Handle)
    requires e.Sized() && Valid(e.pool, a) && Valid(e.pool, b) && Reachable(e, a.index)
    ensures Process(e, EdgeAdd(a, b)).Sized() && Reachable(Process(e, EdgeAdd(a, b)), b.index)
  {
    var e' := Process(e, EdgeAdd(a, b));
    EdgeAddGraph(e, a, b);
    var r: nat :| Rooted(e, r) && Reach(e.G(), r, a.index);
    ReachMonotone(e.G(), e'.G(), r, a.index);
    ReachEdge(e'.G(), a.index, b.index);
    ReachTrans(e'.G(), r, a.index, b.index);
    ReachableVia(e', r, b.index);
  }

  lemma EdgeAddCounts(e: Engine, a: Handle, b: Handle)
    requires e.Sized() && Valid(e.pool, a) && Valid(e.pool, b)
    ensures var e' := Process(e, EdgeAdd(a, b));
      && e'.Sized() && e'.pool == e.pool
      && e'.zeroMark == e.zeroMark && e'.suspectMark == e.suspectMark
      && (forall i :: 0 <= i < |e.tab| && i != b.index ==> SameCounts(e.tab[i], e'.tab[i]))
      && (forall i :: 0 <= i < |e.tab| ==> e'.tab[i].root == e.tab[i].root)
      && (forall i :: 0 <= i < |e.tab| && i != a.index ==> e'.tab[i].outs == e.tab[i].outs)
  {
  }

  lemma EdgeAddKeepsCovered(e: Engine, a: Handle, b: Handle)
    requires Settled(e) && Covered(e)
    requires Valid(e.pool, a) && Valid(e.pool, b) ==> Reachable(e, a.index)
    ensures Covered(Process(e, EdgeAdd(a, b)))
  {
    if Valid(e.pool, a) && Valid(e.pool, b) {
      EdgeAddRaises(e, a, b);
      RaisedKeepsCovered(e, Process(e, EdgeAdd(a, b)), b.index);
    }
  }

  lemma EdgeAddRaises(e: Engine, a: Handle, b: Handle)
    requires Settled(e) && Valid(e.pool, a) && Valid(e.pool, b) && Reachable(e, a.index)
    ensures Raised(e, Process(e, EdgeAdd(a, b)), b.index)
  {
    var e' := Process(e, EdgeAdd(a, b));
    EdgeAddCounts(e, a, b);
    assert TableOk(e'.pool, e'.tab) by { EdgeAddKeepsTable(e, a, b); }
    assert e.G() <= e'.G() by { EdgeAddGraph(e, a, b); }
    assert Reachable(e', b.index) by { EdgeAddReaches(e, a, b); }
    assert !Unborn(e, a.index) by { ReachableNotUnborn(e, a.index); }
  }

  lemma ReachableNotUnborn(e: Engine, u: nat)
    requires e.Sized() && TableOk(e.pool, e.tab) && Reachable(e, u)
    ensures !Unborn(e, u)
  {
    var r: nat :| Rooted(e, r) && Reach(e.G(), r, u);
    if r != u {
      var w := ReachLastEdge(e.G(), r, u);
      EdgeEnds(e.pool, e.tab, w, u);
    }
  }

  lemma EdgeRemoveKeepsCovered(e: Engine, a: Handle, b: Handle)
    requires Settled(e) && Covered(e)
    ensures Covered(Process(e, EdgeRemove(a, b)))
  {
    if Valid(e.pool, a) && b in e.tab[a.index].outs {
      EdgeRemoveShape(e, a, b);
      UnlinkedLowers(e, a.index, b);
      LoweredKeepsCovered(e, Reconsider(Unlinked(e, a.index, b), b.index), b.index);
    } else {
      assert Process(e, EdgeRemove(a, b)) == e;
    }
  }

  lemma UnlinkedLowers(e: Engine, a: nat, b: Handle)
    requires e.Sized() && TableOk(e.pool, e.tab) && e.Live(a) && Valid(e.pool, b)
    requires b in e.tab[a].outs && e.tab[b.index].edge > 0
    ensures Lowered(e, Reconsider(Unlinked(e, a, b), b.index), b.index)
  {
    var e1 := Unlinked(e, a, b);
    UnlinkedKeepsTable(e, a, b);
    UnlinkedGraph(e, a, b);
    TotalsNonNegative(e1, b.index);
    ReconsiderFrame(e1, b.index);
  }

  lemma UnlinkedGraph(e: Engine, a: nat, b: Handle)
    requires e.Sized() && a < |e.tab| && Valid(e.pool, b) && b in e.tab[a].outs
    requires e.tab[b.index].edge > 0
    ensures Unlinked(e, a, b).G() <= e.G()
    ensures forall x :: x in e.G() && x.1 != b.index ==> x in Unlinked(e, a, b).G()
    ensures forall i :: 0 <= i < |e.tab| && e.tab[i].outs == [] ==> Unlinked(e, a, b).tab[i].outs == []
    ensures forall i :: 0 <= i < |e.tab| && i != b.index ==>
              SameCounts(e.tab[i], Unlinked(e, a, b).tab[i])
    ensures Unlinked(e, a, b).TotalOf(b.index) == e.TotalOf(b.index) - 1
  {
    var outs := e.tab[a].outs;
    var k := FirstIndex(outs, b);
    var e1 := Unlinked(e, a, b);
    assert e1.tab[a].outs == Erase(outs, k);
    EraseMultiset(outs, k);
    forall x | x in e1.G() ensures x in e.G() {
      var u: nat, t :| u < |e.tab| && t in e1.tab[u].outs && Valid(e.pool, t) && x == (u, t.index);
      assert t in e.tab[u].outs;
    }
    forall x | x in e.G() && x.1 != b.index ensures x in e1.G() {
      var u: nat, t :| u < |e.tab| && t in e.tab[u].outs && Valid(e.pool, t) && x == (u, t.index);
      if u == a {
        assert t in multiset(outs);
        assert t in multiset(Erase(outs, k));
      }
      assert t in e1.tab[u].outs;
    }
  }

  lemma ActivateKeepsCovered(e: Engine, i: nat)
    requires Settled(e) && Covered(e) && i < |e.tab| && !e.Live(i)
    ensures Settled(Activate(e, i)) && Covered(Activate(e, i))
  {
    ActivateKeepsSettled(e, i);
    var e' := Activate(e, i);
    forall u: nat ensures CoveredCell(e', u) {
      assert CoveredCell(e, u);
      if u != i && e.Live(u) {
        if Reachable(e, u) {
          var r: nat :| Rooted(e, r) && Reach(e.G(), r, u);
          ReachableVia(e', r, u);
        } else if Pending(e, u) {
          var m: nat :| Candidate(e, m) && Reach(e.G(), m, u);
          PendingVia(e', m, u);
        }
      }
    }
  }
}
