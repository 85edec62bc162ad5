/** The reference table as a mirror of the logs applied so far, in whatever order the producers'
    queues were drained. */
module Mirror {
  import opened Graphs
  import opened Cells
  import opened EngineState
  import opened Coverage
  import opened Logs

  ghost predicate Mirrors(e: Engine, ls: seq<seq<Msg>>) {
    && e.Sized()
    && (forall i: nat :: i < |e.tab| && e.pool[i].live ==> e.tab[i].root == SumRoot(ls, Current(e.pool, i)))
    && (forall i: nat, j: nat :: i < |e.tab| && j < |e.tab| ==> SameRecords(e, ls, i, j))
  }

  ghost predicate SameRecords(e: Engine, ls: seq<seq<Msg>>, i: nat, j: nat)
    requires e.Sized() && i < |e.tab| && j < |e.tab|
  {
    e.pool[i].live && e.pool[j].live ==>
      multiset(e.tab[i].outs)[Current(e.pool, j)] == SumEdge(ls, Current(e.pool, i), Current(e.pool, j))
  }

  /** A mirror has the described graph, so reachable and wanted are the same. */
  lemma MirrorGraph(e: Engine, ls: seq<seq<Msg>>)
    requires TableOk(e.pool, e.tab) && Mirrors(e, ls)
    ensures e.G() == LogGraph(e.pool, ls)
    ensures forall u: nat :: Reachable(e, u) <==> Wanted(e.pool, ls, u)
  {
    forall x ensures x in e.G() <==> x in LogGraph(e.pool, ls) {
      MirrorEdge(e, ls, x.0, x.1);
    }
    assert e.G() == LogGraph(e.pool, ls);
    forall i: nat ensures Rooted(e, i) <==> Held(e.pool, ls, i) {}
    forall u: nat ensures Reachable(e, u) <==> Wanted(e.pool, ls, u) {
      if Reachable(e, u) {
        var r: nat :| Rooted(e, r) && Reach(e.G(), r, u);
        WantedVia(e.pool, ls, r, u);
      }
      if Wanted(e.pool, ls, u) {
        var r: nat :| Held(e.pool, ls, r) && Reach(LogGraph(e.pool, ls), r, u);
        ReachableVia(e, r, u);
      }
    }
  }

  lemma MirrorEdge(e: Engine, ls: seq<seq<Msg>>, i: nat, j: nat)
    requires TableOk(e.pool, e.tab) && Mirrors(e, ls)
    ensures (i, j) in e.G() <==> (i, j) in LogGraph(e.pool, ls)
  {
    if (i, j) in e.G() { EdgeEnds(e.pool, e.tab, i, j); }
    if i < |e.tab| && j < |e.tab| {
      EdgeIff(e.pool, e.tab, i, j);
      assert SameRecords(e, ls, i, j);
      var h := Current(e.pool, j);
      assert h in e.tab[i].outs <==> multiset(e.tab[i].outs)[h] > 0 by {
        assert h in e.tab[i].outs <==> h in multiset(e.tab[i].outs);
      }
    }
  }

  /** Every handle of the message names a live cell. */
  ghost predicate AllValid(pool: seq<Slot>, m: Msg) {
    forall h :: Mentions(m, h) ==> Valid(pool, h)
  }

  /** The record an edge removal names is in the table. */
  ghost predicate RecordThere(ls: seq<seq<Msg>>, m: Msg) {
    m.EdgeRemove? ==> SumEdge(ls, m.a, m.b) > 0
  }

  /** Applying a producer's next message to the mirror gives the mirror of the longer logs, without
      underflow. */
  lemma MirrorProcess(e: Engine, ls: seq<seq<Msg>>, p: nat, m: Msg)
    requires Settled(e) && Mirrors(e, ls) && OwnLogs(ls)
    requires p < |ls| && OwnMsg(ls[p], m) && AllValid(e.pool, m) && RecordThere(ls, m)
    ensures Settled(Process(e, m))
    ensures Process(e, m).pool == e.pool
    ensures Mirrors(Process(e, m), ls[p := ls[p] + [m]])
  {
    MirrorNoUnderflow(e, ls, p, m);
    ProcessKeepsSettled(e, m);
    ProcessKeepsTable(e, m);
    var e', ls' := Process(e, m), ls[p := ls[p] + [m]];
    forall i: nat | i < |e'.tab| && e'.pool[i].live ensures e'.tab[i].root == SumRoot(ls', Current(e'.pool, i)) {
      SumRootAppend(ls, p, m, Current(e.pool, i));
      ProcessRoots(e, ls, p, m, i);
    }
    forall i: nat, j: nat | i < |e'.tab| && j < |e'.tab| ensures SameRecords(e', ls', i, j) {
      if e.pool[i].live && e.pool[j].live {
        assert SameRecords(e, ls, i, j);
        SumEdgeAppend(ls, p, m, Current(e.pool, i), Current(e.pool, j));
        ProcessRecords(e, ls, p, m, i, j);
      }
    }
  }

  lemma MirrorNoUnderflow(e: Engine, ls: seq<seq<Msg>>, p: nat, m: Msg)
    requires e.Sized() && Mirrors(e, ls) && OwnLogs(ls)
    requires p < |ls| && OwnMsg(ls[p], m) && AllValid(e.pool, m)
    ensures !PartialUnderflow(e, m) && (m.RootAdd? ==> m.count > 0)
  {
    if m.RootRemove? {
      assert Mentions(m, m.b);
      ShareRoot(ls, p, m.b);
    }
  }

  /** If it stores only into reachable cells, it keeps every unreachable cell covered. */
  lemma MirrorCovers(e: Engine, ls: seq<seq<Msg>>, p: nat, m: Msg)
    requires Settled(e) && Covered(e) && Mirrors(e, ls) && OwnLogs(ls)
    requires p < |ls| && OwnMsg(ls[p], m) && AllValid(e.pool, m)
    requires m.EdgeAdd? ==> Reachable(e, m.a.index)
    ensures Disciplined(e, m) && Process(e, m).Sized() && Covered(Process(e, m))
  {
    MirrorNoUnderflow(e, ls, p, m);
    ProcessKeepsCovered(e, m);
  }

  lemma ProcessRoots(e: Engine, ls: seq<seq<Msg>>, p: nat, m: Msg, i: nat)
    requires Settled(e) && Mirrors(e, ls) && OwnLogs(ls)
    requires p < |ls| && OwnMsg(ls[p], m) && AllValid(e.pool, m) && RecordThere(ls, m)
    requires i < |e.tab| && e.pool[i].live
    ensures Process(e, m).Sized() && |Process(e, m).tab| == |e.tab|
    ensures Process(e, m).tab[i].root == e.tab[i].root + RootDelta(m, Current(e.pool, i))
  {
    ProcessKeepsTable(e, m);
    match m
    case RootAdd(b, c) => assert Mentions(m, b);
    case RootRemove(b, c) =>
      assert Mentions(m, b);
      ShareRoot(ls, p, b);
      RemovedRoots(e, b, c, i);
    case RootCheck(b) =>
      assert Mentions(m, b);
      ReconsiderFrame(e, b.index);
    case EdgeAdd(a, b) =>
      assert Mentions(m, a) && Mentions(m, b);
      EdgeAddCounts(e, a, b);
    case EdgeRemove(a, b) =>
      assert Mentions(m, a) && Mentions(m, b);
      RecordExists(e, ls, a, b);
      UnlinkedRoots(e, a, b, i);
    case Terminate =>
  }

  lemma RemovedRoots(e: Engine, b: Handle, c: nat, i: nat)
    requires e.Sized() && Valid(e.pool, b) && c <= e.tab[b.index].root && e.Live(i)
    ensures Process(e, RootRemove(b, c)).Sized() && |Process(e, RootRemove(b, c)).tab| == |e.tab|
    ensures Process(e, RootRemove(b, c)).tab[i].root == e.tab[i].root + RootDelta(RootRemove(b, c), Current(e.pool, i))
  {
    ReconsiderFrame(SetRoot(e, b.index, e.tab[b.index].root - c), b.index);
  }

  lemma UnlinkedRoots(e: Engine, a: Handle, b: Handle, i: nat)
    requires e.Sized() && TableOk(e.pool, e.tab) && Valid(e.pool, a) && b in e.tab[a.index].outs && e.Live(i)
    ensures Process(e, EdgeRemove(a, b)).Sized() && |Process(e, EdgeRemove(a, b)).tab| == |e.tab|
    ensures Process(e, EdgeRemove(a, b)).tab[i].root == e.tab[i].root
  {
    EdgeRemoveShape(e, a, b);
    ReconsiderFrame(Unlinked(e, a.index, b), b.index);
  }

  lemma RecordExists(e: Engine, ls: seq<seq<Msg>>, a: Handle, b: Handle)
    requires Mirrors(e, ls) && SumEdge(ls, a, b) > 0 && Valid(e.pool, a) && Valid(e.pool, b)
    ensures b in e.tab[a.index].outs
  {
    assert SameRecords(e, ls, a.index, b.index);
    assert b in multiset(e.tab[a.index].outs);
  }

  lemma ProcessRecords(e: Engine, ls: seq<seq<Msg>>, p: nat, m: Msg, i: nat, j: nat)
    requires Settled(e) && Mirrors(e, ls) && OwnLogs(ls)
    requires p < |ls| && OwnMsg(ls[p], m) && AllValid(e.pool, m) && RecordThere(ls, m)
    requires i < |e.tab| && j < |e.tab| && e.pool[i].live && e.pool[j].live
    ensures Process(e, m).Sized() && |Process(e, m).tab| == |e.tab|
    ensures multiset(Process(e, m).tab[i].outs)[Current(e.pool, j)] ==
            multiset(e.tab[i].outs)[Current(e.pool, j)] + EdgeDelta(m, Current(e.pool, i), Current(e.pool, j))
  {
    ProcessKeepsTable(e, m);
    match m
    case RootAdd(b, c) =>
    case RootRemove(b, c) => ReconsiderOuts(e, m, i);
    case RootCheck(b) => ReconsiderOuts(e, m, i);
    case EdgeAdd(a, b) =>
      assert Mentions(m, a) && Mentions(m, b);
      AddedRecords(e, a, b, i, Current(e.pool, j));
    case EdgeRemove(a, b) =>
      assert Mentions(m, a) && Mentions(m, b);
      RecordExists(e, ls, a, b);
      RemovedRecords(e, a, b, i, Current(e.pool, j));
    case Terminate =>
  }

  lemma AddedRecords(e: Engine, a: Handle, b: Handle, i: nat, t: Handle)
    requires e.Sized() && Valid(e.pool, a) && Valid(e.pool, b) && e.Live(i)
    ensures Process(e, EdgeAdd(a, b)).Sized() && |Process(e, EdgeAdd(a, b)).tab| == |e.tab|
    ensures multiset(Process(e, EdgeAdd(a, b)).tab[i].outs)[t] ==
            multiset(e.tab[i].outs)[t] + EdgeDelta(EdgeAdd(a, b), Current(e.pool, i), t)
  {
    EdgeAddCounts(e, a, b);
    assert Process(e, EdgeAdd(a, b)).tab[a.index].outs == [b] + e.tab[a.index].outs;
    assert multiset([b] + e.tab[a.index].outs) == multiset{b} + multiset(e.tab[a.index].outs);
  }

  lemma RemovedRecords(e: Engine, a: Handle, b: Handle, i: nat, t: Handle)
    requires e.Sized() && TableOk(e.pool, e.tab) && Valid(e.pool, a) && Valid(e.pool, b) && e.Live(i)
    requires b in e.tab[a.index].outs
    ensures Process(e, EdgeRemove(a, b)).Sized() && |Process(e, EdgeRemove(a, b)).tab| == |e.tab|
    ensures multiset(Process(e, EdgeRemove(a, b)).tab[i].outs)[t] ==
            multiset(e.tab[i].outs)[t] + EdgeDelta(EdgeRemove(a, b), Current(e.pool, i), t)
  {
    EdgeRemoveShape(e, a, b);
    UnlinkedRecords(e, a.index, b, i);
  }

  lemma ReconsiderOuts(e: Engine, m: Msg, i: nat)
    requires e.Sized() && i < |e.tab| && (m.RootRemove? || m.RootCheck?)
    ensures Process(e, m).Sized() && |Process(e, m).tab| == |e.tab|
    ensures Process(e, m).tab[i].outs == e.tab[i].outs
  {
  }

  lemma UnlinkedRecords(e: Engine, a: nat, b: Handle, i: nat)
    requires e.Sized() && a < |e.tab| && b.index < |e.tab| && i < |e.tab| && b in e.tab[a].outs
    ensures Reconsider(Unlinked(e, a, b), b.index).Sized()
    ensures |Reconsider(Unlinked(e, a, b), b.index).tab| == |e.tab|
    ensures i != a ==> Reconsider(Unlinked(e, a, b), b.index).tab[i].outs == e.tab[i].outs
    ensures multiset(e.tab[a].outs) == multiset(Reconsider(Unlinked(e, a, b), b.index).tab[a].outs) + multiset{b}
  {
    ReconsiderFrame(Unlinked(e, a, b), b.index);
    EraseMultiset(e.tab[a].outs, FirstIndex(e.tab[a].outs, b));
  }
}
