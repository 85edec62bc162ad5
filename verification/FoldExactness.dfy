/** When a sweep after a folded batch is exact: what a producer can see beforehand is enough, and
    exactly when it holds at all. */
module FoldExactness {
  import opened Graphs
  import opened Cells
  import opened EngineState
  import opened Coverage
  import opened CollectionEngines
  import opened Exactness
  import opened Logs
  import opened Leaks
  import opened Folding
  import opened FoldMeaning

  // ---- cells that count as marked -------------------------------------------------------------

  /** `e` with every cell of `s` taken for a candidate. */
  ghost function MarkAll(e: Engine, s: set<nat>): (e': Engine)
    requires e.Sized()
    ensures e'.Sized() && e'.pool == e.pool && e'.tab == e.tab && e'.G() == e.G()
    ensures forall i :: 0 <= i < |e.tab| ==> (e'.zeroMark[i] <==> e.zeroMark[i] || i in s)
    ensures forall i :: 0 <= i < |e.tab| ==> (e'.suspectMark[i] <==> e.suspectMark[i] || i in s)
  {
    e.(zeroMark := seq(|e.tab|, i requires 0 <= i < |e.tab| && e.Sized() => e.zeroMark[i] || i in s),
       suspectMark := seq(|e.tab|, i requires 0 <= i < |e.tab| && e.Sized() => e.suspectMark[i] || i in s))
  }

  lemma MarkAllCells(e: Engine, s: set<nat>)
    requires e.Sized()
    ensures forall i: nat :: Candidate(MarkAll(e, s), i) <==> Candidate(e, i) || (i in s && e.Live(i))
    ensures forall i: nat :: Rooted(MarkAll(e, s), i) <==> Rooted(e, i)
    ensures forall i: nat :: Unborn(MarkAll(e, s), i) <==> Unborn(e, i) && i !in s
  {
  }

  lemma MarkAllReachable(e: Engine, s: set<nat>, u: nat)
    requires e.Sized()
    ensures Reachable(MarkAll(e, s), u) <==> Reachable(e, u)
  {
    MarkAllCells(e, s);
    if r: nat :| Rooted(e, r) && Reach(e.G(), r, u) { ReachableVia(MarkAll(e, s), r, u); }
    if r: nat :| Rooted(MarkAll(e, s), r) && Reach(e.G(), r, u) { ReachableVia(e, r, u); }
  }

  /** If everything is covered once `s` counts as marked, and `s` itself is covered, then everything
      is. */
  lemma MarkAllCovered(e: Engine, s: set<nat>)
    requires e.Sized() && TableOk(e.pool, e.tab) && Covered(MarkAll(e, s))
    requires forall a: nat :: a in s ==> CoveredCell(e, a)
    ensures Covered(e)
  {
    var e' := MarkAll(e, s);
    MarkAllCells(e, s);
    forall u: nat ensures CoveredCell(e, u) {
      assert CoveredCell(e', u);
      MarkAllReachable(e, s, u);
      if m: nat :| e.Live(u) && Candidate(e', m) && Reach(e.G(), m, u) {
        if Candidate(e, m) {
          PendingVia(e, m, u);
        } else {
          assert CoveredCell(e, m);
          BelowCovered(e, m, u);
        }
      }
    }
  }

  lemma MarkAllLowered(e: Engine, e': Engine, b: nat, s: set<nat>)
    requires Lowered(e, e', b)
    ensures Lowered(MarkAll(e, s), MarkAll(e', s), b)
  {
  }

  lemma MarkedLowered(e: Engine, e': Engine, b: nat, s: set<nat>)
    requires Lowered(e, e', b) && Covered(MarkAll(e, s))
    ensures Covered(MarkAll(e', s))
  {
    MarkAllLowered(e, e', b, s);
    LoweredKeepsCovered(MarkAll(e, s), MarkAll(e', s), b);
  }

  lemma MarkAllRaised(e: Engine, e': Engine, b: nat, s: set<nat>)
    requires Raised(e, e', b)
    ensures Raised(MarkAll(e, s), MarkAll(e', s), b)
  {
    MarkAllReachable(e', s, b);
    MarkAllCells(e, s);
    var f, f' := MarkAll(e, s), MarkAll(e', s);
    assert f'.zeroMark == f.zeroMark && f'.suspectMark == f.suspectMark;
  }

  /** A store keeps everything covered if its source counts as marked. */
  lemma StoreMarked(e: Engine, a: Handle, b: Handle, s: set<nat>)
    requires e.Sized() && TableOk(e.pool, e.tab) && Valid(e.pool, a) && Valid(e.pool, b) && Covered(MarkAll(e, s))
    ensures Process(e, EdgeAdd(a, b)).Sized() && Covered(MarkAll(Process(e, EdgeAdd(a, b)), s + {a.index}))
  {
    var e' := Process(e, EdgeAdd(a, b));
    EdgeAddCounts(e, a, b);
    EdgeAddGraph(e, a, b);
    MarkAllCells(e, s);
    MarkAllCells(e', s + {a.index});
    forall u: nat ensures CoveredCell(MarkAll(e', s + {a.index}), u) {
      if e.Live(u) { StoreMarkedCell(e, a, b, s, u); }
    }
  }

  lemma StoreMarkedCell(e: Engine, a: Handle, b: Handle, s: set<nat>, u: nat)
    requires e.Sized() && TableOk(e.pool, e.tab) && Valid(e.pool, a) && Valid(e.pool, b) && Covered(MarkAll(e, s)) && e.Live(u)
    ensures Process(e, EdgeAdd(a, b)).Sized() && CoveredCell(MarkAll(Process(e, EdgeAdd(a, b)), s + {a.index}), u)
  {
    var e' := Process(e, EdgeAdd(a, b));
    var f, f' := MarkAll(e, s), MarkAll(e', s + {a.index});
    var g' := e'.G();
    EdgeAddCounts(e, a, b);
    EdgeAddGraph(e, a, b);
    MarkAllCells(e, s);
    MarkAllCells(e', s + {a.index});
    assert CoveredCell(f, u);
    ReachEdge(g', a.index, b.index);
    ReachRefl(g', u);
    if Reachable(f, u) {
      var r: nat :| Rooted(f, r) && Reach(e.G(), r, u);
      ReachMonotone(e.G(), g', r, u);
      ReachableVia(f', r, u);
    } else if Unborn(f, u) {
      if u == a.index || u == b.index {
        PendingVia(f', a.index, u);
      } else {
        assert SameCounts(e.tab[u], e'.tab[u]);
      }
    } else {
      var m: nat :| Candidate(f, m) && Reach(e.G(), m, u);
      StoreMarkedBelow(e, a, b, s, m, u);
    }
  }

  lemma StoreMarkedBelow(e: Engine, a: Handle, b: Handle, s: set<nat>, m: nat, u: nat)
    requires e.Sized() && TableOk(e.pool, e.tab) && Valid(e.pool, a) && Valid(e.pool, b)
    requires Candidate(MarkAll(e, s), m) && Reach(e.G(), m, u)
    ensures Process(e, EdgeAdd(a, b)).Sized() && Pending(MarkAll(Process(e, EdgeAdd(a, b)), s + {a.index}), u)
  {
    var e' := Process(e, EdgeAdd(a, b));
    var f' := MarkAll(e', s + {a.index});
    EdgeAddCounts(e, a, b);
    EdgeAddGraph(e, a, b);
    MarkAllCells(e, s);
    MarkAllCells(e', s + {a.index});
    ReachMonotone(e.G(), e'.G(), m, u);
    if m == b.index {
      ReachEdge(e'.G(), a.index, b.index);
      ReachTrans(e'.G(), a.index, m, u);
      PendingVia(f', a.index, u);
    } else {
      assert SameCounts(e.tab[m], e'.tab[m]);
      PendingVia(f', m, u);
    }
  }

  // ---- a whole stream -------------------------------------------------------------------------

  /** Message `k` stores into slot `i`. */
  ghost predicate StoresInto(pool: seq<Slot>, ms: seq<Msg>, k: nat, i: nat)
    requires k < |ms|
  {
    ms[k].EdgeAdd? && Valid(pool, ms[k].a) && Valid(pool, ms[k].b) && ms[k].a.index == i
  }

  ghost function Sources(pool: seq<Slot>, ms: seq<Msg>, n: nat): (s: set<nat>)
    requires n <= |ms|
    ensures forall i :: i in s <==> exists k: nat :: k < n && StoresInto(pool, ms, k, i)
  {
    if n == 0 then {}
    else
      var s := Sources(pool, ms, n - 1);
      var m := ms[n - 1];
      if m.EdgeAdd? && Valid(pool, m.a) && Valid(pool, m.b) then
        assert StoresInto(pool, ms, n - 1, m.a.index);
        s + {m.a.index}
      else s
  }

  lemma MarkedStep(e: Engine, m: Msg, s: set<nat>)
    requires Settled(e) && Covered(MarkAll(e, s)) && !PartialUnderflow(e, m) && (m.RootAdd? ==> m.count > 0)
    requires !(m.EdgeAdd? && Valid(e.pool, m.a) && Valid(e.pool, m.b))
    ensures Process(e, m).Sized() && Covered(MarkAll(Process(e, m), s))
  {
    ProcessKeepsTable(e, m);
    match m
    case RootAdd(b, count) =>
      if Valid(e.pool, b) {
        RootAddRaises(e, b.index, count);
        MarkAllRaised(e, AddRoot(e, b.index, count), b.index, s);
        RaisedKeepsCovered(MarkAll(e, s), MarkAll(AddRoot(e, b.index, count), s), b.index);
      }
    case RootRemove(b, count) => MarkedRemove(e, b, count, s);
    case RootCheck(b) => MarkedCheck(e, b, s);
    case EdgeAdd(a, b) =>
    case EdgeRemove(a, b) => MarkedUnlink(e, a, b, s);
    case Terminate =>
  }

  lemma MarkedCheck(e: Engine, b: Handle, s: set<nat>)
    requires Settled(e) && Covered(MarkAll(e, s))
    ensures Process(e, RootCheck(b)).Sized() && Covered(MarkAll(Process(e, RootCheck(b)), s))
  {
    if Valid(e.pool, b) {
      var e' := Reconsider(e, b.index);
      TotalsNonNegative(e, b.index);
      MarkedLowered(e, e', b.index, s);
    }
  }

  lemma MarkedUnlink(e: Engine, a: Handle, b: Handle, s: set<nat>)
    requires Settled(e) && Covered(MarkAll(e, s))
    ensures Process(e, EdgeRemove(a, b)).Sized() && Covered(MarkAll(Process(e, EdgeRemove(a, b)), s))
  {
    if Valid(e.pool, a) && b in e.tab[a.index].outs {
      EdgeRemoveShape(e, a, b);
      UnlinkedLowers(e, a.index, b);
      var e' := Reconsider(Unlinked(e, a.index, b), b.index);
      MarkedLowered(e, e', b.index, s);
    } else {
      assert Process(e, EdgeRemove(a, b)) == e;
    }
  }

  lemma MarkedRemove(e: Engine, b: Handle, count: nat, s: set<nat>)
    requires Settled(e) && Covered(MarkAll(e, s)) && !PartialUnderflow(e, RootRemove(b, count))
    ensures Process(e, RootRemove(b, count)).Sized() && Covered(MarkAll(Process(e, RootRemove(b, count)), s))
  {
    if Valid(e.pool, b) {
      var r := e.tab[b.index].root;
      TotalsNonNegative(e, b.index);
      if r < count {
        NothingRemoved(e, b, count);
      } else {
        MarkedLower(e, b.index, r - count, s);
      }
    }
  }

  lemma MarkedLower(e: Engine, i: nat, r: nat, s: set<nat>)
    requires e.Sized() && TableOk(e.pool, e.tab) && e.Live(i) && r <= e.tab[i].root && Covered(MarkAll(e, s))
    ensures Reconsider(SetRoot(e, i, r), i).Sized() && Covered(MarkAll(Reconsider(SetRoot(e, i, r), i), s))
  {
    RootRemoveLowers(e, i, r);
    MarkedLowered(e, Reconsider(SetRoot(e, i, r), i), i, s);
  }

  lemma {:induction false} MarkedStream(e: Engine, ms: seq<Msg>, n: nat)
    requires Settled(e) && Covered(e) && NoUnderflow(e, ms) && n <= |ms|
    ensures Covered(MarkAll(ApplyAll(e, ms[..n]), Sources(e.pool, ms, n)))
  {
    if n == 0 {
      MarkedFirst(e, ms, n);
    } else {
      MarkedStream(e, ms, n - 1);
      MarkedNext(e, ms, n - 1);
    }
  }

  lemma MarkedFirst(e: Engine, ms: seq<Msg>, n: nat)
    requires e.Sized() && TableOk(e.pool, e.tab) && Covered(e) && n == 0
    ensures Covered(MarkAll(ApplyAll(e, ms[..n]), Sources(e.pool, ms, n)))
  {
    NoneApplied(e, ms[..n]);
    NoneMarked(e);
  }

  lemma NoneMarked(e: Engine)
    requires e.Sized() && Covered(e)
    ensures Covered(MarkAll(e, {}))
  {
    MarkAllCells(e, {});
    forall u: nat ensures CoveredCell(MarkAll(e, {}), u) {
      assert CoveredCell(e, u);
      MarkAllReachable(e, {}, u);
      if m: nat :| Candidate(e, m) && Reach(e.G(), m, u) { PendingVia(MarkAll(e, {}), m, u); }
    }
  }

  lemma MarkedNext(e: Engine, ms: seq<Msg>, n: nat)
    requires Settled(e) && NoUnderflow(e, ms) && n < |ms| && Covered(MarkAll(ApplyAll(e, ms[..n]), Sources(e.pool, ms, n)))
    ensures Covered(MarkAll(ApplyAll(e, ms[..n + 1]), Sources(e.pool, ms, n + 1)))
  {
    StreamSettled(e, ms, n);
    assert ms[..n + 1][..n] == ms[..n];
    MarkedOne(ApplyAll(e, ms[..n]), ms[n], Sources(e.pool, ms, n));
  }

  lemma MarkedOne(e: Engine, m: Msg, s: set<nat>)
    requires Settled(e) && Covered(MarkAll(e, s)) && !PartialUnderflow(e, m) && (m.RootAdd? ==> m.count > 0)
    ensures Process(e, m).Sized()
    ensures Covered(MarkAll(Process(e, m), if m.EdgeAdd? && Valid(e.pool, m.a) && Valid(e.pool, m.b) then s + {m.a.index} else s))
  {
    if m.EdgeAdd? && Valid(e.pool, m.a) && Valid(e.pool, m.b) {
      StoreMarked(e, m.a, m.b, s);
    } else {
      MarkedStep(e, m, s);
    }
  }

  /** At the end of a stream every unreachable cell is covered if and only if the cells it stored
      into are. */
  lemma StreamEndCoveredIff(e: Engine, ms: seq<Msg>)
    requires Settled(e) && Covered(e) && NoUnderflow(e, ms)
    ensures Covered(ApplyAll(e, ms)) <==>
            forall k: nat, i: nat :: k < |ms| && StoresInto(e.pool, ms, k, i) ==> CoveredCell(ApplyAll(e, ms), i)
  {
    var end := ApplyAll(e, ms);
    MarkedStream(e, ms, |ms|);
    assert ms[..|ms|] == ms;
    if forall k: nat, i: nat :: k < |ms| && StoresInto(e.pool, ms, k, i) ==> CoveredCell(end, i) {
      forall a: nat | a in Sources(e.pool, ms, |ms|) ensures CoveredCell(end, a) {
        var k: nat :| k < |ms| && StoresInto(e.pool, ms, k, a);
      }
      MarkAllCovered(end, Sources(e.pool, ms, |ms|));
    }
  }

  // ---- which marks a stream leaves ------------------------------------------------------------

  /** A message that re-evaluates slot `i`, judged by the table it finds. */
  ghost predicate Reviews(pool: seq<Slot>, tab: seq<Row>, m: Msg, i: nat)
    requires |pool| == |tab|
  {
    match m
    case RootRemove(b, c) => Valid(pool, b) && b.index == i && tab[i].root >= c
    case RootCheck(b) => Valid(pool, b) && b.index == i
    case EdgeRemove(a, b) => Valid(pool, a) && b in tab[a.index].outs && b.index == i
    case _ => false
  }

  /** Message `k` re-evaluates slot `i` and finds no reference left. */
  ghost predicate SeenDead(e: Engine, ms: seq<Msg>, i: nat, k: nat)
    requires e.Sized() && TableOk(e.pool, e.tab) && k < |ms| && i < |e.tab|
  {
    Reviews(e.pool, ApplyAll(e, ms[..k]).tab, ms[k], i) && ApplyAll(e, ms[..k + 1]).TotalOf(i) == 0
  }

  /** Message `k` re-evaluates slot `i` and finds references in and records out. */
  ghost predicate SeenSuspect(e: Engine, ms: seq<Msg>, i: nat, k: nat)
    requires e.Sized() && TableOk(e.pool, e.tab) && k < |ms| && i < |e.tab|
  {
    && Reviews(e.pool, ApplyAll(e, ms[..k]).tab, ms[k], i)
    && ApplyAll(e, ms[..k + 1]).TotalOf(i) != 0 && ApplyAll(e, ms[..k + 1]).tab[i].outs != []
  }

  lemma ReviewMarks(e: Engine, b: nat, i: nat)
    requires e.Sized() && b < |e.tab| && i < |e.tab|
    ensures var e' := Reconsider(e, b);
      && e'.Sized() && |e'.tab| == |e.tab|
      && (e'.zeroMark[i] <==> e.zeroMark[i] || (b == i && e'.TotalOf(i) == 0))
      && (e'.suspectMark[i] <==> e.suspectMark[i] || (b == i && e'.TotalOf(i) != 0 && e'.tab[i].outs != []))
  {
  }

  ghost predicate MarksFollow(e: Engine, m: Msg, e': Engine, i: nat)
    requires e.Sized() && e'.Sized() && |e'.tab| == |e.tab| && i < |e.tab|
  {
    && (e'.zeroMark[i] <==> e.zeroMark[i] || (Reviews(e.pool, e.tab, m, i) && e'.TotalOf(i) == 0))
    && (e'.suspectMark[i] <==> e.suspectMark[i] || (Reviews(e.pool, e.tab, m, i) && e'.TotalOf(i) != 0 && e'.tab[i].outs != []))
  }

  lemma MarksOfOne(e: Engine, m: Msg, i: nat)
    requires e.Sized() && TableOk(e.pool, e.tab) && i < |e.tab|
    ensures Process(e, m).Sized() && |Process(e, m).tab| == |e.tab|
    ensures MarksFollow(e, m, Process(e, m), i)
  {
    ProcessKeepsTable(e, m);
    match m
    case RootAdd(b, c) =>
    case RootRemove(b, c) =>
      if Valid(e.pool, b) && e.tab[b.index].root >= c {
        ReviewMarks(SetRoot(e, b.index, e.tab[b.index].root - c), b.index, i);
      }
    case RootCheck(b) => if Valid(e.pool, b) { ReviewMarks(e, b.index, i); }
    case EdgeAdd(a, b) => if Valid(e.pool, a) && Valid(e.pool, b) { EdgeAddCounts(e, a, b); }
    case EdgeRemove(a, b) => MarksOfRemove(e, a, b, i);
    case Terminate =>
  }

  lemma MarksOfRemove(e: Engine, a: Handle, b: Handle, i: nat)
    requires e.Sized() && TableOk(e.pool, e.tab) && i < |e.tab|
    ensures Process(e, EdgeRemove(a, b)).Sized() && |Process(e, EdgeRemove(a, b)).tab| == |e.tab|
    ensures MarksFollow(e, EdgeRemove(a, b), Process(e, EdgeRemove(a, b)), i)
  {
    if Valid(e.pool, a) && b in e.tab[a.index].outs {
      EdgeRemoveShape(e, a, b);
      ReviewMarks(Unlinked(e, a.index, b), b.index, i);
    } else {
      assert Process(e, EdgeRemove(a, b)) == e;
    }
  }

  lemma StepMarks(e: Engine, ms: seq<Msg>, i: nat, n: nat)
    requires e.Sized() && TableOk(e.pool, e.tab) && i < |e.tab| && n < |ms|
    ensures ApplyAll(e, ms[..n + 1]).zeroMark[i] <==> ApplyAll(e, ms[..n]).zeroMark[i] || SeenDead(e, ms, i, n)
    ensures ApplyAll(e, ms[..n + 1]).suspectMark[i] <==> ApplyAll(e, ms[..n]).suspectMark[i] || SeenSuspect(e, ms, i, n)
  {
    assert ms[..n + 1][..n] == ms[..n];
    MarksOfOne(ApplyAll(e, ms[..n]), ms[n], i);
  }

  ghost predicate EverDead(e: Engine, ms: seq<Msg>, i: nat, n: nat)
    requires e.Sized() && TableOk(e.pool, e.tab) && n <= |ms| && i < |e.tab|
  {
    exists k: nat :: k < n && SeenDead(e, ms, i, k)
  }

  ghost predicate EverSuspect(e: Engine, ms: seq<Msg>, i: nat, n: nat)
    requires e.Sized() && TableOk(e.pool, e.tab) && n <= |ms| && i < |e.tab|
  {
    exists k: nat :: k < n && SeenSuspect(e, ms, i, k)
  }

  lemma EverGrows(e: Engine, ms: seq<Msg>, i: nat, n: nat)
    requires e.Sized() && TableOk(e.pool, e.tab) && n < |ms| && i < |e.tab|
    ensures EverDead(e, ms, i, n + 1) <==> EverDead(e, ms, i, n) || SeenDead(e, ms, i, n)
    ensures EverSuspect(e, ms, i, n + 1) <==> EverSuspect(e, ms, i, n) || SeenSuspect(e, ms, i, n)
  {
  }

  lemma NoneApplied(e: Engine, ms: seq<Msg>)
    requires e.Sized() && TableOk(e.pool, e.tab) && |ms| == 0
    ensures ApplyAll(e, ms) == e
  {
  }

  ghost predicate MarksAt(e: Engine, ms: seq<Msg>, i: nat, n: nat)
    requires e.Sized() && TableOk(e.pool, e.tab) && i < |e.tab| && n <= |ms|
  {
    && (ApplyAll(e, ms[..n]).zeroMark[i] <==> e.zeroMark[i] || EverDead(e, ms, i, n))
    && (ApplyAll(e, ms[..n]).suspectMark[i] <==> e.suspectMark[i] || EverSuspect(e, ms, i, n))
  }

  lemma MarksNext(e: Engine, ms: seq<Msg>, i: nat, n: nat)
    requires e.Sized() && TableOk(e.pool, e.tab) && i < |e.tab| && n < |ms| && MarksAt(e, ms, i, n)
    ensures MarksAt(e, ms, i, n + 1)
  {
    StepMarks(e, ms, i, n);
    EverGrows(e, ms, i, n);
  }

  lemma MarksFirst(e: Engine, ms: seq<Msg>, i: nat, n: nat)
    requires e.Sized() && TableOk(e.pool, e.tab) && i < |e.tab| && n == 0
    ensures MarksAt(e, ms, i, n)
  {
    NoneApplied(e, ms[..n]);
  }

  lemma {:induction false} MarksOfMany(e: Engine, ms: seq<Msg>, i: nat, n: nat)
    requires e.Sized() && TableOk(e.pool, e.tab) && i < |e.tab| && n <= |ms|
    ensures MarksAt(e, ms, i, n)
  {
    if n == 0 {
      MarksFirst(e, ms, i, n);
    } else {
      MarksOfMany(e, ms, i, n - 1);
      MarksNext(e, ms, i, n - 1);
    }
  }

  /** The count slot `i` ends with was noticed: by a mark from before, or by a message that
      re-evaluated it. */
  ghost predicate Noticed(e: Engine, ms: seq<Msg>, i: nat)
    requires e.Sized() && TableOk(e.pool, e.tab)
  {
    e.Live(i) &&
    if ApplyAll(e, ms).TotalOf(i) == 0 then e.zeroMark[i] || EverDead(e, ms, i, |ms|)
    else e.suspectMark[i] || EverSuspect(e, ms, i, |ms|)
  }

  lemma NoticedIsCandidate(e: Engine, ms: seq<Msg>, i: nat)
    requires e.Sized() && TableOk(e.pool, e.tab)
    ensures Noticed(e, ms, i) <==> Candidate(ApplyAll(e, ms), i)
  {
    if e.Live(i) {
      MarksOfMany(e, ms, i, |ms|);
      assert ms[..|ms|] == ms;
    }
  }

  /** Slot `a` is reachable in the table `t` ends with, or something noticed reaches it there, or it
      is as good as never used.  Counts and records come from `t`, notices from the stream. */
  ghost predicate Accounted(e: Engine, ms: seq<Msg>, t: Engine, a: nat)
    requires e.Sized() && TableOk(e.pool, e.tab) && t.Sized()
  {
    || Reachable(t, a)
    || (exists m: nat :: Noticed(e, ms, m) && Reach(t.G(), m, a))
    || (e.Live(a) && a < |t.tab| && t.tab[a] == EMPTY_ROW)
  }

  lemma SameTableReachable(e: Engine, e': Engine, u: nat)
    requires e.Sized() && e'.Sized() && e'.pool == e.pool && e'.tab == e.tab
    ensures e'.G() == e.G() && (Reachable(e, u) ==> Reachable(e', u))
  {
    if r: nat :| Rooted(e, r) && Reach(e.G(), r, u) {
      assert Rooted(e', r);
      ReachableVia(e', r, u);
    }
  }

  lemma AccountedIsCovered(e: Engine, ms: seq<Msg>, t: Engine, a: nat)
    requires e.Sized() && TableOk(e.pool, e.tab) && t.Sized() && e.Live(a)
    requires t.pool == e.pool && t.tab == ApplyAll(e, ms).tab
    ensures CoveredCell(ApplyAll(e, ms), a) <==> Accounted(e, ms, t, a)
  {
    var end := ApplyAll(e, ms);
    SameTableReachable(end, t, a);
    SameTableReachable(t, end, a);
    if m: nat :| Candidate(end, m) && Reach(end.G(), m, a) { NoticedIsCandidate(e, ms, m); }
    if m: nat :| Noticed(e, ms, m) && Reach(t.G(), m, a) {
      NoticedIsCandidate(e, ms, m);
      PendingVia(end, m, a);
    }
    if end.tab[a] == EMPTY_ROW && !Unborn(end, a) {
      ReachRefl(end.G(), a);
      PendingVia(end, a, a);
    }
  }

  // ---- folded batches -------------------------------------------------------------------------

  lemma FoldNoUnderflow(e: Engine, ms: seq<Msg>)
    requires e.Sized() && TableOk(e.pool, e.tab) && RootsStay(e, ms)
    requires forall i :: 0 <= i < |ms| ==> Staged(ms[i])
    ensures NoUnderflow(e, FoldAll(ms).out)
  {
    var out := FoldAll(ms).out;
    FoldedRootsStay(e, ms);
    forall k: nat | k < |out| ensures !PartialUnderflow(ApplyAll(e, out[..k]), out[k]) && (out[k].RootAdd? ==> out[k].count > 0) {
      StaysOneByOne(e, out, k);
      if out[k].RootAdd? { FoldedCount(FoldAll(ms), k); }
    }
  }

  lemma FoldedCount(f: Fold, k: nat)
    requires FoldOk(f) && k < |f.out| && f.out[k].RootAdd?
    ensures f.out[k].count > 0
  {
  }

  lemma StaysOneByOne(e: Engine, ms: seq<Msg>, k: nat)
    requires e.Sized() && TableOk(e.pool, e.tab) && RootsStay(e, ms) && k < |ms|
    ensures !PartialUnderflow(ApplyAll(e, ms[..k]), ms[k])
  {
    var m := ms[k];
    if m.RootRemove? && Valid(e.pool, m.b) {
      RootsStayPrefix(e, ms, k);
      RootsAreNet(e, ms[..k], m.b.index);
      assert ms[..k + 1][..k] == ms[..k];
      assert RootsLeft(e, ms, m.b.index, k + 1) >= 0;
    }
  }

  /** Sweep exactness after a folded batch, in terms of the table the staged batch describes and of
      what the folded messages re-evaluate: it holds if and only if every cell the batch stores into
      is accounted for. */
  lemma FoldedCoveredIff(e: Engine, ms: seq<Msg>)
    requires Settled(e) && Covered(e) && RootsStay(e, ms)
    requires forall i :: 0 <= i < |ms| ==> Staged(ms[i])
    ensures Covered(ApplyAll(e, FoldAll(ms).out)) <==>
            forall k: nat, i: nat :: k < |FoldAll(ms).out| && StoresInto(e.pool, FoldAll(ms).out, k, i) ==>
              Accounted(e, FoldAll(ms).out, ApplyAll(e, ms), i)
  {
    var out, t := FoldAll(ms).out, ApplyAll(e, ms);
    FoldNoUnderflow(e, ms);
    FoldSameTable(e, ms);
    StreamEndCoveredIff(e, out);
    forall k: nat, i: nat | k < |out| && StoresInto(e.pool, out, k, i)
      ensures CoveredCell(ApplyAll(e, out), i) <==> Accounted(e, out, t, i)
    {
      AccountedIsCovered(e, out, t, i);
    }
  }

  lemma FoldedSweepExactIff(e: Engine, ms: seq<Msg>, e': Engine)
    requires Settled(e) && Covered(e) && RootsStay(e, ms)
    requires forall i :: 0 <= i < |ms| ==> Staged(ms[i])
    requires Swept(ApplyAll(e, FoldAll(ms).out), e')
    ensures Exact(e') <==>
            forall k: nat, i: nat :: k < |FoldAll(ms).out| && StoresInto(e.pool, FoldAll(ms).out, k, i) ==>
              Accounted(e, FoldAll(ms).out, ApplyAll(e, ms), i)
  {
    var out := FoldAll(ms).out;
    FoldNoUnderflow(e, ms);
    StreamSettled(e, out, |out|);
    assert out[..|out|] == out;
    FoldedCoveredIff(e, ms);
    SweepExactIff(ApplyAll(e, out), e');
  }

  // ---- what a producer can check before it publishes ------------------------------------------

  /** A root operation on `h` precedes message `k`. */
  ghost predicate RootOpBefore(ms: seq<Msg>, h: Handle, k: nat)
    requires k <= |ms|
  {
    exists j: nat :: j < k && IsRootOp(ms[j]) && ms[j].b == h
  }

  /** The roots on the source of the store at `k`, when folding moves every root change of the batch
      to the place of the first: the whole change if that place comes before, none of it otherwise. */
  ghost function RootsAtStore(e: Engine, ms: seq<Msg>, k: nat): int
    requires e.Sized() && k < |ms| && ms[k].EdgeAdd? && Valid(e.pool, ms[k].a)
  {
    e.tab[ms[k].a.index].root + if RootOpBefore(ms, ms[k].a, k) then NetRoot(ms, ms[k].a) else 0
  }

  /** Every store of the batch goes into a cell that the fold leaves rooted at that point. */
  ghost predicate FoldSafe(e: Engine, ms: seq<Msg>)
    requires e.Sized()
  {
    forall k: nat :: k < |ms| && ms[k].EdgeAdd? && Valid(e.pool, ms[k].a) ==> RootsAtStore(e, ms, k) > 0
  }

  lemma {:induction false} FoldedIff(ms: seq<Msg>, h: Handle)
    requires forall i :: 0 <= i < |ms| ==> Staged(ms[i])
    ensures h in FoldAll(ms).pos <==> RootOpBefore(ms, h, |ms|)
    decreases |ms|
  {
    if ms != [] {
      var n := |ms| - 1;
      FoldedIff(ms[..n], h);
      OpsBeforeNext(ms, h, n);
      FoldLast(ms[..n], ms);
    }
  }

  lemma OpsBeforeNext(ms: seq<Msg>, h: Handle, n: nat)
    requires |ms| == n + 1
    ensures RootOpBefore(ms, h, |ms|) <==> RootOpBefore(ms[..n], h, n) || (IsRootOp(ms[n]) && ms[n].b == h)
  {
    if j: nat :| j < n && IsRootOp(ms[..n][j]) && ms[..n][j].b == h { assert IsRootOp(ms[j]) && ms[j].b == h; }
    if j: nat :| j < |ms| && IsRootOp(ms[j]) && ms[j].b == h { assert j < n ==> ms[..n][j] == ms[j]; }
  }

  /** Store `j` of a folded batch is a store of the batch, and the fold has put the root change of
      its source before it exactly if the batch had a root operation on the source before it. */
  lemma {:induction false} StorePlace(ms: seq<Msg>, j: nat) returns (k: nat)
    requires forall i :: 0 <= i < |ms| ==> Staged(ms[i])
    requires j < |FoldAll(ms).out| && FoldAll(ms).out[j].EdgeAdd?
    ensures k < |ms| && ms[k] == FoldAll(ms).out[j]
    ensures (ms[k].a in FoldAll(ms).pos && FoldAll(ms).pos[ms[k].a] < j) <==> RootOpBefore(ms, ms[k].a, k)
    decreases |ms|
  {
    var n := |ms| - 1;
    var f, m := FoldAll(ms[..n]), ms[n];
    FoldLast(ms[..n], ms);
    if j == |f.out| {
      AppendedStore(f, m);
      k := n;
      FoldedIff(ms[..n], m.a);
      SameOpsBefore(ms, n, m.a, n);
    } else {
      EarlierStore(f, m, j);
      k := StorePlace(ms[..n], j);
      assert ms[..n][k] == ms[k];
      SameOpsBefore(ms, n, ms[k].a, k);
    }
  }

  lemma AppendedStore(f: Fold, m: Msg)
    requires FoldOk(f) && Staged(m) && |f.out| < |FoldMsg(f, m).out| && FoldMsg(f, m).out[|f.out|].EdgeAdd?
    ensures m == FoldMsg(f, m).out[|f.out|] && FoldMsg(f, m).pos == f.pos
    ensures forall h :: h in f.pos ==> f.pos[h] < |f.out|
  {
  }

  /** Folding one more message moves no earlier store, and puts no root change before it. */
  lemma EarlierStore(f: Fold, m: Msg, j: nat)
    requires FoldOk(f) && Staged(m) && j < |f.out| && FoldMsg(f, m).out[j].EdgeAdd?
    ensures f.out[j] == FoldMsg(f, m).out[j]
    ensures forall h :: (h in FoldMsg(f, m).pos && FoldMsg(f, m).pos[h] < j) <==> (h in f.pos && f.pos[h] < j)
  {
  }

  lemma SameOpsBefore(ms: seq<Msg>, n: nat, h: Handle, k: nat)
    requires k <= n <= |ms|
    ensures RootOpBefore(ms[..n], h, k) <==> RootOpBefore(ms, h, k)
  {
    if j: nat :| j < k && IsRootOp(ms[j]) && ms[j].b == h { assert ms[..n][j] == ms[j]; }
    if j: nat :| j < k && IsRootOp(ms[..n][j]) && ms[..n][j].b == h { assert ms[..n][j] == ms[j]; }
  }

  lemma SafeStoreRooted(e: Engine, ms: seq<Msg>, j: nat)
    requires Settled(e) && RootsStay(e, ms) && FoldSafe(e, ms)
    requires forall i :: 0 <= i < |ms| ==> Staged(ms[i])
    requires j < |FoldAll(ms).out| && FoldAll(ms).out[j].EdgeAdd? && Valid(e.pool, FoldAll(ms).out[j].a)
    ensures Reachable(ApplyAll(e, FoldAll(ms).out[..j]), FoldAll(ms).out[j].a.index)
  {
    var f := FoldAll(ms);
    var a := f.out[j].a;
    var k := StorePlace(ms, j);
    assert RootsAtStore(e, ms, k) > 0;
    FoldedRootsStay(e, ms);
    RootsStayPrefix(e, f.out, j);
    RootsAreNet(e, f.out[..j], a.index);
    FoldedPrefix(f, a, j);
    FoldDelta(ms, a);
    var p := ApplyAll(e, f.out[..j]);
    assert Rooted(p, a.index);
    ReachRefl(p.G(), a.index);
    ReachableVia(p, a.index, a.index);
  }

  /** A batch that passes the producer's test may be folded: every unreachable cell is covered at
      every point of the folded batch, and so a sweep after it is exact. */
  lemma FoldSafeCovers(e: Engine, ms: seq<Msg>)
    requires Settled(e) && Covered(e) && RootsStay(e, ms) && FoldSafe(e, ms)
    requires forall i :: 0 <= i < |ms| ==> Staged(ms[i])
    ensures CoveredThroughout(e, FoldAll(ms).out) && Covered(ApplyAll(e, FoldAll(ms).out))
  {
    var out := FoldAll(ms).out;
    FoldNoUnderflow(e, ms);
    forall k: nat | k < |out| ensures SafeAt(e, out, k) {
      if out[k].EdgeAdd? && Valid(e.pool, out[k].a) { SafeStoreRooted(e, ms, k); }
    }
    StreamCoveredIff(e, out);
    assert out[..|out|] == out;
    assert Covered(ApplyAll(e, out[..|out|]));
  }
}
