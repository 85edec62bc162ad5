/** What a folded batch does to the collector, compared with the batch itself. */
module FoldMeaning {
  import opened Graphs
  import opened Cells
  import opened EngineState
  import opened Coverage
  import opened Sweeping
  import opened CollectionEngines
  import opened Exactness
  import opened Logs
  import opened Leaks
  import opened Folding

  function ApplyAll(e: Engine, ms: seq<Msg>): (e': Engine)
    requires e.Sized() && TableOk(e.pool, e.tab)
    ensures e'.Sized() && TableOk(e'.pool, e'.tab) && e'.pool == e.pool
  {
    if ms == [] then e
    else
      var p := ApplyAll(e, ms[..|ms| - 1]);
      ProcessKeepsTable(p, ms[|ms| - 1]);
      Process(p, ms[|ms| - 1])
  }

  // ---- edges ----------------------------------------------------------------------------------

  predicate IsEdgeOp(m: Msg) { m.EdgeAdd? || m.EdgeRemove? }

  function EdgeOps(ms: seq<Msg>): seq<Msg> {
    if ms == [] then []
    else if IsEdgeOp(ms[|ms| - 1]) then EdgeOps(ms[..|ms| - 1]) + [ms[|ms| - 1]]
    else EdgeOps(ms[..|ms| - 1])
  }

  /** Same edge counts and same records. */
  ghost predicate SameEdges(tab: seq<Row>, tab': seq<Row>) {
    |tab| == |tab'| && forall i :: 0 <= i < |tab| ==> tab[i].edge == tab'[i].edge && tab[i].outs == tab'[i].outs
  }

  lemma RootKeepsEdges(e: Engine, m: Msg)
    requires e.Sized() && !IsEdgeOp(m)
    ensures SameEdges(e.tab, Process(e, m).tab)
  {
  }

  lemma EdgeStepSame(e: Engine, e': Engine, m: Msg)
    requires e.Sized() && e'.Sized() && TableOk(e.pool, e.tab) && TableOk(e'.pool, e'.tab) && e.pool == e'.pool
    requires SameEdges(e.tab, e'.tab) && IsEdgeOp(m)
    ensures SameEdges(Process(e, m).tab, Process(e', m).tab)
  {
    if m.EdgeRemove? {
      if Valid(e.pool, m.a) && m.b in e.tab[m.a.index].outs {
        EdgeRemoveShape(e, m.a, m.b);
        EdgeRemoveShape(e', m.a, m.b);
        ReconsiderFrame(Unlinked(e, m.a.index, m.b), m.b.index);
        ReconsiderFrame(Unlinked(e', m.a.index, m.b), m.b.index);
      } else {
        assert Process(e, m) == e && Process(e', m) == e';
      }
    }
  }

  lemma {:induction false} OnlyEdgeOpsMatter(e: Engine, ms: seq<Msg>)
    requires e.Sized() && TableOk(e.pool, e.tab)
    ensures SameEdges(ApplyAll(e, ms).tab, ApplyAll(e, EdgeOps(ms)).tab)
    decreases |ms|
  {
    if ms != [] {
      var n := |ms| - 1;
      var p, q := ApplyAll(e, ms[..n]), ApplyAll(e, EdgeOps(ms[..n]));
      OnlyEdgeOpsMatter(e, ms[..n]);
      if IsEdgeOp(ms[n]) {
        EdgeStepSame(p, q, ms[n]);
        var es := EdgeOps(ms);
        assert es[..|es| - 1] == EdgeOps(ms[..n]) && es[|es| - 1] == ms[n];
      } else {
        RootKeepsEdges(p, ms[n]);
      }
    }
  }

  lemma {:induction false} EdgeOpsUpdate(ms: seq<Msg>, i: nat, m: Msg)
    requires i < |ms| && !IsEdgeOp(ms[i]) && !IsEdgeOp(m)
    ensures EdgeOps(ms[i := m]) == EdgeOps(ms)
    decreases |ms|
  {
    var n := |ms| - 1;
    if i == n {
      assert ms[i := m][..n] == ms[..n];
    } else {
      EdgeOpsUpdate(ms[..n], i, m);
      assert ms[i := m][..n] == ms[..n][i := m];
    }
  }

  lemma {:induction false} FoldKeepsEdgeOps(ms: seq<Msg>)
    requires forall i :: 0 <= i < |ms| ==> Staged(ms[i])
    ensures EdgeOps(FoldAll(ms).out) == EdgeOps(ms)
    decreases |ms|
  {
    if ms != [] {
      var n := |ms| - 1;
      FoldKeepsEdgeOps(ms[..n]);
      FoldMsgEdgeOps(FoldAll(ms[..n]), ms[n]);
    }
  }

  lemma EdgeOpsAppend(ms: seq<Msg>, m: Msg)
    ensures EdgeOps(ms + [m]) == EdgeOps(ms) + if IsEdgeOp(m) then [m] else []
  {
    var l := ms + [m];
    assert l[..|l| - 1] == ms && l[|l| - 1] == m;
  }

  lemma FoldMsgEdgeOps(f: Fold, m: Msg)
    requires FoldOk(f) && Staged(m)
    ensures EdgeOps(FoldMsg(f, m).out) == EdgeOps(f.out) + if IsEdgeOp(m) then [m] else []
  {
    EdgeOpsAppend(f.out, m);
    if IsRootOp(m) && m.b in f.pos {
      var i, m' := f.pos[m.b], NetMsg(m.b, f.delta[m.b] + Sign(m));
      assert !IsEdgeOp(f.out[i]) && !IsEdgeOp(m');
      EdgeOpsUpdate(f.out, i, m');
      assert FoldMsg(f, m).out == f.out[i := m'];
    }
  }

  // ---- roots ----------------------------------------------------------------------------------

  /** No prefix of the messages takes more roots from a live cell than it has. */
  ghost predicate RootsStay(e: Engine, ms: seq<Msg>)
    requires e.Sized()
  {
    forall i: nat, k: nat :: e.Live(i) && k <= |ms| ==> RootsLeft(e, ms, i, k) >= 0
  }

  ghost function RootsLeft(e: Engine, ms: seq<Msg>, i: nat, k: nat): int
    requires e.Sized() && e.Live(i) && k <= |ms|
  {
    e.tab[i].root + NetRoot(ms[..k], Current(e.pool, i))
  }

  lemma RootStep(e: Engine, m: Msg, i: nat)
    requires e.Sized() && TableOk(e.pool, e.tab) && e.Live(i)
    requires e.tab[i].root + RootDelta(m, Current(e.pool, i)) >= 0
    ensures Process(e, m).Sized() && |Process(e, m).tab| == |e.tab|
    ensures Process(e, m).tab[i].root == e.tab[i].root + RootDelta(m, Current(e.pool, i))
  {
    ProcessKeepsTable(e, m);
    if m.EdgeRemove? {
      if Valid(e.pool, m.a) && m.b in e.tab[m.a.index].outs {
        EdgeRemoveShape(e, m.a, m.b);
        ReconsiderFrame(Unlinked(e, m.a.index, m.b), m.b.index);
      } else {
        assert Process(e, m) == e;
      }
    }
  }

  lemma {:induction false} RootsAreNet(e: Engine, ms: seq<Msg>, i: nat)
    requires e.Sized() && TableOk(e.pool, e.tab) && e.Live(i) && RootsStay(e, ms)
    ensures ApplyAll(e, ms).tab[i].root == e.tab[i].root + NetRoot(ms, Current(e.pool, i))
    decreases |ms|
  {
    if ms != [] {
      var n := |ms| - 1;
      RootsStayPrefix(e, ms, n);
      RootsAreNet(e, ms[..n], i);
      assert ms[..|ms|] == ms;
      assert RootsLeft(e, ms, i, |ms|) >= 0;
      RootStep(ApplyAll(e, ms[..n]), ms[n], i);
    }
  }

  lemma RootsStayPrefix(e: Engine, ms: seq<Msg>, n: nat)
    requires e.Sized() && RootsStay(e, ms) && n <= |ms|
    ensures RootsStay(e, ms[..n])
  {
    forall j: nat, k: nat | e.Live(j) && k <= n ensures RootsLeft(e, ms[..n], j, k) >= 0 {
      assert ms[..n][..k] == ms[..k];
      assert RootsLeft(e, ms, j, k) >= 0;
    }
  }

  /** In a folded batch a handle's whole change happens at its one place. */
  lemma {:induction false} FoldedPrefix(f: Fold, h: Handle, k: nat)
    requires FoldOk(f) && k <= |f.out|
    ensures NetRoot(f.out[..k], h) == if h in f.pos && f.pos[h] < k then DeltaOf(f, h) else 0
  {
    if k > 0 {
      FoldedPrefix(f, h, k - 1);
      assert f.out[..k][..k - 1] == f.out[..k - 1];
      var m := f.out[k - 1];
      if h in f.pos && f.pos[h] == k - 1 {
        assert RootDelta(m, h) == f.delta[h];
      } else {
        assert RootDelta(m, h) == 0;
      }
    }
  }

  lemma {:induction false} FoldDelta(ms: seq<Msg>, h: Handle)
    requires forall i :: 0 <= i < |ms| ==> Staged(ms[i])
    ensures NetRoot(ms, h) == DeltaOf(FoldAll(ms), h)
    decreases |ms|
  {
    if ms != [] {
      FoldDelta(ms[..|ms| - 1], h);
      FoldMsgDelta(FoldAll(ms[..|ms| - 1]), ms[|ms| - 1], h);
    }
  }

  function DeltaOf(f: Fold, h: Handle): int
    requires FoldOk(f)
  {
    if h in f.pos then f.delta[h] else 0
  }

  lemma FoldMsgDelta(f: Fold, m: Msg, h: Handle)
    requires FoldOk(f) && Staged(m)
    ensures DeltaOf(FoldMsg(f, m), h) == DeltaOf(f, h) + RootDelta(m, h)
  {
  }

  lemma FoldedRootsStay(e: Engine, ms: seq<Msg>)
    requires e.Sized() && TableOk(e.pool, e.tab) && RootsStay(e, ms)
    requires forall i :: 0 <= i < |ms| ==> Staged(ms[i])
    ensures RootsStay(e, FoldAll(ms).out)
  {
    forall i: nat, k: nat | e.Live(i) && k <= |FoldAll(ms).out| ensures RootsLeft(e, FoldAll(ms).out, i, k) >= 0 {
      assert RootsLeft(e, ms, i, |ms|) >= 0;
      FoldedRootsLeft(e, ms, i, k);
    }
  }

  lemma FoldedRootsLeft(e: Engine, ms: seq<Msg>, i: nat, k: nat)
    requires e.Sized() && TableOk(e.pool, e.tab) && e.Live(i) && RootsLeft(e, ms, i, |ms|) >= 0
    requires forall i :: 0 <= i < |ms| ==> Staged(ms[i])
    requires k <= |FoldAll(ms).out|
    ensures RootsLeft(e, FoldAll(ms).out, i, k) >= 0
  {
    var h := Current(e.pool, i);
    FoldedPrefix(FoldAll(ms), h, k);
    FoldDelta(ms, h);
    assert ms[..|ms|] == ms;
    TotalsNonNegative(e, i);
  }

  // ---- the main result ------------------------------------------------------------------------

  /** Applying the folded batch gives exactly the root counts, edge counts and records of applying
      the batch, in at most as many messages. */
  lemma FoldSameTable(e: Engine, ms: seq<Msg>)
    requires e.Sized() && TableOk(e.pool, e.tab) && RootsStay(e, ms)
    requires forall i :: 0 <= i < |ms| ==> Staged(ms[i])
    ensures ApplyAll(e, FoldAll(ms).out).tab == ApplyAll(e, ms).tab
    ensures |FoldAll(ms).out| <= |ms|
  {
    var out := FoldAll(ms).out;
    OnlyEdgeOpsMatter(e, ms);
    OnlyEdgeOpsMatter(e, out);
    FoldKeepsEdgeOps(ms);
    var a, b := ApplyAll(e, out), ApplyAll(e, ms);
    forall i: nat | i < |a.tab| ensures i < |b.tab| && a.tab[i] == b.tab[i] {
      if e.Live(i) { FoldSameRoot(e, ms, i); }
    }
  }

  lemma FoldSameRoot(e: Engine, ms: seq<Msg>, i: nat)
    requires e.Sized() && TableOk(e.pool, e.tab) && RootsStay(e, ms) && e.Live(i)
    requires forall i :: 0 <= i < |ms| ==> Staged(ms[i])
    ensures ApplyAll(e, FoldAll(ms).out).tab[i].root == ApplyAll(e, ms).tab[i].root
  {
    var f, h := FoldAll(ms), Current(e.pool, i);
    FoldedRootsStay(e, ms);
    RootsAreNet(e, ms, i);
    RootsAreNet(e, f.out, i);
    FoldDelta(ms, h);
    FoldedPrefix(f, h, |f.out|);
    assert f.out[..|f.out|] == f.out;
  }

  // ---- the marks are not preserved ------------------------------------------------------------

  /** Coverage is kept at every point of a stream. */
  ghost predicate CoveredThroughout(e: Engine, ms: seq<Msg>)
    requires e.Sized() && TableOk(e.pool, e.tab)
  {
    forall k: nat :: k <= |ms| ==> Covered(ApplyAll(e, ms[..k]))
  }

  /** Every edge store of the stream is safe at its turn. */
  ghost predicate SafeAt(e: Engine, ms: seq<Msg>, k: nat)
    requires e.Sized() && TableOk(e.pool, e.tab) && k < |ms|
  {
    var p := ApplyAll(e, ms[..k]);
    ms[k].EdgeAdd? && Valid(p.pool, ms[k].a) && Valid(p.pool, ms[k].b) ==>
      EdgeAddSafe(p, ms[k].a.index, ms[k].b.index)
  }

  ghost predicate NoUnderflow(e: Engine, ms: seq<Msg>)
    requires e.Sized() && TableOk(e.pool, e.tab)
  {
    forall k: nat :: k < |ms| ==> !PartialUnderflow(ApplyAll(e, ms[..k]), ms[k]) && (ms[k].RootAdd? ==> ms[k].count > 0)
  }

  lemma {:induction false} StreamSettled(e: Engine, ms: seq<Msg>, k: nat)
    requires Settled(e) && NoUnderflow(e, ms) && k <= |ms|
    ensures Settled(ApplyAll(e, ms[..k]))
  {
    if k > 0 {
      StreamSettled(e, ms, k - 1);
      assert ms[..k][..k - 1] == ms[..k - 1];
      ProcessKeepsSettled(ApplyAll(e, ms[..k - 1]), ms[k - 1]);
    }
  }

  lemma StreamStep(e: Engine, ms: seq<Msg>, k: nat)
    requires Settled(e) && NoUnderflow(e, ms) && k < |ms| && Covered(ApplyAll(e, ms[..k]))
    ensures Covered(ApplyAll(e, ms[..k + 1])) <==> SafeAt(e, ms, k)
  {
    var p, m := ApplyAll(e, ms[..k]), ms[k];
    StreamSettled(e, ms, k);
    assert ms[..k + 1][..k] == ms[..k];
    if m.EdgeAdd? && Valid(p.pool, m.a) && Valid(p.pool, m.b) {
      EdgeAddCoveredIff(p, m.a, m.b);
    } else {
      ProcessKeepsCovered(p, m);
    }
  }

  /** A stream, folded or not, keeps every unreachable cell covered all along if and only if each of
      its edge stores is safe when its turn comes. */
  lemma StreamCoveredIff(e: Engine, ms: seq<Msg>)
    requires Settled(e) && Covered(e) && NoUnderflow(e, ms)
    ensures CoveredThroughout(e, ms) <==> forall k: nat :: k < |ms| ==> SafeAt(e, ms, k)
  {
    if CoveredThroughout(e, ms) {
      forall k: nat | k < |ms| ensures SafeAt(e, ms, k) {
        assert Covered(ApplyAll(e, ms[..k])) && Covered(ApplyAll(e, ms[..k + 1]));
        StreamStep(e, ms, k);
      }
    }
    if forall k: nat :: k < |ms| ==> SafeAt(e, ms, k) {
      forall k: nat | k <= |ms| ensures Covered(ApplyAll(e, ms[..k])) { SafePrefix(e, ms, k); }
    }
  }

  lemma {:induction false} SafePrefix(e: Engine, ms: seq<Msg>, k: nat)
    requires Settled(e) && Covered(e) && NoUnderflow(e, ms) && k <= |ms|
    requires forall k: nat :: k < |ms| ==> SafeAt(e, ms, k)
    ensures Covered(ApplyAll(e, ms[..k]))
  {
    if k > 0 {
      SafePrefix(e, ms, k - 1);
      assert SafeAt(e, ms, k - 1);
      StreamStep(e, ms, k - 1);
    }
  }

  // ---- a batch whose fold leaks ---------------------------------------------------------------

  /** Take a root, store the cell into itself, drop the root. */
  function SelfLoop(h: Handle): (ms: seq<Msg>)
    ensures |ms| == 3 && forall i :: 0 <= i < |ms| ==> Staged(ms[i])
  {
    [RootAdd(h, 1), EdgeAdd(h, h), RootRemove(h, 1)]
  }

  lemma ApplyOne(e: Engine, ms: seq<Msg>, m: Msg)
    requires e.Sized() && TableOk(e.pool, e.tab)
    ensures ApplyAll(e, ms + [m]) == Process(ApplyAll(e, ms), m)
  {
    var l := ms + [m];
    assert l[..|l| - 1] == ms && l[|l| - 1] == m;
  }

  /** A root operation, anything else, and the opposite root operation on the same handle. */
  lemma BalancedFold(h: Handle, m: Msg)
    requires !IsRootOp(m)
    ensures var f := FoldMsg(FoldMsg(FoldMsg(Fold([], map[], map[]), RootAdd(h, 1)), m), RootRemove(h, 1));
      f.out == [RootCheck(h), m]
  {
    var f1 := FoldMsg(Fold([], map[], map[]), RootAdd(h, 1));
    assert f1.out == [RootAdd(h, 1)] && h in f1.pos && f1.pos[h] == 0 && f1.delta[h] == 1;
    var f2 := FoldMsg(f1, m);
    assert f2.out == [RootAdd(h, 1), m] && f2.pos == f1.pos && f2.delta == f1.delta;
  }

  lemma SelfLoopFold(h: Handle)
    ensures FoldAll(SelfLoop(h)).out == [RootCheck(h), EdgeAdd(h, h)]
  {
    FoldThree(SelfLoop(h));
    BalancedFold(h, EdgeAdd(h, h));
  }

  lemma FoldNone(ms: seq<Msg>)
    requires |ms| == 0
    ensures FoldAll(ms) == Fold([], map[], map[])
  {
  }

  lemma FoldLast(ms: seq<Msg>, l: seq<Msg>)
    requires |l| > 0 && ms == l[..|l| - 1] && forall i :: 0 <= i < |l| ==> Staged(l[i])
    ensures FoldAll(l) == FoldMsg(FoldAll(ms), l[|l| - 1])
  {
  }

  lemma FoldThree(l: seq<Msg>)
    requires |l| == 3 && forall i :: 0 <= i < |l| ==> Staged(l[i])
    ensures FoldAll(l) == FoldMsg(FoldMsg(FoldMsg(Fold([], map[], map[]), l[0]), l[1]), l[2])
  {
    var l2, l1, l0 := l[..2], l[..1], l[..0];
    assert l2[..1] == l1 && l1[..0] == l0;
    FoldNone(l0);
    FoldLast(l0, l1);
    FoldLast(l1, l2);
    FoldLast(l2, l);
  }

  lemma NobodyReachesUnborn(e: Engine, m: nat, u: nat)
    requires e.Sized() && TableOk(e.pool, e.tab) && e.Live(u) && e.tab[u] == EMPTY_ROW && Reach(e.G(), m, u)
    ensures m == u
  {
    if m != u {
      var w := ReachLastEdge(e.G(), m, u);
      EdgeEnds(e.pool, e.tab, w, u);
    }
  }

  lemma RecheckMarks(e: Engine, h: Handle, p: Engine)
    requires e.Sized() && Valid(e.pool, h) && Unborn(e, h.index) && p == Process(e, RootCheck(h))
    requires !e.suspectMark[h.index]
    ensures p.Sized() && Valid(p.pool, h) && p.tab[h.index] == EMPTY_ROW && p.zeroMark[h.index] && !p.suspectMark[h.index]
  {
    assert p == MarkZero(e, h.index);
  }

  lemma UnbornNotSuspect(e: Engine, i: nat)
    requires Settled(e) && Unborn(e, i)
    ensures !e.suspectMark[i]
  {
  }

  /** A re-evaluated fresh cell is a zero candidate and nothing else speaks for it. */
  lemma FreshStoreUnsafe(p: Engine, i: nat)
    requires p.Sized() && TableOk(p.pool, p.tab) && p.Live(i) && p.tab[i] == EMPTY_ROW
    requires p.zeroMark[i] && !p.suspectMark[i]
    ensures !EdgeAddSafe(p, i, i)
  {
    forall m: nat | Reach(p.G(), m, i) ensures m == i { NobodyReachesUnborn(p, m, i); }
    assert !Rooted(p, i);
    assert !Reachable(p, i);
  }

  lemma FreshStoreSafe(e: Engine, h: Handle)
    requires Settled(e) && Valid(e.pool, h)
    ensures Process(e, RootAdd(h, 1)).Sized() && EdgeAddSafe(Process(e, RootAdd(h, 1)), h.index, h.index)
  {
    var p := Process(e, RootAdd(h, 1));
    TotalsNonNegative(e, h.index);
    ReachRefl(p.G(), h.index);
    ReachableVia(p, h.index, h.index);
  }

  lemma SelfLoopPrefixes(e: Engine, h: Handle)
    requires e.Sized() && TableOk(e.pool, e.tab)
    ensures var ms := SelfLoop(h);
      && ApplyAll(e, ms[..0]) == e
      && ApplyAll(e, ms[..1]) == Process(e, RootAdd(h, 1))
      && ApplyAll(e, ms[..2]) == Process(ApplyAll(e, ms[..1]), EdgeAdd(h, h))
  {
    var ms := SelfLoop(h);
    assert ms[..0] == [] && ms[..1] == [] + [RootAdd(h, 1)] && ms[..2] == ms[..1] + [EdgeAdd(h, h)];
    ApplyOne(e, [], RootAdd(h, 1));
    ApplyOne(e, ms[..1], EdgeAdd(h, h));
  }

  lemma SelfLoopCovered(e: Engine, h: Handle)
    requires Settled(e) && Covered(e) && Valid(e.pool, h)
    ensures CoveredThroughout(e, SelfLoop(h))
  {
    var ms := SelfLoop(h);
    SelfLoopPrefixes(e, h);
    FreshStoreSafe(e, h);
    assert SafeAt(e, ms, 0) && SafeAt(e, ms, 1) && SafeAt(e, ms, 2);
    var p1, p2 := ApplyAll(e, ms[..1]), ApplyAll(e, ms[..2]);
    TotalsNonNegative(e, h.index);
    EdgeAddCounts(p1, h, h);
    assert p2.tab[h.index].root >= 1;
    assert NoUnderflow(e, ms);
    StreamCoveredIff(e, ms);
  }

  /** For every cell that was just handed out, taking a root, storing the cell into itself and
      dropping the root is handled by the batch as staged, and leaks once folded: the counts are
      right, but no mark is left that would make a sweep look at the cell. */
  lemma FoldingLeaks(e: Engine, h: Handle)
    requires Settled(e) && Covered(e) && Valid(e.pool, h) && Unborn(e, h.index)
    ensures CoveredThroughout(e, SelfLoop(h))
    ensures !Covered(ApplyAll(e, FoldAll(SelfLoop(h)).out))
  {
    SelfLoopCovered(e, h);
    SelfLoopFold(h);
    UnbornNotSuspect(e, h.index);
    RecheckedThenStored(e, h);
  }

  lemma RecheckedThenStored(e: Engine, h: Handle)
    requires Settled(e) && Covered(e) && Valid(e.pool, h) && Unborn(e, h.index) && !e.suspectMark[h.index]
    ensures !Covered(ApplyAll(e, [RootCheck(h), EdgeAdd(h, h)]))
  {
    RecheckedIsOk(e, h);
    StoredAfter(e, h, Process(e, RootCheck(h)));
  }

  lemma StoredAfter(e: Engine, h: Handle, p: Engine)
    requires e.Sized() && TableOk(e.pool, e.tab) && p == Process(e, RootCheck(h)) && RecheckedOk(p, h)
    ensures !Covered(ApplyAll(e, [RootCheck(h), EdgeAdd(h, h)]))
  {
    StoreUncovers(p, h);
    TwoMessages(e, RootCheck(h), EdgeAdd(h, h));
  }

  lemma RecheckedIsOk(e: Engine, h: Handle)
    requires Settled(e) && Covered(e) && Valid(e.pool, h) && Unborn(e, h.index) && !e.suspectMark[h.index]
    ensures RecheckedOk(Process(e, RootCheck(h)), h)
  {
    RecheckSettled(e, h);
    RecheckMarks(e, h, Process(e, RootCheck(h)));
  }

  lemma RecheckSettled(e: Engine, h: Handle)
    requires Settled(e) && Covered(e)
    ensures Settled(Process(e, RootCheck(h))) && Covered(Process(e, RootCheck(h)))
  {
    ProcessKeepsCovered(e, RootCheck(h));
  }

  ghost predicate RecheckedOk(p: Engine, h: Handle) {
    && Settled(p) && Covered(p) && Valid(p.pool, h) && p.tab[h.index] == EMPTY_ROW
    && p.zeroMark[h.index] && !p.suspectMark[h.index]
  }

  lemma StoreUncovers(p: Engine, h: Handle)
    requires RecheckedOk(p, h)
    ensures Process(p, EdgeAdd(h, h)).Sized() && !Covered(Process(p, EdgeAdd(h, h)))
  {
    FreshStoreUnsafe(p, h.index);
    EdgeAddCoveredIff(p, h, h);
  }

  lemma TwoMessages(e: Engine, m: Msg, m': Msg)
    requires e.Sized() && TableOk(e.pool, e.tab)
    ensures ApplyAll(e, [m, m']) == Process(ApplyAll(e, [m]), m') && ApplyAll(e, [m]) == Process(e, m)
  {
    assert [m] == [] + [m] && [m, m'] == [m] + [m'];
    ApplyOne(e, [], m);
    ApplyOne(e, [m], m');
  }

  /** So a sweep right after the folded batch cannot be exact. */
  lemma FoldedSweepIsInexact(e: Engine, h: Handle, e': Engine)
    requires Settled(e) && Covered(e) && Valid(e.pool, h) && Unborn(e, h.index)
    requires Settled(ApplyAll(e, FoldAll(SelfLoop(h)).out)) && Swept(ApplyAll(e, FoldAll(SelfLoop(h)).out), e')
    ensures !Exact(e')
  {
    FoldingLeaks(e, h);
    SweepExactIff(ApplyAll(e, FoldAll(SelfLoop(h)).out), e');
  }
}
