/** The cycle collector as the virtual machine's backend: whatever its partial sweeps free, the
    machine's memory could spare. */
module Backends {
  import opened Graphs
  import opened Cells
  import opened EngineState
  import opened Coverage
  import opened Sweeping
  import opened Knots
  import E = CollectionEngines
  import V = VmState
  import opened ObjectStores
  import opened Tarjan

  /** The engine's rows say what the machine's memory says. */
  ghost predicate Reflects(e: Engine, m: V.Memory) {
    && e.Sized() && TableOk(e.pool, e.tab) && |e.tab| == |m.heap| == |m.edges|
    && forall i: nat :: i < |e.tab| ==> ReflectsAt(e, m, i)
  }

  ghost predicate ReflectsAt(e: Engine, m: V.Memory, i: nat)
    requires e.Sized() && i < |e.tab| == |m.heap| == |m.edges|
  {
    && e.pool[i].live == m.heap[i].live
    && (e.pool[i].live ==> e.tab[i].root == m.roots[i])
    && (e.pool[i].live ==> forall t: nat :: m.edges[i][t] == Records(e, i, t))
  }

  ghost function Records(e: Engine, i: nat, t: nat): nat
    requires e.Sized() && i < |e.tab|
  {
    if e.Live(t) then multiset(e.tab[i].outs)[Current(e.pool, t)] else 0
  }

  /** A partial collection: survivors keep their rows, nothing dangles, every rooted cell stays. */
  ghost predicate Collects(e: Engine, e': Engine) {
    && E.Shrunk(e, e') && TableOk(e'.pool, e'.tab)
    && forall i: nat :: Rooted(e, i) ==> e'.Live(i)
  }

  /** A zero sweep and a cycle pass, in any order and number, are partial collections. */
  lemma SweepingCollects(e: Engine, e': Engine)
    requires Consistent(e) && E.Shrunk(e, e') && Safe(e', Kept(e), Spared(e))
    ensures Collects(e, e')
  {
    SweepStarts(e);
  }

  lemma CollectedInStep(e: Engine, e': Engine)
    requires Consistent(e) && E.Shrunk(e, e') && Safe(e', Kept(e), Spared(e)) && e'.zeroStack == []
    ensures Collects(e, e') && Settled(e')
  {
    DrainedIsSettled(e');
    SweepingCollects(e, e');
  }

  ghost function Gone(e: Engine, e': Engine): set<nat> {
    set i: nat | i < |e.pool| && e.Live(i) && !e'.Live(i)
  }

  lemma CollectsFrees(e: Engine, e': Engine, m: V.Memory)
    requires Reflects(e, m) && Collects(e, e')
    ensures V.Collectible(m, Gone(e, e')) && Reflects(e', V.Freed(m, Gone(e, e')))
  {
    var f := Gone(e, e');
    forall h | h in f ensures V.Live(m, h) && h !in m.roots {
      assert ReflectsAt(e, m, h) && RowOk(e.pool, e.tab, h);
    }
    forall i: nat | i < |m.heap| && m.heap[i].live && i !in f ensures V.NoneIn(m.edges[i], f) {
      assert ReflectsAt(e, m, i);
      forall t | t in m.edges[i] ensures t !in f { SurvivorKeepsTarget(e, e', m, i, t); }
    }
    var m' := V.Freed(m, f);
    forall i: nat | i < |e'.tab| ensures ReflectsAt(e', m', i) { FreedReflects(e, e', m, i); }
  }

  lemma SurvivorKeepsTarget(e: Engine, e': Engine, m: V.Memory, i: nat, t: nat)
    requires Reflects(e, m) && Collects(e, e') && i < |m.heap| && m.heap[i].live && e'.Live(i) && t in m.edges[i]
    ensures e'.Live(t) && e.Live(t)
  {
    assert ReflectsAt(e, m, i);
    assert Records(e, i, t) == m.edges[i][t] > 0;
    var h := Current(e.pool, t);
    assert h in multiset(e.tab[i].outs);
    assert E.Survives(e, e', i) && RowOk(e'.pool, e'.tab, i);
    assert h in e'.tab[i].outs;
    assert Valid(e'.pool, h);
  }

  lemma FreedReflects(e: Engine, e': Engine, m: V.Memory, i: nat)
    requires Reflects(e, m) && Collects(e, e') && i < |e'.tab|
    ensures ReflectsAt(e', V.Freed(m, Gone(e, e')), i)
  {
    var m' := V.Freed(m, Gone(e, e'));
    assert ReflectsAt(e, m, i) && E.Survives(e, e', i);
    if e'.Live(i) {
      forall t: nat ensures m'.edges[i][t] == Records(e', i, t) {
        assert m.edges[i][t] == Records(e, i, t);
        if t in m.edges[i] {
          SurvivorKeepsTarget(e, e', m, i, t);
          assert E.Survives(e, e', t);
        } else if e'.Live(t) {
          assert E.Survives(e, e', t);
        }
      }
    }
  }

  // ---- the four barrier calls -----------------------------------------------------------------

  lemma RootAddReflects(e: Engine, m: V.Memory, h: nat)
    requires Reflects(e, m) && e.Live(h)
    ensures Reflects(Process(e, RootAdd(Current(e.pool, h), 1)), m.(roots := m.roots + multiset{h}))
  {
    var e', m' := Process(e, RootAdd(Current(e.pool, h), 1)), m.(roots := m.roots + multiset{h});
    ProcessKeepsTable(e, RootAdd(Current(e.pool, h), 1));
    forall i: nat | i < |e'.tab| ensures ReflectsAt(e', m', i) {
      assert ReflectsAt(e, m, i);
      forall t: nat ensures Records(e', i, t) == Records(e, i, t) {}
    }
  }

  lemma RootRemoveReflects(e: Engine, m: V.Memory, h: nat)
    requires Reflects(e, m) && e.Live(h) && h in m.roots
    ensures Reflects(Process(e, RootRemove(Current(e.pool, h), 1)), m.(roots := m.roots - multiset{h}))
  {
    var e', m' := Process(e, RootRemove(Current(e.pool, h), 1)), m.(roots := m.roots - multiset{h});
    ProcessKeepsTable(e, RootRemove(Current(e.pool, h), 1));
    assert ReflectsAt(e, m, h);
    var r := e.tab[h].root - 1;
    ReconsiderFrame(SetRoot(e, h, r), h);
    assert e'.tab == e.tab[h := e.tab[h].(root := r)];
    forall i: nat | i < |e'.tab| ensures ReflectsAt(e', m', i) {
      assert ReflectsAt(e, m, i);
      forall t: nat ensures Records(e', i, t) == Records(e, i, t) {}
    }
  }

  lemma EdgeAddReflects(e: Engine, m: V.Memory, a: nat, b: nat)
    requires Reflects(e, m) && e.Live(a) && e.Live(b)
    ensures Reflects(Process(e, EdgeAdd(Current(e.pool, a), Current(e.pool, b))),
                     V.Edged(m, a, b))
  {
    var ha, hb := Current(e.pool, a), Current(e.pool, b);
    var e', m' := Process(e, EdgeAdd(ha, hb)), V.Edged(m, a, b);
    ProcessKeepsTable(e, EdgeAdd(ha, hb));
    EdgeAddCounts(e, ha, hb);
    forall i: nat | i < |e'.tab| ensures ReflectsAt(e', m', i) {
      assert ReflectsAt(e, m, i);
      forall t: nat ensures e.pool[i].live ==> m'.edges[i][t] == Records(e', i, t) {
        assert e.pool[i].live ==> m.edges[i][t] == Records(e, i, t);
        AddedRecord(e, a, b, i, t);
      }
    }
  }

  lemma AddedRecord(e: Engine, a: nat, b: nat, i: nat, t: nat)
    requires e.Sized() && e.Live(a) && e.Live(b) && i < |e.tab|
    ensures var e' := Process(e, EdgeAdd(Current(e.pool, a), Current(e.pool, b)));
      e'.Sized() && |e'.tab| == |e.tab| && Records(e', i, t) == Records(e, i, t) + if i == a && t == b then 1 else 0
  {
    var ha, hb := Current(e.pool, a), Current(e.pool, b);
    EdgeAddCounts(e, ha, hb);
    var e' := Process(e, EdgeAdd(ha, hb));
    assert e'.tab[a].outs == [hb] + e.tab[a].outs;
    assert multiset(e'.tab[a].outs) == multiset(e.tab[a].outs) + multiset{hb};
  }

  lemma EdgeRemoveReflects(e: Engine, m: V.Memory, a: nat, b: nat)
    requires Reflects(e, m) && e.Live(a) && b in m.edges[a]
    ensures e.Live(b)
    ensures Reflects(Process(e, EdgeRemove(Current(e.pool, a), Current(e.pool, b))),
                     V.Unedged(m, a, b))
  {
    assert ReflectsAt(e, m, a);
    assert m.edges[a][b] == Records(e, a, b) > 0;
    var ha, hb := Current(e.pool, a), Current(e.pool, b);
    assert hb in multiset(e.tab[a].outs);
    ProcessKeepsTable(e, EdgeRemove(ha, hb));
    EdgeRemoveShape(e, ha, hb);
    var e1 := Unlinked(e, a, hb);
    ReconsiderFrame(e1, b);
    UnlinkedReflects(e, m, a, b, e1);
    var e', m' := Process(e, EdgeRemove(ha, hb)), V.Unedged(m, a, b);
    forall i: nat | i < |e'.tab| ensures ReflectsAt(e', m', i) {
      assert ReflectsAt(e1, m', i);
      forall t: nat ensures Records(e', i, t) == Records(e1, i, t) {}
    }
  }

  lemma UnlinkedReflects(e: Engine, m: V.Memory, a: nat, b: nat, e1: Engine)
    requires Reflects(e, m) && e.Live(a) && e.Live(b) && Current(e.pool, b) in e.tab[a].outs
    requires e1 == Unlinked(e, a, Current(e.pool, b))
    ensures e1.Sized() && |e1.tab| == |e.tab|
    ensures forall i: nat :: i < |e1.tab| ==> ReflectsAt(e1, V.Unedged(m, a, b), i)
  {
    var hb := Current(e.pool, b);
    var m' := V.Unedged(m, a, b);
    EraseMultiset(e.tab[a].outs, FirstIndex(e.tab[a].outs, hb));
    assert multiset(e.tab[a].outs) == multiset(e1.tab[a].outs) + multiset{hb};
    forall i: nat | i < |e1.tab| ensures ReflectsAt(e1, m', i) {
      assert ReflectsAt(e, m, i);
      forall t: nat ensures e.pool[i].live ==> m'.edges[i][t] == Records(e1, i, t) {
        assert e.pool[i].live ==> m.edges[i][t] == Records(e, i, t);
      }
    }
  }

  /** A fresh object: nothing is recorded from it or to it. */
  lemma AllocReflects(e: Engine, m: V.Memory, h: nat, n: nat)
    requires Reflects(e, m) && V.Allocatable(m.heap, h) && h < |m.heap| && h !in m.roots
    ensures !e.Live(h) && Reflects(Activate(e, h), V.Allocated(m, h, n))
  {
    assert ReflectsAt(e, m, h);
    var e', m' := Activate(e, h), V.Allocated(m, h, n);
    ActivateTable(e, h);
    forall i: nat | i < |e'.tab| ensures ReflectsAt(e', m', i) {
      assert ReflectsAt(e, m, i);
      forall t: nat ensures e'.pool[i].live ==> m'.edges[i][t] == Records(e', i, t) {
        assert e.pool[i].live ==> m.edges[i][t] == Records(e, i, t) && RowOk(e.pool, e.tab, i);
        if t == h && e.pool[i].live { assert Current(e.pool, h) !in e.tab[i].outs; }
      }
    }
  }

  lemma ActivateTable(e: Engine, h: nat)
    requires e.Sized() && TableOk(e.pool, e.tab) && h < |e.tab| && !e.Live(h)
    ensures Activate(e, h).Sized() && TableOk(Activate(e, h).pool, Activate(e, h).tab)
  {
    var e', x := Activate(e, h), Current(e.pool, h);
    forall j | 0 <= j < |e.pool| && e'.pool[j].live ensures RowOk(e'.pool, e'.tab, j) {
      if j != h {
        assert RowOk(e.pool, e.tab, j);
      } else {
        forall k | 0 <= k < |e.tab| ensures multiset(e.tab[k].outs)[x] == 0 {
          assert e.pool[k].live ==> RowOk(e.pool, e.tab, k);
          assert x !in e.tab[k].outs;
        }
        Nothing(e.tab, x, |e.tab|);
      }
    }
  }

  lemma {:induction false} Nothing(tab: seq<Row>, x: Handle, n: nat)
    requires n <= |tab| && forall k :: 0 <= k < |tab| ==> multiset(tab[k].outs)[x] == 0
    ensures In(tab, x, n) == 0
  {
    if n > 0 { Nothing(tab, x, n - 1); }
  }

  /** Writing a cell concerns neither rows nor liveness. */
  lemma StoreReflects(e: Engine, m: V.Memory, b: nat, k: nat, v: V.Val)
    requires Reflects(e, m) && V.Live(m, b) && k < |m.heap[b].cells|
    ensures Reflects(e, V.Stored(m, b, k, v))
  {
    forall i: nat | i < |e.tab| ensures ReflectsAt(e, V.Stored(m, b, k, v), i) { assert ReflectsAt(e, m, i); }
  }

  /** With no zero candidate left, whatever is neither kept nor gone hangs below a suspect. */
  lemma LeftBySuspects(e: Engine, mid: Engine, e': Engine)
    requires e.Sized() && Consistent(mid) && Consistent(e') && |mid.tab| == |e'.tab| && Progressing(e', Kept(e))
    requires e'.zeroStack == [] && mid.suspectStack == []
    ensures Leftover(e, mid, e')
  {
    forall u: nat | e'.Live(u) && u !in Kept(e) ensures BelowSuspect(mid, e', u) {
      assert Progresses(e', Kept(e), u);
      var s: nat :| Candidate(e', s) && Reach(e'.G(), s, u);
      assert e'.zeroMark[s] <==> s in e'.zeroStack;
    }
  }

  /** With no zero candidate left, marks and stacks are in step again. */
  lemma DrainedIsSettled(e: Engine)
    requires Consistent(e) && e.zeroStack == []
    ensures Settled(e)
  {
    forall i | 0 <= i < |e.tab| && e.suspectMark[i] ensures i in e.suspectStack {
      TotalsNonNegative(e, i);
      assert e.zeroMark[i] <==> i in e.zeroStack;
    }
  }

  // ---- what a scan frees ----------------------------------------------------------------------

  /** The references between live objects. */
  ghost function References(m: V.Memory): Graph {
    set u: nat, t: nat | u < |m.heap| && u < |m.edges| && m.heap[u].live && t in m.edges[u] :: (u, t)
  }

  /** Live objects without a root that refer to and reach each other, with no reference from
      outside. */
  ghost predicate Stranded(m: V.Memory, c: set<nat>) {
    && (forall h :: h in c ==> V.Live(m, h) && h !in m.roots)
    && (forall h {:trigger Referred(m, c, h)} :: h in c ==> Referred(m, c, h))
    && BackClosed(References(m), c)
    && (forall i, j :: i in c && j in c ==> Reach(References(m), i, j))
  }

  ghost predicate Referred(m: V.Memory, c: set<nat>, h: nat) {
    exists x :: x in References(m) && x.0 in c && x.1 == h
  }

  lemma ReferencesReflect(e: Engine, m: V.Memory)
    requires Reflects(e, m)
    ensures e.G() == References(m)
  {
    forall x ensures x in e.G() <==> x in References(m) {
      if x in e.G() || x in References(m) {
        if x in e.G() { EdgeEnds(e.pool, e.tab, x.0, x.1); }
        assert ReflectsAt(e, m, x.0) && m.edges[x.0][x.1] == Records(e, x.0, x.1);
        if e.Live(x.1) { EdgeIff(e.pool, e.tab, x.0, x.1); }
      }
    }
  }

  lemma StrandedIsKnot(e: Engine, m: V.Memory, c: set<nat>)
    requires Reflects(e, m) && Stranded(m, c)
    ensures Knot(e, c)
  {
    ReferencesReflect(e, m);
    forall i | i in c ensures e.Live(i) && Fed(e, c, i) && !Rooted(e, i) {
      assert ReflectsAt(e, m, i) && Referred(m, c, i);
    }
  }

  ghost predicate Suspected(e: Engine, c: set<nat>)
    requires e.Sized()
  {
    exists s: nat :: s in c && s < |e.tab| && e.suspectMark[s]
  }

  lemma AllStrandedFreed(e: Engine, m: V.Memory, first: Engine, e': Engine)
    requires Reflects(e, m) && Consistent(e) && Consistent(first) && E.Shrunk(e, first) && SparesFed(e, first)
    ensures forall c: set<nat> :: Stranded(m, c) && Suspected(e, c) ==>
              E.CountMarks(first.suspectMark) > 0 && (OrphansGone(first, e') ==> c <= Gone(e, e'))
  {
    forall c: set<nat> | Stranded(m, c) && Suspected(e, c)
      ensures E.CountMarks(first.suspectMark) > 0 && (OrphansGone(first, e') ==> c <= Gone(e, e'))
    {
      StrandedFreed(e, m, first, e', c);
    }
  }

  lemma StrandedFreed(e: Engine, m: V.Memory, first: Engine, e': Engine, c: set<nat>)
    requires Reflects(e, m) && Consistent(e) && Consistent(first) && E.Shrunk(e, first) && SparesFed(e, first)
    requires Stranded(m, c) && Suspected(e, c)
    ensures E.CountMarks(first.suspectMark) > 0 && (OrphansGone(first, e') ==> c <= Gone(e, e'))
  {
    StrandedIsKnot(e, m, c);
    KnotGone(e, first, e', c);
  }

  /** A scan after the zero sweep leaves nothing of a knot that holds a suspect. */
  lemma KnotGone(e: Engine, first: Engine, e': Engine, c: set<nat>)
    requires Consistent(e) && Consistent(first) && E.Shrunk(e, first) && SparesFed(e, first) && Knot(e, c) && Suspected(e, c)
    ensures E.CountMarks(first.suspectMark) > 0 && (forall i :: i in c ==> e.Live(i))
    ensures OrphansGone(first, e') ==> forall u :: u in c ==> !e'.Live(u)
  {
    var s: nat :| s in c && s < |e.tab| && e.suspectMark[s];
    assert Stays(e, first, c);
    MarkedCounts(first.suspectMark, s);
    E.KnotOutlives(e, first, c);
    if OrphansGone(first, e') {
      forall u | u in c ensures !e'.Live(u) { KnotScanned(e, first, c, s, u); }
    }
  }

  /** Reconsidering a member of a stranded component finds references left and marks it. */
  lemma ReconsiderSuspects(e: Engine, m: V.Memory, h: nat, c: set<nat>)
    requires Reflects(e, m) && Stranded(m, c) && h in c
    ensures h < |e.tab| && Reconsider(e, h).suspectMark[h]
  {
    StrandedIsKnot(e, m, c);
    KnotReconsidered(e, h, c);
  }

  lemma KnotReconsidered(e: Engine, h: nat, c: set<nat>)
    requires e.Sized() && TableOk(e.pool, e.tab) && Knot(e, c) && h in c
    ensures h < |e.tab| && Reconsider(e, h).suspectMark[h]
  {
    assert Fed(e, c, h);
    var x :| x in e.G() && x.0 in c && x.1 == h;
    EdgeEnds(e.pool, e.tab, x.0, x.1);
    TotalsNonNegative(e, h);
    var y := LeavesKnot(e, c, x.0, h);
  }

  /** The target of a removed root is a suspect if it is stranded. */
  lemma RootRemoveSuspects(e: Engine, m: V.Memory, h: nat, c: set<nat>)
    requires Consistent(e) && e.Live(h) && e.tab[h].root > 0 && Stranded(m, c) && h in c
    requires Reflects(Process(e, RootRemove(Current(e.pool, h), 1)), m)
    ensures Suspected(Process(e, RootRemove(Current(e.pool, h), 1)), c)
  {
    var e1 := SetRoot(e, h, e.tab[h].root - 1);
    assert Process(e, RootRemove(Current(e.pool, h), 1)) == Reconsider(e1, h);
    SuspectedAfter(e1, m, h, c);
  }

  lemma EdgeRemoveSuspects(e: Engine, m: V.Memory, b: nat, t: nat, c: set<nat>)
    requires Consistent(e) && e.Live(b) && e.Live(t) && Current(e.pool, t) in e.tab[b].outs && Stranded(m, c) && t in c
    requires Reflects(Process(e, EdgeRemove(Current(e.pool, b), Current(e.pool, t))), m)
    ensures Suspected(Process(e, EdgeRemove(Current(e.pool, b), Current(e.pool, t))), c)
  {
    EdgeRemoveShape(e, Current(e.pool, b), Current(e.pool, t));
    SuspectedAfter(Unlinked(e, b, Current(e.pool, t)), m, t, c);
  }

  /** Reconsidering changes marks only, so it finds the references that are there afterwards. */
  lemma SuspectedAfter(e: Engine, m: V.Memory, h: nat, c: set<nat>)
    requires e.Sized() && h < |e.tab| && Reflects(Reconsider(e, h), m) && Stranded(m, c) && h in c
    ensures Suspected(Reconsider(e, h), c)
  {
    var e' := Reconsider(e, h);
    ReconsiderSuspects(e', m, h, c);
    assert e'.tab == e.tab && e'.pool == e.pool;
    assert e'.suspectMark[h];
  }

  /** From every member of a knot a record leads to a member. */
  lemma LeavesKnot(e: Engine, c: set<nat>, a: nat, h: nat) returns (y: nat)
    requires e.Sized() && TableOk(e.pool, e.tab) && Knot(e, c) && a in c && h in c && (a, h) in e.G()
    ensures (h, y) in e.G() && e.tab[h].outs != []
  {
    if a == h {
      y := h;
    } else {
      y := ReachFirstEdge(e.G(), h, a);
    }
    EdgeEnds(e.pool, e.tab, h, y);
  }

  lemma {:induction false} MarkedCounts(marks: seq<bool>, i: nat)
    requires i < |marks| && marks[i]
    ensures E.CountMarks(marks) > 0
    decreases |marks|
  {
    if i < |marks| - 1 { MarkedCounts(marks[..|marks| - 1], i); }
  }

  /** What lives on was kept, or hangs below a suspect; `mid` is the state after the scan, in which
      there was none. */
  ghost predicate Leftover(e: Engine, mid: Engine, e': Engine)
    requires e.Sized() && mid.Sized() && e'.Sized() && |mid.tab| == |e'.tab|
  {
    forall u: nat :: e'.Live(u) && u !in Kept(e) ==> BelowSuspect(mid, e', u)
  }

  /** The zero sweep spares every set of cells that feed each other. */
  ghost predicate ZeroSwept(e: Engine, first: Engine) {
    Consistent(first) && E.Shrunk(e, first) && SparesFed(e, first)
  }

  /** Every orphaned component a suspect reached after the zero sweep is gone, and what lives on without
      being kept hangs below a suspect that the last zero sweep has made. */
  ghost predicate CyclesSwept(e: Engine, first: Engine, mid: Engine, e': Engine) {
    && e.Sized() && first.Sized() && OrphansGone(first, e')
    && E.Shrunk(mid, e') && Leftover(e, mid, e')
  }

  ghost predicate BelowSuspect(mid: Engine, e': Engine, u: nat)
    requires mid.Sized() && e'.Sized() && |mid.tab| == |e'.tab|
  {
    exists s: nat :: s < |e'.tab| && e'.suspectMark[s] && !(mid.Live(s) && mid.suspectMark[s] && mid.TotalOf(s) > 0) && Reach(e'.G(), s, u)
  }

  /** The engine inline on the machine's thread, accounting over the machine's own heap. */
  class AarcBackend {
    const store: ObjectStore
    const engine: E.CollectionEngine
    const due: (nat, nat) -> bool
    var opsSinceCycle: nat
    // whether the last barrier call scanned for cycles, and how many suspects its zero sweep left
    ghost var scanned: bool
    ghost var suspects: nat
    ghost var roots: multiset<nat>
    ghost var edges: seq<multiset<nat>>

    ghost function Mem(): V.Memory
      reads this, store
    {
      V.Memory(store.objs, roots, edges)
    }

    /** The engine is between messages with no zero candidate pending, and its rows are the machine's
        memory. */
    ghost predicate Valid()
      reads this, store, engine, engine.detector
    {
      && Tracks(Mem()) && engine.zeroStack == []
      && store.Valid() && 0 < store.cap <= |store.objs|
    }

    ghost predicate Tracks(m: V.Memory)
      reads engine, engine.detector
    {
      engine.Valid() && Settled(engine.View()) && Reflects(engine.View(), m)
    }

    /** The slot space has been reserved, so the heap will not outgrow the table. */
    constructor (store: ObjectStore, due: (nat, nat) -> bool)
      requires store.Valid() && 0 < store.cap <= |store.objs| < UNVISITED
      requires forall i :: 0 <= i < |store.objs| ==> store.objs[i] == V.DEAD
      ensures this.store == store && Valid() && fresh(engine) && fresh(engine.detector)
      ensures Mem() == V.Memory(store.objs, multiset{}, seq(|store.objs|, _ => multiset{}))
    {
      this.store, this.due := store, due;
      engine := new E.CollectionEngine(|store.objs|);
      opsSinceCycle := 0;
      roots, edges := multiset{}, seq(|store.objs|, _ => multiset{});
      new;
      InitSettled(|store.objs|);
      forall i: nat | i < |engine.tab| ensures ReflectsAt(engine.View(), Mem(), i) {}
    }

    /** The policy decided on the suspects that were left, and its counter went on or restarted. */
    ghost predicate Decided(ops: nat)
      reads this
    {
      && (scanned <==> suspects > 0 && due(suspects, ops + 1))
      && opsSinceCycle == if scanned then 0 else ops + 1
    }

    /** Every stranded component with a suspect of `e` in it was due for a scan, and is gone if there
        was one. */
    ghost predicate Frees(e: Engine, m: V.Memory, f: set<nat>)
      requires e.Sized()
      reads this
    {
      forall c: set<nat> :: Stranded(m, c) && Suspected(e, c) ==> suspects > 0 && (scanned ==> c <= f)
    }

    /** And every one with `h` in it, which has just lost a reference. */
    ghost predicate FreesWith(h: nat, m: V.Memory, f: set<nat>)
      reads this
    {
      forall c: set<nat> :: Stranded(m, c) && h in c ==> suspects > 0 && (scanned ==> c <= f)
    }

    /** The eager zero sweep, and, when the policy asks for it, the cycle scan and a zero sweep of what
        that left: then every orphaned component a suspect reached is gone, and only what the second
        zero sweep made a suspect can still hold garbage. */
    method Collect() returns (ghost first: Engine, ghost mid: Engine)
      requires engine.Valid() && Settled(engine.View())
      modifies this`opsSinceCycle, this`scanned, this`suspects, engine, engine.detector
      ensures engine.Valid() && Settled(engine.View()) && Collects(old(engine.View()), engine.View()) && engine.zeroStack == []
      ensures ZeroSwept(old(engine.View()), first) && suspects == E.CountMarks(first.suspectMark) && Decided(old(opsSinceCycle))
      ensures if scanned then CyclesSwept(old(engine.View()), first, mid, engine.View()) else engine.View() == first
    {
      ghost var e := engine.View();
      ghost var kept, spared := Kept(e), Spared(e);
      SweepStarts(e);
      opsSinceCycle := opsSinceCycle + 1;
      SweepFirst(e, kept, spared);
      first, mid := engine.View(), engine.View();
      suspects, scanned := engine.activeSuspects, false;
      if engine.activeSuspects > 0 && due(engine.activeSuspects, opsSinceCycle) {
        mid := Scan(e, first, kept, spared);
        opsSinceCycle := 0;
        scanned := true;
      }
      CollectedInStep(e, engine.View());
    }

    method SweepFirst(ghost e: Engine, ghost kept: set<nat>, ghost spared: set<nat>)
      requires engine.Valid() && engine.View() == e && Safe(e, kept, spared) && Progressing(e, kept)
      modifies engine
      ensures engine.Valid() && Safe(engine.View(), kept, spared) && Progressing(engine.View(), kept)
      ensures ZeroSwept(e, engine.View()) && engine.zeroStack == []
    {
      engine.SweepZero(kept, spared);
    }

    /** Cycle passes, and a zero sweep of what they left. */
    method Scan(ghost e: Engine, ghost first: Engine, ghost kept: set<nat>, ghost spared: set<nat>) returns (ghost mid: Engine)
      requires engine.Valid() && engine.View() == first && engine.zeroStack == [] && E.Shrunk(e, first) && kept == Kept(e)
      requires Safe(first, kept, spared) && Progressing(first, kept)
      modifies engine, engine.detector
      ensures engine.Valid() && Safe(engine.View(), kept, spared) && engine.zeroStack == [] && E.Shrunk(e, engine.View())
      ensures CyclesSwept(e, first, mid, engine.View())
    {
      assert E.ZerosAtZero(first);
      engine.CollectCycles(kept, spared);
      mid := engine.View();
      E.ShrunkTwice(e, first, mid);
      engine.SweepZero(kept, spared);
      E.ShrunkTwice(e, mid, engine.View());
      E.OrphansDead(first, mid, engine.View());
      LeftBySuspects(e, mid, engine.View());
    }

    /** After a barrier call on memory `m`: collect, and hand dead payloads back to the heap. */
    method AfterOp(ghost m: V.Memory) returns (ghost f: set<nat>)
      requires Tracks(m) && store.Valid() && 0 < store.cap <= |store.objs| && m == Mem()
      modifies this, store, engine, engine.detector
      ensures Valid() && V.Collectible(m, f) && Mem() == V.Freed(m, f) && Decided(old(opsSinceCycle))
      ensures Frees(old(engine.View()), m, f)
    {
      ghost var e := engine.View();
      ghost var first, mid := Collect();
      f := Gone(e, engine.View());
      CollectsFrees(e, engine.View(), m);
      AllStrandedFreed(e, m, first, engine.View());
      HandBack(e, m, f);
    }

    method HandBack(ghost e: Engine, ghost m: V.Memory, ghost f: set<nat>)
      requires store.Valid() && Mem() == m && Reflects(e, m) && f == Gone(e, engine.View()) && |engine.pool| == |e.pool|
      modifies this`edges, store
      ensures store.Valid() && Mem() == V.Freed(m, f) && |store.objs| == |old(store.objs)|
    {
      ghost var m' := V.Freed(m, f);
      forall i: nat | i < |m.heap| ensures i in f <==> m.heap[i].live && !engine.pool[i].live { assert ReflectsAt(e, m, i); }
      ReleasePayloads(m.heap, f);
      edges := m'.edges;
      assert store.objs == m'.heap;
    }

    /** Every slot the engine has freed loses its payload. */
    method ReleasePayloads(ghost heap: seq<V.Obj>, ghost f: set<nat>)
      requires store.Valid() && store.objs == heap && |engine.pool| == |heap|
      requires forall i: nat :: i < |heap| ==> (i in f <==> heap[i].live && !engine.pool[i].live)
      modifies store
      ensures store.Valid() && |store.objs| == |heap|
      ensures forall i: nat :: i < |heap| ==> store.objs[i] == if i in f then V.DEAD else heap[i]
    {
      for i := 0 to |engine.pool|
        invariant store.Valid() && |store.objs| == |heap|
        invariant forall j: nat :: j < |heap| ==> store.objs[j] == if j < i && j in f then V.DEAD else heap[j]
      {
        if store.objs[i].live && !engine.pool[i].live { store.Free(i); }
      }
    }

    method RootAdd(h: nat) returns (ghost f: set<nat>)
      requires Valid() && V.Live(Mem(), h)
      modifies this, store, engine, engine.detector
      ensures Valid()
      ensures var m := old(Mem()).(roots := old(roots) + multiset{h}); V.Collectible(m, f) && Mem() == V.Freed(m, f)
      ensures Decided(old(opsSinceCycle))
    {
      ghost var e := engine.View();
      assert ReflectsAt(e, Mem(), h);
      RootAddReflects(e, Mem(), h);
      ProcessKeepsSettled(e, Msg.RootAdd(Current(e.pool, h), 1));
      engine.Process(Msg.RootAdd(Current(engine.pool, h), 1));
      roots := roots + multiset{h};
      f := AfterOp(Mem());
    }

    method RootRemove(h: nat) returns (ghost f: set<nat>)
      requires Valid() && V.Live(Mem(), h) && h in roots
      modifies this, store, engine, engine.detector
      ensures Valid()
      ensures var m := old(Mem()).(roots := old(roots) - multiset{h}); V.Collectible(m, f) && Mem() == V.Freed(m, f) && FreesWith(h, m, f)
      ensures Decided(old(opsSinceCycle))
    {
      ghost var e := engine.View();
      assert ReflectsAt(e, Mem(), h);
      RootRemoveReflects(e, Mem(), h);
      ProcessKeepsSettled(e, Msg.RootRemove(Current(e.pool, h), 1));
      engine.Process(Msg.RootRemove(Current(engine.pool, h), 1));
      roots := roots - multiset{h};
      ghost var m := Mem();
      f := AfterOp(m);
      forall c: set<nat> | Stranded(m, c) && h in c ensures suspects > 0 && (scanned ==> c <= f) {
        RootRemoveSuspects(e, m, h, c);
      }
    }

    method EdgeAdd(b: nat, t: nat) returns (ghost f: set<nat>)
      requires Valid() && V.Live(Mem(), b) && V.Live(Mem(), t)
      modifies this, store, engine, engine.detector
      ensures Valid() && b < |old(edges)|
      ensures var m := V.Edged(old(Mem()), b, t); V.Collectible(m, f) && Mem() == V.Freed(m, f)
      ensures Decided(old(opsSinceCycle))
    {
      ghost var e := engine.View();
      assert ReflectsAt(e, Mem(), b) && ReflectsAt(e, Mem(), t);
      EdgeAddReflects(e, Mem(), b, t);
      ProcessKeepsSettled(e, Msg.EdgeAdd(Current(e.pool, b), Current(e.pool, t)));
      engine.Process(Msg.EdgeAdd(Current(engine.pool, b), Current(engine.pool, t)));
      edges := edges[b := edges[b] + multiset{t}];
      f := AfterOp(Mem());
    }

    method EdgeRemove(b: nat, t: nat) returns (ghost f: set<nat>)
      requires Valid() && V.Live(Mem(), b) && b < |edges| && t in edges[b]
      modifies this, store, engine, engine.detector
      ensures Valid() && b < |old(edges)|
      ensures var m := V.Unedged(old(Mem()), b, t); V.Collectible(m, f) && Mem() == V.Freed(m, f) && FreesWith(t, m, f)
      ensures Decided(old(opsSinceCycle))
    {
      ghost var e := engine.View();
      assert ReflectsAt(e, Mem(), b);
      EdgeRemoveReflects(e, Mem(), b, t);
      ProcessKeepsSettled(e, Msg.EdgeRemove(Current(e.pool, b), Current(e.pool, t)));
      engine.Process(Msg.EdgeRemove(Current(engine.pool, b), Current(engine.pool, t)));
      edges := edges[b := edges[b] - multiset{t}];
      ghost var m := Mem();
      f := AfterOp(m);
      forall c: set<nat> | Stranded(m, c) && t in c ensures suspects > 0 && (scanned ==> c <= f) {
        EdgeRemoveSuspects(e, m, b, t, c);
      }
    }

    /** The machine writes a cell of its heap; the engine keeps no payloads. */
    method CellWritten(b: nat, k: nat, v: V.Val)
      requires Valid() && V.Live(Mem(), b) && k < |store.objs[b].cells|
      modifies store
      ensures Valid() && Mem() == V.Stored(old(Mem()), b, k, v)
    {
      StoreReflects(engine.View(), Mem(), b, k, v);
      store.Write(b, k, v);
    }

    /** The heap has given out slot `h`: its row is empty, and the engine is not asked to collect. */
    method OnAlloc(h: nat, n: nat, ghost m: V.Memory)
      requires Tracks(m) && engine.zeroStack == [] && store.Valid() && 0 < store.cap <= |store.objs|
      requires V.Allocatable(m.heap, h) && h < |m.heap| && h !in m.roots
      requires store.objs == V.AllocatedIn(m.heap, h, n) && roots == m.roots && edges == m.edges
      modifies this, engine
      ensures Valid() && Mem() == V.Allocated(m, h, n)
    {
      AllocReflects(engine.View(), m, h, n);
      ActivateKeepsSettled(engine.View(), h);
      engine.Activate(h);
      edges := V.Allocated(m, h, n).edges;
    }
  }
}
