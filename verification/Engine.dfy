/** The collection engine object: messages, the zero sweep, the cycle pass and the full sweep. */
module CollectionEngines {
  import E = EngineState
  import R = Reclaiming
  import opened Graphs
  import opened Cells
  import opened EngineState
  import opened Coverage
  import opened Sweeping
  import opened Reclaiming
  import opened Knots
  import opened Tarjan
  import opened CycleDetectors
  import opened ExternalCounts
  import opened CyclePass

  // ---- what a sweep leaves alone --------------------------------------------------------------

  /** Nothing is allocated, and a surviving cell keeps its generation, roots and records. */
  ghost predicate Shrunk(e: Engine, e': Engine) {
    && e.Sized() && e'.Sized() && |e'.tab| == |e.tab|
    && forall i: nat :: i < |e.tab| ==> Survives(e, e', i)
  }

  ghost predicate Survives(e: Engine, e': Engine, i: nat)
    requires e.Sized() && e'.Sized() && |e'.tab| == |e.tab| && i < |e.tab|
  {
    e'.pool[i].live ==>
      && e'.pool[i] == e.pool[i]
      && e'.tab[i].root == e.tab[i].root && e'.tab[i].outs == e.tab[i].outs
  }

  ghost function LiveSet(e: Engine): set<nat> {
    set i: nat | i < |e.pool| && e.pool[i].live
  }

  /** What is freed moves to the next generation, or stays at the last one; nothing else changes. */
  ghost predicate TurnedOver(pool: seq<Slot>, pool': seq<Slot>) {
    |pool'| == |pool| && forall i: nat :: i < |pool| ==> TurnedSlot(pool[i], pool'[i])
  }

  predicate TurnedSlot(a: Slot, b: Slot) { b == a || (a.live && b == Freed(a)) }

  /** The slots that were freed at their last generation. */
  ghost function LastFreed(pool: seq<Slot>, pool': seq<Slot>): set<nat> {
    set i: nat | i < |pool| && i < |pool'| && pool[i].live && !pool'[i].live && pool[i].gen == MAX_GEN
  }

  lemma TurnedOverTwice(a: seq<Slot>, b: seq<Slot>, c: seq<Slot>)
    requires TurnedOver(a, b) && TurnedOver(b, c)
    ensures TurnedOver(a, c)
  {
    forall i: nat | i < |a| ensures TurnedSlot(a[i], c[i]) { assert TurnedSlot(a[i], b[i]) && TurnedSlot(b[i], c[i]); }
  }

  lemma ReclaimedTurns(e: Engine, e': Engine, c: set<nat>)
    requires Reclaimed(e, e', c)
    ensures TurnedOver(e.pool, e'.pool)
  {
    forall i: nat | i < |e.pool| ensures TurnedSlot(e.pool[i], e'.pool[i]) {
      if i !in c { assert SameCell(e, e', i); }
    }
  }

  lemma ShrunkTwice(e: Engine, e1: Engine, e2: Engine)
    requires Shrunk(e, e1) && Shrunk(e1, e2)
    ensures Shrunk(e, e2)
  {
    forall i: nat | i < |e.tab| ensures Survives(e, e2, i) {
      assert Survives(e, e1, i) && Survives(e1, e2, i);
    }
  }

  /** Both: survivors untouched, freed slots at their next generation. */
  ghost predicate Thinned(e: Engine, e': Engine) { Shrunk(e, e') && TurnedOver(e.pool, e'.pool) }

  lemma ThinnedTwice(e: Engine, e1: Engine, e2: Engine)
    requires Thinned(e, e1) && Thinned(e1, e2)
    ensures Thinned(e, e2)
  {
    ShrunkTwice(e, e1, e2);
    TurnedOverTwice(e.pool, e1.pool, e2.pool);
  }

  lemma ReclaimedShrinks(e: Engine, e': Engine, c: set<nat>)
    requires Reclaimed(e, e', c)
    ensures Thinned(e, e') && LiveSet(e') <= LiveSet(e)
    ensures c != {} ==> |LiveSet(e')| < |LiveSet(e)|
  {
    ReclaimedTurns(e, e', c);
    forall i: nat | i < |e.tab| ensures Survives(e, e', i) {
      if i !in c { assert SameCell(e, e', i); }
    }
    if c != {} {
      var i :| i in c;
      ProperSubsetIsSmaller(LiveSet(e'), LiveSet(e), i);
    }
  }

  lemma ShrunkLive(e: Engine, e': Engine)
    requires Shrunk(e, e')
    ensures LiveSet(e') <= LiveSet(e) && |LiveSet(e')| <= |LiveSet(e)|
  {
    forall i | i in LiveSet(e') ensures i in LiveSet(e) { assert Survives(e, e', i); }
    assert LiveSet(e) == LiveSet(e') + (LiveSet(e) - LiveSet(e'));
  }

  // ---- popping a zero candidate ---------------------------------------------------------------

  function PopZero(e: Engine): Engine
    requires e.Sized() && e.zeroStack != [] && e.zeroStack[|e.zeroStack| - 1] < |e.tab|
  {
    e.(zeroMark := e.zeroMark[e.zeroStack[|e.zeroStack| - 1] := false],
       zeroStack := e.zeroStack[..|e.zeroStack| - 1])
  }

  lemma PopZeroMarks(e: Engine)
    requires e.Sized() && e.zeroStack != [] && ZeroMarksOk(e)
    ensures ZeroMarksOk(PopZero(e))
  {
    var m := |e.zeroStack| - 1;
    var i := e.zeroStack[m];
    assert e.zeroStack == e.zeroStack[..m] + [i];
    forall j | 0 <= j < |e.tab| ensures PopZero(e).zeroMark[j] <==> j in PopZero(e).zeroStack {
      assert e.zeroMark[j] <==> j in e.zeroStack;
    }
  }

  /** A candidate that was referenced again is dropped; nothing else changes. */
  lemma PopRevived(e: Engine, kept: set<nat>, spared: set<nat>)
    requires Safe(e, kept, spared) && Progressing(e, kept) && e.zeroStack != []
    requires e.TotalOf(e.zeroStack[|e.zeroStack| - 1]) != 0
    ensures Safe(PopZero(e), kept, spared) && Progressing(PopZero(e), kept)
    ensures Thinned(e, PopZero(e)) && SparesFed(e, PopZero(e))
  {
    var e' := PopZero(e);
    PopZeroMarks(e);
    SameSpares(e, e');
    TotalsNonNegative(e, e.zeroStack[|e.zeroStack| - 1]);
    assert Consistent(e');
    forall i: nat ensures Candidate(e', i) <==> Candidate(e, i) {}
    forall i: nat ensures Rooted(e', i) <==> Rooted(e, i) {}
    forall k: nat ensures Supported(e', kept, spared, k) {
      assert Supported(e, kept, spared, k);
      if k in kept {
        var a: nat :| a in kept && (Rooted(e, a) || a in spared) && Reach(e.G(), a, k);
        assert Rooted(e, a) ==> Rooted(e', a);
      }
    }
    forall u: nat ensures Progresses(e', kept, u) {
      assert Progresses(e, kept, u);
      if e.Live(u) && u !in kept {
        var m: nat :| Candidate(e, m) && Reach(e.G(), m, u);
        PendingVia(e', m, u);
      }
    }
    forall i: nat | i < |e.tab| ensures Survives(e, e', i) {}
  }

  lemma PopReclaimed(e: Engine)
    requires Consistent(e) && e.zeroStack != []
    requires e.TotalOf(e.zeroStack[|e.zeroStack| - 1]) == 0
    ensures e.zeroStack[|e.zeroStack| - 1] in e.zeroStack
    ensures Reclaimed(e, ReclaimCell(PopZero(e), e.zeroStack[|e.zeroStack| - 1]), {e.zeroStack[|e.zeroStack| - 1]})
  {
    var i := e.zeroStack[|e.zeroStack| - 1];
    var e1 := PopZero(e);
    var e2 := ClearSuspect(e1, i);
    PopZeroMarks(e);
    assert i in e.zeroStack;
    PopConsistent(e);
    ReclaimCellEffect(e2, i);
    ClearedTwice(e1, i);
    ReclaimedFrom(e, e2, ReclaimCell(e1, i), {i});
  }

  lemma PopConsistent(e: Engine)
    requires Consistent(e) && e.zeroStack != [] && e.zeroStack[|e.zeroStack| - 1] < |e.tab| && ZeroMarksOk(PopZero(e))
    requires e.TotalOf(e.zeroStack[|e.zeroStack| - 1]) == 0
    ensures Consistent(ClearSuspect(PopZero(e), e.zeroStack[|e.zeroStack| - 1]))
  {
  }

  lemma ClearedTwice(e: Engine, i: nat)
    requires e.Sized() && i < |e.tab|
    ensures ReclaimCell(ClearSuspect(e, i), i) == ReclaimCell(e, i)
  {
    assert ClearSuspect(ClearSuspect(e, i), i) == ClearSuspect(e, i);
  }

  lemma PopDead(e: Engine, kept: set<nat>, spared: set<nat>)
    requires Safe(e, kept, spared) && Progressing(e, kept) && e.zeroStack != []
    requires e.TotalOf(e.zeroStack[|e.zeroStack| - 1]) == 0
    ensures var e' := ReclaimCell(PopZero(e), e.zeroStack[|e.zeroStack| - 1]);
      && Safe(e', kept, spared) && Progressing(e', kept)
      && Thinned(e, e') && SparesFed(e, e') && |LiveSet(e')| < |LiveSet(e)|
  {
    var i := e.zeroStack[|e.zeroStack| - 1];
    PopReclaimed(e);
    var e' := ReclaimCell(PopZero(e), i);
    assert Candidate(e, i);
    ZeroStep(e, e', i, kept, spared);
    ReclaimedShrinks(e, e', {i});
    ZeroSparesFed(e, e', i);
  }

  lemma ZeroSparesFed(e: Engine, e': Engine, i: nat)
    requires Consistent(e) && Reclaimed(e, e', {i}) && e.TotalOf(i) == 0
    ensures SparesFed(e, e')
  {
    TotalsNonNegative(e, i);
    forall x | x in e.G() ensures x.1 != i { EdgeEnds(e.pool, e.tab, x.0, x.1); }
    ZeroSpares(e, e', i);
  }

  /** Some cells may be gone; if none is, there is no new suspect. */
  ghost predicate SweptSome(e: Engine, e': Engine) {
    && Thinned(e, e') && SparesFed(e, e')
    && (|LiveSet(e')| < |LiveSet(e)| || (e'.suspectStack == e.suspectStack && |LiveSet(e')| == |LiveSet(e)|))
  }

  // ---- the number of distinct suspects --------------------------------------------------------

  function CountMarks(marks: seq<bool>): nat {
    if marks == [] then 0 else CountMarks(marks[..|marks| - 1]) + if marks[|marks| - 1] then 1 else 0
  }

  lemma {:induction false} CountMarksUpdate(marks: seq<bool>, i: nat, b: bool)
    requires i < |marks|
    ensures CountMarks(marks[i := b]) ==
            CountMarks(marks) - (if marks[i] then 1 else 0) + (if b then 1 else 0)
    decreases |marks|
  {
    var m := |marks| - 1;
    if i == m {
      assert marks[i := b][..m] == marks[..m];
    } else {
      assert marks[i := b][..m] == marks[..m][i := b];
      CountMarksUpdate(marks[..m], i, b);
    }
  }

  lemma {:induction false} CountMarksNone(marks: seq<bool>)
    requires forall i :: 0 <= i < |marks| ==> !marks[i]
    ensures CountMarks(marks) == 0
    decreases |marks|
  {
    if marks != [] { CountMarksNone(marks[..|marks| - 1]); }
  }

  // ---- the engine object ----------------------------------------------------------------------

  class CollectionEngine {
    var pool: seq<Slot>
    var tab: seq<Row>
    var zeroMark: seq<bool>
    var suspectMark: seq<bool>
    var zeroStack: seq<nat>
    var suspectStack: seq<nat>
    var activeSuspects: nat
    const detector: CycleDetector

    ghost function View(): Engine
      reads this
    {
      Engine(pool, tab, zeroMark, suspectMark, zeroStack, suspectStack)
    }

    /** The suspect counter counts the suspect marks. */
    ghost predicate Sound()
      reads this
    {
      View().Sized() && |tab| < UNVISITED && activeSuspects == CountMarks(suspectMark)
    }

    /** Between operations the detector's scratch is clean. */
    ghost predicate Valid()
      reads this, detector
    {
      Sound() && Clean(detector.View(), |tab|)
    }

    constructor (capacity: nat)
      requires capacity < UNVISITED
      ensures Valid() && View() == Init(capacity) && fresh(detector)
    {
      pool := seq(capacity, _ => Slot(1, false));
      tab := seq(capacity, _ => EMPTY_ROW);
      zeroMark := seq(capacity, _ => false);
      suspectMark := seq(capacity, _ => false);
      zeroStack, suspectStack, activeSuspects := [], [], 0;
      detector := new CycleDetector(capacity);
      new;
      CountMarksNone(suspectMark);
    }

    // marks

    method MarkZero(i: nat)
      requires Sound() && i < |tab|
      modifies this
      ensures Sound() && View() == E.MarkZero(old(View()), i)
    {
      if !zeroMark[i] {
        zeroMark := zeroMark[i := true];
        zeroStack := zeroStack + [i];
      }
    }

    method SetSuspect(i: nat)
      requires Sound() && i < |tab|
      modifies this
      ensures Sound() && View() == E.SetSuspect(old(View()), i)
    {
      if !suspectMark[i] {
        CountMarksUpdate(suspectMark, i, true);
        suspectMark := suspectMark[i := true];
        activeSuspects := activeSuspects + 1;
        suspectStack := suspectStack + [i];
      }
    }

    method ClearSuspect(i: nat)
      requires Sound() && i < |tab|
      modifies this
      ensures Sound() && View() == E.ClearSuspect(old(View()), i)
    {
      if suspectMark[i] {
        CountMarksUpdate(suspectMark, i, false);
        suspectMark := suspectMark[i := false];
        activeSuspects := activeSuspects - 1;
      } else {
        assert suspectMark[i := false] == suspectMark;
      }
    }

    method Reconsider(i: nat)
      requires Sound() && i < |tab|
      modifies this
      ensures Sound() && View() == E.Reconsider(old(View()), i)
    {
      if tab[i].root + tab[i].edge == 0 {
        MarkZero(i);
      } else if tab[i].outs != [] {
        SetSuspect(i);
      }
    }

    method SubEdgeTo(i: nat)
      requires Sound() && i < |tab|
      modifies this
      ensures Sound() && View() == E.SubEdgeTo(old(View()), i)
    {
      if tab[i].edge > 0 {
        tab := tab[i := tab[i].(edge := tab[i].edge - 1)];
      }
    }

    method SetOuts(i: nat, outs: seq<Handle>)
      requires Sound() && i < |tab|
      modifies this
      ensures Sound() && View() == E.SetOuts(old(View()), i, outs)
    {
      tab := tab[i := tab[i].(outs := outs)];
    }

    /** A free slot is handed out. */
    method Activate(i: nat)
      requires Valid() && i < |tab| && !LiveAt(pool, i)
      modifies this
      ensures Valid() && View() == E.Activate(old(View()), i)
    {
      pool := pool[i := pool[i].(live := true)];
    }

    // messages

    method Process(m: Msg)
      requires Valid()
      modifies this
      ensures Valid() && View() == E.Process(old(View()), m)
    {
      match m
      case RootAdd(b, count) =>
        if Cells.Valid(pool, b) {
          tab := tab[b.index := tab[b.index].(root := tab[b.index].root + count)];
        }
      case RootRemove(b, count) => RemoveRoot(b, count);
      case RootCheck(b) => if Cells.Valid(pool, b) { Reconsider(b.index); }
      case EdgeAdd(a, b) => AddEdge(a, b);
      case EdgeRemove(a, b) => RemoveEdge(a, b);
      case Terminate =>
    }

    method AddEdge(a: Handle, b: Handle)
      requires Sound()
      modifies this
      ensures Sound() && View() == E.Process(old(View()), Msg.EdgeAdd(a, b))
    {
      if Cells.Valid(pool, a) && Cells.Valid(pool, b) {
        tab := tab[b.index := tab[b.index].(edge := tab[b.index].edge + 1)];
        SetOuts(a.index, [b] + tab[a.index].outs);
      }
    }

    method RemoveRoot(b: Handle, count: nat)
      requires Sound()
      modifies this
      ensures Sound() && View() == E.Process(old(View()), Msg.RootRemove(b, count))
    {
      if Cells.Valid(pool, b) {
        var r := tab[b.index].root;
        if r < count {
          tab := tab[b.index := tab[b.index].(root := 0)];
        } else {
          tab := tab[b.index := tab[b.index].(root := r - count)];
          Reconsider(b.index);
        }
      }
    }

    method RemoveEdge(a: Handle, b: Handle)
      requires Sound()
      modifies this
      ensures Sound() && View() == E.Process(old(View()), Msg.EdgeRemove(a, b))
    {
      if Cells.Valid(pool, a) {
        var outs := tab[a.index].outs;
        var k := FirstIndex(outs, b);
        if k < |outs| {
          SetOuts(a.index, Erase(outs, k));
          if Cells.Valid(pool, b) && tab[b.index].edge > 0 {
            SubEdgeTo(b.index);
            Reconsider(b.index);
          }
        }
      }
    }

    // reclaiming

    method Release(t: Handle, ghost inside: set<nat>)
      requires Sound() && Cells.Valid(pool, t) && t.index !in inside
      modifies this
      ensures Sound() && View() == ReleaseOne(old(View()), t, inside)
    {
      SubEdgeTo(t.index);
      Reconsider(t.index);
    }

    method FreeCell(i: nat)
      requires Sound() && i < |tab|
      modifies this
      ensures Sound() && View() == R.FreeCell(old(View()), i)
    {
      tab := tab[i := EMPTY_ROW];
      ClearSuspect(i);
      pool := pool[i := Freed(pool[i])];
    }

    method ReclaimCell(i: nat)
      requires Sound() && i < |tab|
      requires forall t :: t in tab[i].outs ==> Cells.Valid(pool, t) && t.index != i
      modifies this
      ensures Sound() && View() == R.ReclaimCell(old(View()), i)
    {
      ClearSuspect(i);
      var outs := tab[i].outs;
      ghost var e0 := View();
      for k := 0 to |outs|
        invariant Sound() && View() == R.Release(e0, outs[..k], {i})
      {
        var t := outs[k];
        assert outs[..k + 1] == outs[..k] + [t];
        assert t in outs;
        Release(t, {i});
      }
      assert outs[..|outs|] == outs;
      FreeCell(i);
    }

    /** Free every marked cell whose count is still zero, cascading through its records. */
    method SweepZero(ghost kept: set<nat>, ghost spared: set<nat>)
      requires Valid() && Safe(View(), kept, spared) && Progressing(View(), kept)
      modifies this
      ensures Valid() && Safe(View(), kept, spared) && Progressing(View(), kept)
      ensures zeroStack == [] && Thinned(old(View()), View()) && SparesFed(old(View()), View())
      ensures |LiveSet(View())| < old(|LiveSet(View())|) || suspectStack == old(suspectStack)
    {
      ghost var e0 := View();
      SparesSelf(e0);
      while zeroStack != []
        invariant Valid() && Safe(View(), kept, spared) && Progressing(View(), kept) && SweptSome(e0, View())
        decreases |LiveSet(View())|, |zeroStack|
      {
        SweepTop(e0, kept, spared);
      }
    }

    method SweepTop(ghost e0: Engine, ghost kept: set<nat>, ghost spared: set<nat>)
      requires Valid() && Safe(View(), kept, spared) && Progressing(View(), kept) && SweptSome(e0, View()) && zeroStack != []
      modifies this
      ensures Valid() && Safe(View(), kept, spared) && Progressing(View(), kept) && SweptSome(e0, View())
      ensures |LiveSet(View())| < |LiveSet(old(View()))| ||
              (|LiveSet(View())| == |LiveSet(old(View()))| && |zeroStack| < |old(zeroStack)|)
    {
      ghost var e := View();
      var i := zeroStack[|zeroStack| - 1];
      zeroStack := zeroStack[..|zeroStack| - 1];
      zeroMark := zeroMark[i := false];
      assert View() == PopZero(e);
      SweepOne(i, e, kept, spared);
      ThinnedTwice(e0, e, View());
      SparesFedTwice(e0, e, View());
    }

    /** Slot `i` has just been popped: free it if its count is still zero. */
    method SweepOne(i: nat, ghost e: Engine, ghost kept: set<nat>, ghost spared: set<nat>)
      requires Valid() && Safe(e, kept, spared) && Progressing(e, kept) && e.zeroStack != []
      requires i == e.zeroStack[|e.zeroStack| - 1] && i < |e.tab| && View() == PopZero(e)
      modifies this
      ensures Valid() && Safe(View(), kept, spared) && Progressing(View(), kept) && Thinned(e, View()) && SparesFed(e, View())
      ensures |LiveSet(View())| < |LiveSet(e)| || View() == PopZero(e)
    {
      if LiveAt(pool, i) && tab[i].root + tab[i].edge == 0 {
        ZeroTargets(e, i);
        ReclaimCell(i);
        PopDead(e, kept, spared);
      } else {
        ZeroIsLive(e, i);
        PopRevived(e, kept, spared);
      }
    }

    // cyclic garbage

    /** The suspects to scan, taken off the lazy stack with stale entries dropped. */
    method TakeSuspects() returns (roots: seq<nat>)
      requires Sound() && Consistent(View())
      modifies this
      ensures Sound() && View() == old(View()).(suspectStack := [])
      ensures SuspectRoots(old(View()), roots)
    {
      roots := [];
      for k := 0 to |suspectStack|
        invariant forall j :: 0 <= j < |roots| ==> roots[j] < |tab|
        invariant forall i: nat :: i in roots <==>
          i in suspectStack[..k] && i < |tab| && suspectMark[i] && pool[i].live && tab[i].root + tab[i].edge > 0
      {
        var i := suspectStack[k];
        assert suspectStack[..k + 1] == suspectStack[..k] + [i];
        if suspectMark[i] && LiveAt(pool, i) && tab[i].root + tab[i].edge > 0 {
          roots := roots + [i];
        }
      }
      assert suspectStack[..|suspectStack|] == suspectStack;
      suspectStack := [];
    }

    /** Add up root counts and edge counts per component. */
    method SumCounts(k: nat, vs: seq<nat>, scc: seq<nat>) returns (sumRoot: seq<int>, sumEdge: seq<int>)
      requires InRange(vs, |tab|) && |scc| == |tab|
      requires forall j :: 0 <= j < |vs| ==> scc[vs[j]] < k
      ensures |sumRoot| == |sumEdge| == k
      ensures forall s: nat :: s < k ==>
        sumRoot[s] == ListSum(RootOf(Heap(pool, tab)), vs, scc, s) &&
        sumEdge[s] == ListSum(EdgeOf(Heap(pool, tab)), vs, scc, s)
    {
      ghost var h := Heap(pool, tab);
      sumRoot := seq(k, _ => 0);
      sumEdge := seq(k, _ => 0);
      for j := 0 to |vs|
        invariant |sumRoot| == |sumEdge| == k
        invariant forall s: nat :: s < k ==> sumRoot[s] == ListSum(RootOf(h), vs[..j], scc, s)
        invariant forall s: nat :: s < k ==> sumEdge[s] == ListSum(EdgeOf(h), vs[..j], scc, s)
      {
        var i := vs[j];
        var s := scc[i];
        assert vs[..j + 1][..j] == vs[..j];
        sumRoot := sumRoot[s := sumRoot[s] + tab[i].root];
        sumEdge := sumEdge[s := sumEdge[s] + tab[i].edge];
      }
      assert vs[..|vs|] == vs;
    }

    /** Count, per component, the records that stay inside it. */
    method SumInternal(k: nat, vs: seq<nat>, scc: seq<nat>) returns (internal: seq<int>)
      requires InRange(vs, |tab|) && |scc| == |tab| == |pool|
      requires forall j :: 0 <= j < |vs| ==> scc[vs[j]] < k
      ensures |internal| == k
      ensures forall s: nat :: s < k ==> internal[s] == ListSum(InternalOf(Heap(pool, tab), scc, s), vs, scc, s)
    {
      ghost var h := Heap(pool, tab);
      internal := seq(k, _ => 0);
      for j := 0 to |vs|
        invariant |internal| == k
        invariant forall s: nat :: s < k ==> internal[s] == ListSum(InternalOf(h, scc, s), vs[..j], scc, s)
      {
        var i := vs[j];
        assert vs[..j + 1][..j] == vs[..j];
        var n := CountInternal(tab[i].outs, scc, scc[i]);
        internal := internal[scc[i] := internal[scc[i]] + n];
      }
      assert vs[..|vs|] == vs;
    }

    method CountInternal(outs: seq<Handle>, scc: seq<nat>, s: nat) returns (n: nat)
      requires |pool| == |scc|
      ensures n == CountInto(pool, outs, scc, s)
    {
      n := 0;
      for j := 0 to |outs|
        invariant n == CountInto(pool, outs[..j], scc, s)
      {
        assert outs[..j + 1][..j] == outs[..j];
        if Cells.Valid(pool, outs[j]) && scc[outs[j].index] == s {
          n := n + 1;
        }
      }
      assert outs[..|outs|] == outs;
    }

    /** A component is reclaimed if it has no root and all its incoming edges are internal. */
    method Judge(k: nat, vs: seq<nat>, scc: seq<nat>) returns (doomed: seq<bool>)
      requires InRange(vs, |tab|) && |scc| == |tab| == |pool|
      requires forall j :: 0 <= j < |vs| ==> scc[vs[j]] < k
      ensures |doomed| == k
      ensures forall s: nat :: s < k ==> (doomed[s] <==>
        ListSum(RootOf(Heap(pool, tab)), vs, scc, s) == 0 &&
        ListSum(EdgeOf(Heap(pool, tab)), vs, scc, s) == ListSum(InternalOf(Heap(pool, tab), scc, s), vs, scc, s))
    {
      var sumRoot, sumEdge := SumCounts(k, vs, scc);
      var internal := SumInternal(k, vs, scc);
      doomed := seq(k, s requires 0 <= s < k && |sumRoot| == |sumEdge| == |internal| == k =>
                         sumRoot[s] == 0 && sumEdge[s] == internal[s]);
    }

    method ClearVisited(vs: seq<nat>)
      requires Sound() && InRange(vs, |tab|)
      modifies this
      ensures Sound() && View() == old(View()).(suspectMark := suspectMark)
      ensures forall i :: 0 <= i < |tab| ==> suspectMark[i] == (old(suspectMark)[i] && i !in vs)
    {
      for j := 0 to |vs|
        invariant Sound() && View() == old(View()).(suspectMark := suspectMark)
        invariant forall i :: 0 <= i < |tab| ==> suspectMark[i] == (old(suspectMark)[i] && i !in vs[..j])
      {
        assert vs[..j + 1] == vs[..j] + [vs[j]];
        ClearSuspect(vs[j]);
      }
      assert vs[..|vs|] == vs;
    }

    /** The listed live nodes, bucketed by component in one pass. */
    method Bucket(k: nat, vs: seq<nat>, scc: seq<nat>) returns (members: seq<seq<nat>>)
      requires InRange(vs, |tab|) && |scc| == |tab| == |pool| && Distinct(vs)
      requires forall j :: 0 <= j < |vs| ==> scc[vs[j]] < k && pool[vs[j]].live
      ensures |members| == k && forall s: nat :: s < k ==> MembersOf(vs, scc, s, members[s])
    {
      members := seq(k, _ => []);
      for j := 0 to |vs|
        invariant |members| == k
        invariant forall s: nat :: s < k ==> MembersOf(vs[..j], scc, s, members[s])
      {
        var i := vs[j];
        assert vs[..j + 1] == vs[..j] + [i];
        assert i !in vs[..j];
        ghost var before := members;
        if LiveAt(pool, i) {
          members := members[scc[i] := members[scc[i]] + [i]];
        }
        forall s: nat | s < k ensures MembersOf(vs[..j + 1], scc, s, members[s]) {
          assert MembersOf(vs[..j], scc, s, before[s]);
        }
      }
      assert vs[..|vs|] == vs;
    }

    /** Detach every member of a component, then free every member. */
    method ReclaimCycleComponent(ms: seq<nat>, scc: seq<nat>, s: nat)
      requires Sound() && InRange(ms, |tab|) && |scc| == |tab|
      requires forall k :: 0 <= k < |ms| ==> forall t :: t in tab[ms[k]].outs ==>
                 Cells.Valid(pool, t) && (t.index in Elems(ms) <==> scc[t.index] == s)
      requires Distinct(ms)
      modifies this
      ensures Sound() && View() == ReclaimComponent(old(View()), ms)
    {
      DetachMembers(ms, scc, s, Elems(ms));
      FreeMembers(ms);
    }

    method DetachMembers(ms: seq<nat>, scc: seq<nat>, s: nat, ghost c: set<nat>)
      requires Sound() && InRange(ms, |tab|) && |scc| == |tab| && Distinct(ms)
      requires forall k :: 0 <= k < |ms| ==> forall t :: t in tab[ms[k]].outs ==>
                 Cells.Valid(pool, t) && (t.index in c <==> scc[t.index] == s)
      modifies this
      ensures Sound() && View() == Detach(old(View()), ms, c)
    {
      ghost var e0 := View();
      for k := 0 to |ms|
        invariant Sound() && View() == Detach(e0, ms[..k], c)
        invariant forall j :: k <= j < |ms| ==> tab[ms[j]].outs == e0.tab[ms[j]].outs
      {
        assert ms[..k + 1][..k] == ms[..k];
        ghost var e1 := View();
        DetachMember(ms[k], scc, s, c);
        DetachOneOuts(e1, ms[k], c);
      }
      assert ms[..|ms|] == ms;
    }

    method FreeMembers(ms: seq<nat>)
      requires Sound() && InRange(ms, |tab|)
      modifies this
      ensures Sound() && View() == FreeAll(old(View()), ms)
    {
      for k := 0 to |ms|
        invariant Sound() && View() == FreeAll(old(View()), ms[..k])
      {
        assert ms[..k + 1][..k] == ms[..k];
        FreeCell(ms[k]);
      }
      assert ms[..|ms|] == ms;
    }

    method DetachMember(i: nat, scc: seq<nat>, s: nat, ghost c: set<nat>)
      requires Sound() && i < |tab| && |scc| == |tab|
      requires forall t :: t in tab[i].outs ==> Cells.Valid(pool, t) && (t.index in c <==> scc[t.index] == s)
      modifies this
      ensures Sound() && View() == DetachOne(old(View()), i, c)
    {
      var outs := tab[i].outs;
      for k := 0 to |outs|
        invariant Sound() && View() == R.Release(old(View()), outs[..k], c)
      {
        var t := outs[k];
        assert outs[..k + 1] == outs[..k] + [t];
        assert t in outs;
        if Cells.Valid(pool, t) && scc[t.index] != s {
          Release(t, c);
        }
      }
      assert outs[..|outs|] == outs;
      SetOuts(i, []);
    }

    /** Reclaim the doomed components one after the other. */
    method ReclaimMembers(ghost e: Engine, ghost e1: Engine, ghost vs: seq<nat>, scc: seq<nat>, ghost doomed: seq<bool>,
                          s: nat, ms: seq<nat>)
      requires Sound() && Judged(e, e1, vs, scc, doomed) && s < |doomed| && doomed[s] && MembersOf(vs, scc, s, ms)
      requires Reclaimed(e1, View(), Done(vs, scc, doomed, s))
      modifies this
      ensures Sound() && Reclaimed(e1, View(), Done(vs, scc, doomed, s + 1))
    {
      MembersReclaimable(e, e1, View(), vs, scc, doomed, s, ms);
      ComponentReclaimed(e, e1, View(), vs, scc, doomed, s, ms);
      ReclaimCycleComponent(ms, scc, s);
    }

    method ReclaimDoomed(ghost e: Engine, vs: seq<nat>, scc: seq<nat>, doomed: seq<bool>) returns (any: bool)
      requires Sound() && Judged(e, View(), vs, scc, doomed)
      requires forall s: nat :: s < |doomed| ==> UsedId(vs, scc, s)
      modifies this
      ensures Sound() && Reclaimed(old(View()), View(), Done(vs, scc, doomed, |doomed|))
      ensures any <==> Done(vs, scc, doomed, |doomed|) != {}
      ensures !any ==> View() == old(View())
    {
      ghost var e1 := View();
      forall j | 0 <= j < |vs| ensures scc[vs[j]] < |doomed| && pool[vs[j]].live {
        assert vs[j] in Elems(vs);
      }
      var members := Bucket(|doomed|, vs, scc);
      any := false;
      ReclaimedNothing(e1);
      assert Done(vs, scc, doomed, 0) == {};
      for s := 0 to |doomed|
        invariant Sound() && Reclaimed(e1, View(), Done(vs, scc, doomed, s))
        invariant any <==> Done(vs, scc, doomed, s) != {}
        invariant !any ==> View() == e1
      {
        any := ReclaimNext(e, e1, vs, scc, doomed, s, members[s], any);
      }
    }

    /** Reclaim the members of component `s` if it is doomed. */
    method ReclaimNext(ghost e: Engine, ghost e1: Engine, ghost vs: seq<nat>, scc: seq<nat>, doomed: seq<bool>,
                       s: nat, ms: seq<nat>, any0: bool) returns (any: bool)
      requires Sound() && Judged(e, e1, vs, scc, doomed) && s < |doomed| && MembersOf(vs, scc, s, ms)
      requires Reclaimed(e1, View(), Done(vs, scc, doomed, s))
      requires any0 <==> Done(vs, scc, doomed, s) != {}
      requires !any0 ==> View() == e1
      modifies this
      ensures Sound() && Reclaimed(e1, View(), Done(vs, scc, doomed, s + 1))
      ensures any <==> Done(vs, scc, doomed, s + 1) != {}
      ensures !any ==> View() == e1
    {
      DoneGrows(vs, scc, doomed, s, ms);
      any := any0;
      if doomed[s] && ms != [] {
        ReclaimMembers(e, e1, vs, scc, doomed, s, ms);
        any := true;
      }
    }

    /** One scan and reclaim pass; true if any cell was freed. */
    method CollectCyclePass(ghost kept: set<nat>, ghost spared: set<nat>) returns (any: bool)
      requires Valid() && Safe(View(), kept, spared) && Progressing(View(), kept) && ZerosAtZero(View())
      modifies this, detector
      ensures Valid() && Safe(View(), kept, spared) && Progressing(View(), kept) && ZerosAtZero(View())
      ensures Thinned(old(View()), View())
      ensures if any then |LiveSet(View())| < old(|LiveSet(View())|) else suspectStack == []
      ensures !any ==> pool == old(pool)
      ensures OrphansGone(old(View()), View())
    {
      ghost var e := View();
      var roots := TakeSuspects();
      if roots == [] {
        PassWithoutRoots(e, View(), kept, spared, roots);
        return false;
      }
      var k := detector.FindComponents(Heap(pool, tab), roots);
      var vs, scc := detector.visited, detector.scc;
      VisitedIsScan(e, roots, k, vs, scc);
      var doomed := Judge(k, vs, scc);
      ClearVisited(vs);
      ghost var e1 := View();
      PassJudged(e, e1, roots, k, vs, scc, doomed);
      any := ReclaimDoomed(e, vs, scc, doomed);
      detector.Release(vs);
      PassDone(e, e1, View(), vs, scc, doomed, kept, spared);
    }

    /** Scan until a pass frees nothing. */
    method CollectCycles(ghost kept: set<nat>, ghost spared: set<nat>)
      requires Valid() && Safe(View(), kept, spared) && Progressing(View(), kept) && ZerosAtZero(View())
      modifies this, detector
      ensures Valid() && Safe(View(), kept, spared) && Progressing(View(), kept) && ZerosAtZero(View())
      ensures Thinned(old(View()), View()) && suspectStack == [] && OrphansGone(old(View()), View())
    {
      var any := true;
      while any
        invariant Valid() && Safe(View(), kept, spared) && Progressing(View(), kept) && ZerosAtZero(View())
        invariant Thinned(old(View()), View()) && (!any ==> suspectStack == [])
        invariant OrphansGone(old(View()), View()) || (any && View() == old(View()))
        decreases |LiveSet(View())|, if any then 1 else 0
      {
        ghost var e := View();
        any := CollectCyclePass(kept, spared);
        ThinnedTwice(old(View()), e, View());
        ShrunkLive(e, View());
        OrphansStayGone(old(View()), e, View());
      }
    }

    /** Collect at a drain point.  The live cells afterwards are exactly the ones an anchor of the
        state before reaches, every survivor is untouched, and no candidate is left. */
    method Sweep()
      requires Valid() && Settled(View())
      modifies this, detector
      ensures Valid() && Swept(old(View()), View()) && activeSuspects == 0 && TurnedOver(old(pool), pool)
    {
      ghost var kept, spared := Kept(View()), Spared(View());
      SweepStarts(View());
      ghost var e := View();
      while true
        invariant Valid() && Safe(View(), kept, spared) && Progressing(View(), kept)
        invariant Thinned(e, View())
        decreases |LiveSet(View())|, |suspectStack|
      {
        ghost var e0 := View();
        SweepZero(kept, spared);
        ghost var e1 := View();
        ThinnedTwice(e, e0, e1);
        ShrunkLive(e0, e1);
        if suspectStack == [] { break; }
        assert ZerosAtZero(e1);
        CollectCycles(kept, spared);
        ThinnedTwice(e, e1, View());
        ShrunkLive(e1, View());
      }
      SweepEnds(View(), kept, spared);
      CountMarksNone(suspectMark);
    }
  }

  /** The outcome of a sweep. */
  ghost predicate Swept(e: Engine, e': Engine) {
    && Shrunk(e, e') && Settled(e')
    && (forall u: nat :: e'.Live(u) <==> u in Kept(e))
    && e'.zeroStack == [] && e'.suspectStack == []
    && (forall i :: 0 <= i < |e'.tab| ==> !e'.zeroMark[i] && !e'.suspectMark[i])
  }

  /** Within a sweep a zero mark means a zero count. */
  ghost predicate ZerosAtZero(e: Engine)
    requires e.Sized()
  {
    forall i: nat :: i < |e.tab| && e.zeroMark[i] ==> e.TotalOf(i) == 0
  }

  lemma ReclaimedZeros(e: Engine, e': Engine, c: set<nat>)
    requires Reclaimed(e, e', c) && Consistent(e) && ZerosAtZero(e)
    ensures ZerosAtZero(e')
  {
    forall i: nat | i < |e.tab| && e'.zeroMark[i] ensures e'.TotalOf(i) == 0 {
      assert i !in c;
      assert SameCell(e, e', i);
      TotalsNonNegative(e', i);
      if e.zeroMark[i] { ReclaimedCounts(e, e', c, i); }
    }
  }

  lemma OrphansStayGone(e: Engine, e1: Engine, e2: Engine)
    requires e.Sized() && Shrunk(e1, e2) && (OrphansGone(e, e1) || e1 == e) && OrphansGone(e1, e2)
    ensures OrphansGone(e, e2)
  {
    forall u: nat | Scannable(e, u) && Orphan(e, u) ensures !e2.Live(u) {
      assert u < |e1.tab| ==> Survives(e1, e2, u);
    }
  }

  lemma ShrunkGraph(e: Engine, e1: Engine)
    requires TableOk(e.pool, e.tab) && TableOk(e1.pool, e1.tab) && Shrunk(e, e1)
    ensures e1.G() <= e.G()
  {
    forall x | x in e1.G() ensures x in e.G() {
      EdgeEnds(e1.pool, e1.tab, x.0, x.1);
      assert Survives(e, e1, x.0) && Survives(e, e1, x.1);
      EdgeIff(e.pool, e.tab, x.0, x.1);
    }
  }

  lemma ShrunkInside(e: Engine, e1: Engine, c: set<nat>)
    requires TableOk(e.pool, e.tab) && TableOk(e1.pool, e1.tab) && Shrunk(e, e1) && forall i :: i in c ==> e1.Live(i)
    ensures forall x :: x in e.G() && x.0 in c && x.1 in c ==> x in e1.G()
  {
    forall x | x in e.G() && x.0 in c && x.1 in c ensures x in e1.G() {
      EdgeEnds(e.pool, e.tab, x.0, x.1);
      assert Survives(e, e1, x.0) && Survives(e, e1, x.1);
      EdgeIff(e1.pool, e1.tab, x.0, x.1);
    }
  }

  /** A knot whose cells live on keeps its records and has no roots. */
  lemma KnotOutlives(e: Engine, e1: Engine, c: set<nat>)
    requires Consistent(e) && Consistent(e1) && Shrunk(e, e1) && Knot(e, c) && Supplied(e1, c)
    ensures e1.G() <= e.G() && (forall x :: x in e.G() && x.0 in c && x.1 in c ==> x in e1.G())
    ensures forall i :: i in c ==> !Rooted(e1, i)
  {
    ShrunkGraph(e, e1);
    ShrunkInside(e, e1, c);
    forall i | i in c ensures !Rooted(e1, i) { assert Survives(e, e1, i) && !Rooted(e, i); }
  }

  lemma OrphansDead(e: Engine, e1: Engine, e2: Engine)
    requires e.Sized() && Shrunk(e1, e2) && OrphansGone(e, e1)
    ensures OrphansGone(e, e2)
  {
    forall u: nat | Scannable(e, u) && Orphan(e, u) ensures !e2.Live(u) {
      assert u < |e1.tab| ==> Survives(e1, e2, u);
    }
  }

  lemma PassWithoutRoots(e: Engine, e1: Engine, kept: set<nat>, spared: set<nat>, roots: seq<nat>)
    requires Safe(e, kept, spared) && Progressing(e, kept) && ZerosAtZero(e)
    requires SuspectRoots(e, roots) && roots == [] && e1 == e.(suspectStack := [])
    ensures Safe(e1, kept, spared) && Progressing(e1, kept) && ZerosAtZero(e1) && Thinned(e, e1) && OrphansGone(e, e1)
  {
    assert ScanOf(e, {});
    ScanConsistent(e, e1, {});
    ReclaimedNothing(e1);
    CycleStep(e, e1, e1, {}, {}, kept, spared);
    forall i: nat | i < |e.tab| ensures Survives(e, e1, i) {}
  }

  lemma PassJudged(e: Engine, e1: Engine, roots: seq<nat>, k: nat, vs: seq<nat>, scc: seq<nat>, doomed: seq<bool>)
    requires Consistent(e) && ZerosAtZero(e) && SuspectRoots(e, roots) && |e.tab| < UNVISITED
    requires Components(Heap(e.pool, e.tab), roots, k, vs, scc)
    requires Scanned(e, e1, Elems(vs)) && |doomed| == k
    requires forall s: nat :: s < k ==> (doomed[s] <==>
      ListSum(RootOf(Heap(e.pool, e.tab)), vs, scc, s) == 0 &&
      ListSum(EdgeOf(Heap(e.pool, e.tab)), vs, scc, s) == ListSum(InternalOf(Heap(e.pool, e.tab), scc, s), vs, scc, s))
    ensures Judged(e, e1, vs, scc, doomed)
    ensures forall s: nat :: s < |doomed| ==> UsedId(vs, scc, s)
  {
    VisitedIsScan(e, roots, k, vs, scc);
    ScanConsistent(e, e1, Elems(vs));
    forall v: nat | v in vs ensures doomed[scc[v]] <==> Orphan(e, v) {
      OrphanByCounts(e, roots, k, vs, scc, v);
    }
  }

  lemma PassDone(e: Engine, e1: Engine, e': Engine, vs: seq<nat>, scc: seq<nat>, doomed: seq<bool>,
                 kept: set<nat>, spared: set<nat>)
    requires Safe(e, kept, spared) && Progressing(e, kept) && ZerosAtZero(e)
    requires Judged(e, e1, vs, scc, doomed)
    requires Reclaimed(e1, e', Done(vs, scc, doomed, |doomed|))
    ensures Safe(e', kept, spared) && Progressing(e', kept) && ZerosAtZero(e') && Thinned(e, e') && OrphansGone(e, e')
    ensures Done(vs, scc, doomed, |doomed|) != {} ==> |LiveSet(e')| < |LiveSet(e)|
  {
    var c := Done(vs, scc, doomed, |doomed|);
    AllDone(e, e1, vs, scc, doomed);
    CycleStep(e, e1, e', Elems(vs), c, kept, spared);
    ScannedOrphans(e, e', Elems(vs), c);
    ReclaimedZeros(e1, e', c);
    ReclaimedShrinks(e1, e', c);
    forall i: nat | i < |e.tab| ensures Survives(e, e1, i) {}
    ThinnedTwice(e, e1, e');
    assert LiveSet(e1) == LiveSet(e);
  }

  lemma {:induction false} ReleaseKeepsOuts(e: Engine, ts: seq<Handle>, c: set<nat>)
    requires e.Sized()
    ensures forall i :: 0 <= i < |e.tab| ==> R.Release(e, ts, c).tab[i].outs == e.tab[i].outs
    decreases |ts|
  {
    if ts != [] { ReleaseKeepsOuts(e, ts[..|ts| - 1], c); }
  }

  lemma DetachOneOuts(e: Engine, i: nat, c: set<nat>)
    requires e.Sized() && i < |e.tab|
    ensures forall j :: 0 <= j < |e.tab| && j != i ==> DetachOne(e, i, c).tab[j].outs == e.tab[j].outs
  {
    ReleaseKeepsOuts(e, e.tab[i].outs, c);
  }

  lemma ZeroTargets(e: Engine, i: nat)
    requires Consistent(e) && e.Live(i) && e.TotalOf(i) == 0
    ensures forall t :: t in e.tab[i].outs ==> Cells.Valid(e.pool, t) && t.index != i
  {
    TotalsNonNegative(e, i);
    NoIncoming(e, i);
    assert RowOk(e.pool, e.tab, i);
    forall t | t in e.tab[i].outs ensures t.index != i {
      if t.index == i {
        EdgeIff(e.pool, e.tab, i, i);
        EdgeEnds(e.pool, e.tab, i, i);
      }
    }
  }

  lemma ZeroIsLive(e: Engine, i: nat)
    requires Consistent(e) && i in e.zeroStack && i < |e.tab|
    ensures e.Live(i)
  {
    assert e.zeroMark[i] <==> i in e.zeroStack;
  }
}
