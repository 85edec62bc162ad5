/** The two reclaim operations of the engine, and that each has the effect the sweep argument needs. */
module Reclaiming {
  import opened Graphs
  import opened Cells
  import opened EngineState
  import opened Coverage
  import opened Sweeping

  // ---- releasing the targets of a dying cell --------------------------------------------------

  /** Take away one reference to the target of `t`, unless it dies together with the source. */
  function ReleaseOne(e: Engine, t: Handle, inside: set<nat>): (r: Engine)
    requires e.Sized()
    ensures r.Sized() && r.pool == e.pool && |r.tab| == |e.tab|
  {
    if Valid(e.pool, t) && t.index !in inside then
      Reconsider(SubEdgeTo(e, t.index), t.index)
    else e
  }

  function Release(e: Engine, ts: seq<Handle>, inside: set<nat>): (r: Engine)
    requires e.Sized()
    ensures r.Sized() && r.pool == e.pool && |r.tab| == |e.tab|
  {
    if ts == [] then e
    else ReleaseOne(Release(e, ts[..|ts| - 1], inside), ts[|ts| - 1], inside)
  }

  ghost predicate Released(e: Engine, e': Engine, ts: seq<Handle>, inside: set<nat>) {
    && e.Sized() && e'.Sized() && e'.pool == e.pool && |e'.tab| == |e.tab|
    && ZeroMarksOk(e') && SuspectMarksOk(e')
    && (forall x: nat :: x < |e.tab| ==> ReleasedCell(e, e', ts, inside, x))
  }

  ghost predicate ReleasedCell(e: Engine, e': Engine, ts: seq<Handle>, inside: set<nat>, x: nat)
    requires e.Sized() && e'.Sized() && |e'.tab| == |e.tab| && x < |e.tab|
  {
    var h := Current(e.pool, x);
    && SameCell(e, e', x)
    && e'.tab[x].edge == e.tab[x].edge - (if x in inside then 0 else multiset(ts)[h])
    && (x in inside || h !in ts ==>
          e'.zeroMark[x] == e.zeroMark[x] && e'.suspectMark[x] == e.suspectMark[x])
    && (x !in inside && h in ts ==> Remarked(e', x))
  }

  /** Enough references are recorded for every release to find one. */
  ghost predicate Releasable(e: Engine, ts: seq<Handle>, inside: set<nat>)
    requires e.Sized()
  {
    && (forall t :: t in ts ==> Valid(e.pool, t))
    && (forall x: nat :: x < |e.tab| ==>
          e.tab[x].root >= 0 && (x in inside || e.tab[x].edge >= multiset(ts)[Current(e.pool, x)]))
  }

  lemma {:induction false} ReleaseEffect(e: Engine, ts: seq<Handle>, inside: set<nat>)
    requires e.Sized() && ZeroMarksOk(e) && SuspectMarksOk(e) && Releasable(e, ts, inside)
    ensures Released(e, Release(e, ts, inside), ts, inside)
    decreases |ts|
  {
    if ts == [] {
    } else {
      var us, t := ts[..|ts| - 1], ts[|ts| - 1];
      assert ts == us + [t];
      assert multiset(ts) == multiset(us) + multiset{t};
      ReleaseEffect(e, us, inside);
      ReleaseOneEffect(e, Release(e, us, inside), us, t, inside);
    }
  }

  lemma ReleaseOneEffect(e: Engine, e1: Engine, us: seq<Handle>, t: Handle, inside: set<nat>)
    requires Released(e, e1, us, inside) && Releasable(e, us + [t], inside)
    ensures Released(e, ReleaseOne(e1, t, inside), us + [t], inside)
  {
    assert t in us + [t];
    assert multiset(us + [t]) == multiset(us) + multiset{t};
    var i := t.index;
    assert ReleasedCell(e, e1, us, inside, i);
    if i !in inside {
      ReleaseOutside(e, e1, us, t, inside);
    } else {
      forall x: nat | x < |e.tab| ensures ReleasedCell(e, e1, us + [t], inside, x) {
        assert ReleasedCell(e, e1, us, inside, x);
        assert Current(e.pool, x) == t <==> x == i;
      }
    }
  }

  lemma ReleaseOutside(e: Engine, e1: Engine, us: seq<Handle>, t: Handle, inside: set<nat>)
    requires Released(e, e1, us, inside) && Releasable(e, us + [t], inside) && t.index !in inside
    ensures Released(e, ReleaseOne(e1, t, inside), us + [t], inside)
  {
    assert t in us + [t];
    assert multiset(us + [t]) == multiset(us) + multiset{t};
    var i := t.index;
    assert ReleasedCell(e, e1, us, inside, i);
    var e' := Reconsider(SubEdgeTo(e1, i), i);
    assert e'.tab[i].edge == e1.tab[i].edge - 1;
    DecrementKeepsMarks(e1, i);
    forall x: nat | x < |e.tab| ensures ReleasedCell(e, e', us + [t], inside, x) {
      ReleasedMore(e, e1, us, t, inside, x);
    }
  }

  lemma ReleasedMore(e: Engine, e1: Engine, us: seq<Handle>, t: Handle, inside: set<nat>, x: nat)
    requires Released(e, e1, us, inside) && Releasable(e, us + [t], inside) && t.index !in inside && x < |e.tab|
    ensures t.index < |e1.tab| && ReleasedCell(e, Reconsider(SubEdgeTo(e1, t.index), t.index), us + [t], inside, x)
  {
    assert t in us + [t];
    assert multiset(us + [t]) == multiset(us) + multiset{t};
    assert ReleasedCell(e, e1, us, inside, t.index);
    assert ReleasedCell(e, e1, us, inside, x);
    assert Current(e.pool, x) == t <==> x == t.index;
  }

  lemma DecrementKeepsMarks(e: Engine, i: nat)
    requires e.Sized() && ZeroMarksOk(e) && SuspectMarksOk(e) && e.Live(i)
    requires e.tab[i].edge > 0 && e.tab[i].root >= 0
    ensures ZeroMarksOk(Reconsider(SubEdgeTo(e, i), i))
    ensures SuspectMarksOk(Reconsider(SubEdgeTo(e, i), i))
  {
    ReconsiderZeroMarks(SubEdgeTo(e, i), i);
    DecrementKeepsSuspects(e, i);
  }

  lemma DecrementKeepsSuspects(e: Engine, i: nat)
    requires e.Sized() && SuspectMarksOk(e) && e.Live(i) && e.tab[i].edge > 0 && e.tab[i].root >= 0
    ensures SuspectMarksOk(Reconsider(SubEdgeTo(e, i), i))
  {
  }

  predicate InRange(ms: seq<nat>, n: nat) { forall k :: 0 <= k < |ms| ==> ms[k] < n }

  // ---- freeing rows ---------------------------------------------------------------------------

  function ClearOuts(e: Engine, i: nat): Engine
    requires e.Sized() && i < |e.tab|
  {
    SetOuts(e, i, [])
  }

  /** Reset the row, drop the suspect mark and hand the slot back to the pool. */
  function FreeCell(e: Engine, i: nat): (r: Engine)
    requires e.Sized() && i < |e.tab|
    ensures r.Sized() && |r.tab| == |e.tab|
  {
    e.(tab := e.tab[i := EMPTY_ROW],
       suspectMark := e.suspectMark[i := false],
       pool := e.pool[i := Freed(e.pool[i])])
  }

  /** Phase one for one member: release what it points at outside the component, then detach it. */
  function DetachOne(e: Engine, i: nat, inside: set<nat>): (r: Engine)
    requires e.Sized() && i < |e.tab|
    ensures r.Sized() && r.pool == e.pool && |r.tab| == |e.tab|
  {
    ClearOuts(Release(e, e.tab[i].outs, inside), i)
  }

  /** All of phase one, for the members of `c` in `ms` (oldest last). */
  function Detach(e: Engine, ms: seq<nat>, c: set<nat>): (r: Engine)
    requires e.Sized() && InRange(ms, |e.tab|)
    ensures r.Sized() && r.pool == e.pool && |r.tab| == |e.tab|
  {
    if ms == [] then e else DetachOne(Detach(e, ms[..|ms| - 1], c), ms[|ms| - 1], c)
  }

  function FreeAll(e: Engine, ms: seq<nat>): (r: Engine)
    requires e.Sized() && InRange(ms, |e.tab|)
    ensures r.Sized() && |r.tab| == |e.tab|
  {
    if ms == [] then e else FreeCell(FreeAll(e, ms[..|ms| - 1]), ms[|ms| - 1])
  }

  ghost predicate Detached(e: Engine, e': Engine, c: set<nat>, done: set<nat>) {
    && e.Sized() && e'.Sized() && e'.pool == e.pool && |e'.tab| == |e.tab|
    && ZeroMarksOk(e') && SuspectMarksOk(e')
    && (forall x: nat :: x < |e.tab| ==> DetachedCell(e, e', c, done, x))
  }

  ghost predicate DetachedCell(e: Engine, e': Engine, c: set<nat>, done: set<nat>, x: nat)
    requires e.Sized() && e'.Sized() && |e'.pool| == |e.pool| && |e'.tab| == |e.tab| && x < |e.tab|
  {
    && e'.tab[x].root == e.tab[x].root
    && e'.tab[x].outs == (if x in done then [] else e.tab[x].outs)
    && (x in c || !e.pool[x].live || !TargetOf(e.G(), done, x) ==>
          e'.zeroMark[x] == e.zeroMark[x] && e'.suspectMark[x] == e.suspectMark[x])
    && (x in c ==> e'.tab[x].edge == e.tab[x].edge)
    && (!e.pool[x].live ==> e'.tab[x] == EMPTY_ROW)
    && (x !in c && e.pool[x].live ==>
          && e'.tab[x].edge == In(e'.tab, Current(e.pool, x), |e'.tab|)
          && (e.zeroMark[x] ==> e'.zeroMark[x]) && (e.suspectMark[x] ==> e'.suspectMark[x])
          && (e'.zeroMark[x] && !e.zeroMark[x] ==> e'.TotalOf(x) == 0)
          && (TargetOf(e.G(), done, x) ==> Remarked(e', x)))
  }

  lemma DetachStarts(e: Engine, c: set<nat>)
    requires Consistent(e)
    ensures Detached(e, e, c, {})
  {
    forall x: nat | x < |e.tab| ensures DetachedCell(e, e, c, {}, x) {
      assert e.pool[x].live ==> RowOk(e.pool, e.tab, x);
      assert !TargetOf(e.G(), {}, x);
    }
  }

  lemma DetachedReleasable(e: Engine, e1: Engine, c: set<nat>, done: set<nat>, i: nat)
    requires Consistent(e) && Detached(e, e1, c, done) && i in c && e.Live(i)
    ensures Releasable(e1, e1.tab[i].outs, c)
  {
    assert DetachedCell(e, e1, c, done, i) && RowOk(e.pool, e.tab, i);
    forall x: nat | x < |e1.tab|
      ensures e1.tab[x].root >= 0
      ensures x in c || e1.tab[x].edge >= multiset(e1.tab[i].outs)[Current(e1.pool, x)]
    {
      TotalsNonNegative(e, x);
      EnoughEdges(e, e1, c, done, i, x);
    }
  }

  lemma EnoughEdges(e: Engine, e1: Engine, c: set<nat>, done: set<nat>, i: nat, x: nat)
    requires Detached(e, e1, c, done) && i < |e.tab| && x < |e.tab|
    requires forall t :: t in e1.tab[i].outs ==> Valid(e.pool, t)
    ensures e1.tab[x].root == e.tab[x].root
    ensures x in c || e1.tab[x].edge >= multiset(e1.tab[i].outs)[Current(e1.pool, x)]
  {
    assert DetachedCell(e, e1, c, done, x);
    if x !in c {
      if e.pool[x].live {
        InAtLeast(e1.tab, Current(e.pool, x), |e1.tab|, i);
      } else {
        assert Current(e.pool, x) !in e1.tab[i].outs;
      }
    }
  }

  lemma DetachOneStep(e: Engine, e1: Engine, c: set<nat>, done: set<nat>, i: nat)
    requires Consistent(e) && Detached(e, e1, c, done) && i in c && i !in done && e.Live(i)
    ensures Detached(e, DetachOne(e1, i, c), c, done + {i})
  {
    var ts := e1.tab[i].outs;
    DetachedReleasable(e, e1, c, done, i);
    ReleaseEffect(e1, ts, c);
    var e2 := Release(e1, ts, c);
    var e' := ClearOuts(e2, i);
    assert ReleasedCell(e1, e2, ts, c, i);
    forall x: nat | x < |e.tab| ensures DetachedCell(e, e', c, done + {i}, x) {
      DetachOneCell(e, e1, e2, c, done, i, x);
    }
  }

  lemma ReleasedIn(e1: Engine, e2: Engine, c: set<nat>, i: nat, h: Handle)
    requires i < |e1.tab| && Released(e1, e2, e1.tab[i].outs, c)
    ensures In(ClearOuts(e2, i).tab, h, |e1.tab|) == In(e1.tab, h, |e1.tab|) - multiset(e1.tab[i].outs)[h]
  {
    var e' := ClearOuts(e2, i);
    forall k | 0 <= k < |e1.tab| && k != i ensures multiset(e1.tab[k].outs)[h] == multiset(e'.tab[k].outs)[h] {
      assert ReleasedCell(e1, e2, e1.tab[i].outs, c, k);
    }
    InUpdate(e1.tab, e'.tab, h, |e1.tab|, i);
  }

  lemma DetachOneCell(e: Engine, e1: Engine, e2: Engine, c: set<nat>, done: set<nat>, i: nat, x: nat)
    requires Consistent(e) && Detached(e, e1, c, done) && i in c && i !in done && e.Live(i)
    requires Released(e1, e2, e1.tab[i].outs, c) && x < |e.tab|
    ensures DetachedCell(e, ClearOuts(e2, i), c, done + {i}, x)
  {
    var ts := e1.tab[i].outs;
    var h := Current(e.pool, x);
    var e' := ClearOuts(e2, i);
    assert DetachedCell(e, e1, c, done, x) && DetachedCell(e, e1, c, done, i);
    assert ReleasedCell(e1, e2, ts, c, x) && ReleasedCell(e1, e2, ts, c, i);
    EdgeIff(e.pool, e.tab, i, x);
    TargetGrows(e.G(), done, i, x);
    if x !in c && e.pool[x].live {
      ReleasedIn(e1, e2, c, i, h);
      if TargetOf(e.G(), done, x) && h !in ts {
        assert Remarked(e1, x);
      }
    } else if x !in c {
      assert h !in ts by { assert RowOk(e.pool, e.tab, i); }
    }
  }

  lemma TargetGrows(g: Graph, done: set<nat>, i: nat, x: nat)
    ensures TargetOf(g, done + {i}, x) <==> TargetOf(g, done, x) || (i, x) in g
  {
    if TargetOf(g, done + {i}, x) {
      var y :| y in g && y.0 in done + {i} && y.1 == x;
      assert y.0 in done || y == (i, x);
    }
    if TargetOf(g, done, x) {
      var y :| y in g && y.0 in done && y.1 == x;
      assert y.0 in done + {i};
    }
    if (i, x) in g {
      assert (i, x).0 in done + {i};
    }
  }

  function Elems(ms: seq<nat>): set<nat> { set i | i in ms }

  predicate Distinct(ms: seq<nat>) { forall j, k :: 0 <= j < k < |ms| ==> ms[j] != ms[k] }

  lemma {:induction false} DetachEffect(e: Engine, ms: seq<nat>, c: set<nat>)
    requires Consistent(e) && Distinct(ms) && InRange(ms, |e.tab|)
    requires forall k :: 0 <= k < |ms| ==> ms[k] in c && e.Live(ms[k])
    ensures Detached(e, Detach(e, ms, c), c, Elems(ms))
    decreases |ms|
  {
    if ms == [] {
      DetachStarts(e, c);
    } else {
      var ns, i := ms[..|ms| - 1], ms[|ms| - 1];
      assert ms == ns + [i];
      DetachEffect(e, ns, c);
      assert i !in ns;
      DetachOneStep(e, Detach(e, ns, c), c, Elems(ns), i);
      assert Elems(ms) == Elems(ns) + {i};
    }
  }

  lemma {:induction false} FreeAllEffect(e: Engine, ms: seq<nat>)
    requires e.Sized() && Distinct(ms) && InRange(ms, |e.tab|)
    ensures FreeAll(e, ms).zeroMark == e.zeroMark
    ensures FreeAll(e, ms).zeroStack == e.zeroStack && FreeAll(e, ms).suspectStack == e.suspectStack
    ensures forall x: nat :: x < |e.tab| ==> FreedCell(e, FreeAll(e, ms), Elems(ms), x)
    decreases |ms|
  {
    if ms == [] {
    } else {
      var ns, i := ms[..|ms| - 1], ms[|ms| - 1];
      assert ms == ns + [i];
      FreeAllEffect(e, ns);
      assert i !in ns;
      forall x: nat | x < |e.tab| ensures FreedCell(e, FreeAll(e, ms), Elems(ms), x) {
        assert FreedCell(e, FreeAll(e, ns), Elems(ns), x);
        assert FreedCell(e, FreeAll(e, ns), Elems(ns), i);
        assert x in Elems(ms) <==> x in Elems(ns) || x == i;
      }
    }
  }

  ghost predicate FreedCell(e: Engine, e': Engine, c: set<nat>, x: nat)
    requires e.Sized() && e'.Sized() && |e'.tab| == |e.tab| && x < |e.tab|
  {
    && e'.tab[x] == (if x in c then EMPTY_ROW else e.tab[x])
    && e'.pool[x] == (if x in c then Freed(e.pool[x]) else e.pool[x])
    && e'.suspectMark[x] == (e.suspectMark[x] && x !in c)
  }

  /** Detach every member, then free every member. */
  function ReclaimComponent(e: Engine, ms: seq<nat>): (r: Engine)
    requires e.Sized() && InRange(ms, |e.tab|)
    ensures r.Sized() && |r.tab| == |e.tab|
  {
    FreeAll(Detach(e, ms, Elems(ms)), ms)
  }

  /** Freeing a set that nothing outside points into leaves no dangling record, keeps every count
      exact and re-evaluates every cell the set pointed at. */
  lemma ReclaimComponentEffect(e: Engine, ms: seq<nat>)
    requires Consistent(e) && Distinct(ms) && InRange(ms, |e.tab|)
    requires forall k :: 0 <= k < |ms| ==> e.Live(ms[k]) && !e.zeroMark[ms[k]]
    requires BackClosed(e.G(), Elems(ms))
    ensures Reclaimed(e, ReclaimComponent(e, ms), Elems(ms))
  {
    var c := Elems(ms);
    DetachEffect(e, ms, c);
    var e1 := Detach(e, ms, c);
    FreeAllEffect(e1, ms);
    FinishReclaim(e, e1, FreeAll(e1, ms), c);
  }

  lemma FinishReclaim(e: Engine, e1: Engine, e': Engine, c: set<nat>)
    requires Consistent(e) && Detached(e, e1, c, c) && BackClosed(e.G(), c)
    requires forall i :: i in c ==> e.Live(i) && !e.zeroMark[i]
    requires e'.Sized() && |e'.tab| == |e.tab| && e'.zeroMark == e1.zeroMark
    requires e'.zeroStack == e1.zeroStack && e'.suspectStack == e1.suspectStack
    requires forall x: nat :: x < |e.tab| ==> FreedCell(e1, e', c, x)
    ensures Reclaimed(e, e', c)
  {
    forall x: nat | x < |e.tab| && x !in c
      ensures SameCell(e, e', x)
      ensures TargetOf(e.G(), c, x) ==> Remarked(e', x)
      ensures !TargetOf(e.G(), c, x) ==>
                e'.zeroMark[x] == e.zeroMark[x] && e'.suspectMark[x] == e.suspectMark[x]
    {
      assert DetachedCell(e, e1, c, c, x) && FreedCell(e1, e', c, x);
      if TargetOf(e.G(), c, x) {
        var y :| y in e.G() && y.0 in c && y.1 == x;
        EdgeEnds(e.pool, e.tab, y.0, x);
      }
    }
    FinishMarks(e, e1, e', c);
    FinishTable(e, e1, e', c);
    forall i | i in c ensures e'.pool[i] == Freed(e.pool[i]) {
      assert FreedCell(e1, e', c, i);
    }
  }

  lemma FinishMarks(e: Engine, e1: Engine, e': Engine, c: set<nat>)
    requires Detached(e, e1, c, c)
    requires forall i :: i in c ==> e.Live(i) && !e.zeroMark[i]
    requires e'.Sized() && |e'.tab| == |e.tab| && e'.zeroMark == e1.zeroMark
    requires e'.zeroStack == e1.zeroStack && e'.suspectStack == e1.suspectStack
    requires forall x: nat :: x < |e.tab| ==> FreedCell(e1, e', c, x)
    ensures ZeroMarksOk(e') && SuspectMarksOk(e')
  {
    forall i | 0 <= i < |e'.tab| && e'.zeroMark[i] ensures e'.pool[i].live {
      assert DetachedCell(e, e1, c, c, i) && FreedCell(e1, e', c, i);
    }
    forall i | 0 <= i < |e'.tab| && e'.suspectMark[i]
      ensures e'.pool[i].live
      ensures e'.TotalOf(i) == 0 ==> e'.zeroMark[i]
      ensures e'.TotalOf(i) > 0 ==> i in e'.suspectStack
    {
      assert FreedCell(e1, e', c, i);
    }
  }

  lemma FinishTable(e: Engine, e1: Engine, e': Engine, c: set<nat>)
    requires Consistent(e) && Detached(e, e1, c, c) && BackClosed(e.G(), c)
    requires e'.Sized() && |e'.tab| == |e.tab|
    requires forall i :: i in c ==> e.Live(i)
    requires forall x: nat :: x < |e.tab| ==> FreedCell(e1, e', c, x)
    ensures TableOk(e'.pool, e'.tab)
  {
    forall i | 0 <= i < |e'.pool| && !e'.pool[i].live ensures e'.tab[i] == EMPTY_ROW {
      assert DetachedCell(e, e1, c, c, i) && FreedCell(e1, e', c, i);
    }
    forall i | 0 <= i < |e'.pool| && e'.pool[i].live ensures RowOk(e'.pool, e'.tab, i) {
      assert DetachedCell(e, e1, c, c, i) && FreedCell(e1, e', c, i);
      assert RowOk(e.pool, e.tab, i);
      forall j | 0 <= j < |e.tab|
        ensures multiset(e1.tab[j].outs)[Current(e.pool, i)] == multiset(e'.tab[j].outs)[Current(e.pool, i)]
      {
        assert DetachedCell(e, e1, c, c, j) && FreedCell(e1, e', c, j);
      }
      InSame(e1.tab, e'.tab, Current(e.pool, i), |e.tab|);
      forall t | t in e'.tab[i].outs ensures Valid(e'.pool, t) {
        EdgeIff(e.pool, e.tab, i, t.index);
        assert (i, t.index) in e.G();
        assert FreedCell(e1, e', c, t.index);
      }
    }
  }

  // ---- one cell whose count reached zero ------------------------------------------------------

  /** Free `i`, first releasing what it points at. */
  function ReclaimCell(e: Engine, i: nat): (r: Engine)
    requires e.Sized() && i < |e.tab|
    ensures r.Sized() && |r.tab| == |e.tab|
  {
    var e0 := ClearSuspect(e, i);
    FreeCell(Release(e0, e0.tab[i].outs, {i}), i)
  }

  lemma ClearSuspectConsistent(e: Engine, i: nat)
    requires Consistent(e) && i < |e.tab|
    ensures Consistent(ClearSuspect(e, i))
  {
  }

  /** The marks of the reclaimed cells before the reclaim do not matter. */
  lemma ReclaimedFrom(e: Engine, e0: Engine, e': Engine, c: set<nat>)
    requires e.Sized() && e0.Sized() && e0.pool == e.pool && e0.tab == e.tab
    requires forall i: nat :: i < |e.tab| && i !in c ==>
               e0.zeroMark[i] == e.zeroMark[i] && e0.suspectMark[i] == e.suspectMark[i]
    requires Reclaimed(e0, e', c)
    ensures Reclaimed(e, e', c)
  {
    forall i: nat | i < |e.tab| && i !in c ensures SameCell(e, e', i) {
      assert SameCell(e0, e', i);
    }
  }

  lemma ReclaimCellEffect(e: Engine, i: nat)
    requires Consistent(e) && e.Live(i) && e.TotalOf(i) == 0 && !e.zeroMark[i]
    ensures Reclaimed(e, ReclaimCell(e, i), {i})
  {
    var e0 := ClearSuspect(e, i);
    assert Consistent(e0) by { ClearSuspectConsistent(e, i); }
    assert BackClosed(e0.G(), {i}) by {
      TotalsNonNegative(e, i);
      NoIncoming(e0, i);
    }
    ReclaimUnmarked(e0, i);
    ReclaimedFrom(e, e0, ReclaimCell(e, i), {i});
  }

  lemma ReclaimUnmarked(e0: Engine, i: nat)
    requires Consistent(e0) && e0.Live(i) && !e0.zeroMark[i] && BackClosed(e0.G(), {i})
    ensures Reclaimed(e0, FreeCell(Release(e0, e0.tab[i].outs, {i}), i), {i})
  {
    var c := {i};
    DetachStarts(e0, c);
    DetachOneStep(e0, e0, c, {}, i);
    assert {} + c == c;
    var e1 := DetachOne(e0, i, c);
    var e' := FreeCell(Release(e0, e0.tab[i].outs, c), i);
    forall x: nat | x < |e0.tab| ensures FreedCell(e1, e', c, x) {}
    FinishReclaim(e0, e1, e', c);
  }

  // ---- several reclaims in a row --------------------------------------------------------------

  lemma ReclaimedNothing(e: Engine)
    requires Consistent(e)
    ensures Reclaimed(e, e, {})
  {
    forall i: nat | i < |e.tab| ensures SameCell(e, e, i) && !TargetOf(e.G(), {}, i) {}
  }

  /** Reclaiming one set after another has the effect of reclaiming their union. */
  lemma ReclaimedTwice(e: Engine, e1: Engine, e2: Engine, c: set<nat>, d: set<nat>)
    requires Reclaimed(e, e1, c) && Reclaimed(e1, e2, d)
    requires BackClosed(e.G(), c)
    ensures Reclaimed(e, e2, c + d)
  {
    ReclaimedGraph(e, e1, c);
    forall i: nat | i < |e.tab| && i !in c + d
      ensures SameCell(e, e2, i)
      ensures TargetOf(e.G(), c + d, i) ==> Remarked(e2, i)
      ensures !TargetOf(e.G(), c + d, i) ==>
                e2.zeroMark[i] == e.zeroMark[i] && e2.suspectMark[i] == e.suspectMark[i]
    {
      ReclaimedTwiceCell(e, e1, e2, c, d, i);
    }
    forall i | i in c + d ensures e.Live(i) && e2.pool[i] == Freed(e.pool[i]) {
      if i in c {
        assert !e1.Live(i);
        assert SameCell(e1, e2, i);
      } else {
        assert e1.Live(i);
        assert SameCell(e, e1, i);
      }
    }
  }

  lemma ReclaimedTwiceCell(e: Engine, e1: Engine, e2: Engine, c: set<nat>, d: set<nat>, i: nat)
    requires Reclaimed(e, e1, c) && Reclaimed(e1, e2, d)
    requires forall x :: x in e1.G() <==> x in e.G() && x.0 !in c
    requires i < |e.tab| && i !in c + d
    ensures SameCell(e, e2, i)
    ensures TargetOf(e.G(), c + d, i) ==> Remarked(e2, i)
    ensures !TargetOf(e.G(), c + d, i) ==>
              e2.zeroMark[i] == e.zeroMark[i] && e2.suspectMark[i] == e.suspectMark[i]
  {
    assert SameCell(e, e1, i) && SameCell(e1, e2, i);
    TotalsNonNegative(e2, i);
    if e1.Live(i) { ReclaimedCounts(e1, e2, d, i); }
    TargetSplits(e.G(), e1.G(), c, d, i);
    if TargetOf(e.G(), c, i) {
      TargetLive(e, c, i);
    }
  }

  lemma TargetLive(e: Engine, c: set<nat>, i: nat)
    requires e.Sized() && TableOk(e.pool, e.tab) && TargetOf(e.G(), c, i)
    ensures e.Live(i)
  {
    var x :| x in e.G() && x.0 in c && x.1 == i;
    EdgeEnds(e.pool, e.tab, x.0, i);
  }

  lemma TargetSplits(g: Graph, g1: Graph, c: set<nat>, d: set<nat>, i: nat)
    requires forall x :: x in g1 <==> x in g && x.0 !in c
    ensures TargetOf(g, c + d, i) <==> TargetOf(g, c, i) || TargetOf(g1, d, i)
  {
    if TargetOf(g1, d, i) {
      var x :| x in g1 && x.0 in d && x.1 == i;
      assert x in g && x.0 in c + d;
    }
    if TargetOf(g, c, i) {
      var x :| x in g && x.0 in c && x.1 == i;
      assert x.0 in c + d;
    }
    if TargetOf(g, c + d, i) {
      var x :| x in g && x.0 in c + d && x.1 == i;
      assert x.0 in c || x in g1;
    }
  }
}
