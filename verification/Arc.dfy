/** The reference-counting backend: one count per object for roots and edges together, and a
    worklist that reclaims whatever drops to zero. */
module ReferenceCounting {
  import opened VmState
  import opened ObjectStores
  import P = PayloadHeaps
  import B = Bytecode

  /** Edges recorded towards `x` by the first `n` objects. */
  ghost function Degree(edges: seq<multiset<nat>>, x: nat, n: nat): nat
    requires n <= |edges|
    decreases n, x
  {
    if n == 0 then 0 else Degree(edges, x, n - 1) + edges[n - 1][x]
  }

  ghost function InDegree(edges: seq<multiset<nat>>, x: nat): nat {
    Degree(edges, x, |edges|)
  }

  lemma {:induction false} DegreeSame(a: seq<multiset<nat>>, b: seq<multiset<nat>>, x: nat, n: nat)
    requires n <= |a| && n <= |b| && forall i :: 0 <= i < n ==> a[i] == b[i]
    ensures Degree(a, x, n) == Degree(b, x, n)
  {
    if n > 0 { DegreeSame(a, b, x, n - 1); }
  }

  lemma {:induction false} DegreeUpdate(edges: seq<multiset<nat>>, h: nat, e: multiset<nat>, x: nat, n: nat)
    requires h < n <= |edges|
    ensures Degree(edges[h := e], x, n) == Degree(edges, x, n) - edges[h][x] + e[x]
  {
    if h == n - 1 {
      DegreeSame(edges, edges[h := e], x, n - 1);
    } else {
      DegreeUpdate(edges, h, e, x, n - 1);
    }
  }

  lemma {:induction false} DegreeAtLeast(edges: seq<multiset<nat>>, i: nat, x: nat, n: nat)
    requires i < n <= |edges|
    ensures Degree(edges, x, n) >= edges[i][x]
  {
    if i < n - 1 { DegreeAtLeast(edges, i, x, n - 1); }
  }

  ghost predicate CountOk(m: Memory, rc: seq<nat>, x: nat)
    requires x < |rc|
  {
    rc[x] == m.roots[x] + InDegree(m.edges, x)
  }

  /** Every count is exact: roots plus edges. */
  ghost predicate Counted(m: Memory, rc: seq<nat>) {
    && |m.edges| == |m.heap| == |rc|
    && (forall x: nat :: x < |rc| ==> CountOk(m, rc, x))
    && (forall i: nat :: i < |m.heap| && !m.heap[i].live ==> m.edges[i] == multiset{})
  }

  /** The edges are the references in live payloads, but for the hole, whose old target has already
      been given up. */
  ghost predicate ScanEdges(m: Memory, hole: Hole) {
    |m.edges| == |m.heap| && forall i: nat :: i < |m.heap| ==> EdgesOk(m, hole, i)
  }

  ghost predicate Scannable(m: Memory, rc: seq<nat>, hole: Hole) {
    && |m.edges| == |m.heap| == |rc| && ScanEdges(m, hole)
    && (hole.At? && Live(m, hole.base) && hole.k < |m.heap[hole.base].cells| && m.heap[hole.base].cells[hole.k].Ref? ==>
          var t := m.heap[hole.base].cells[hole.k].h; t < |rc| && rc[t] == 0)
  }

  lemma RootsRecounted(m: Memory, rc: seq<nat>, roots: multiset<nat>, rc': seq<nat>)
    requires Counted(m, rc) && ScanEdges(m, None) && |rc'| == |rc|
    requires forall x: nat :: x < |rc| ==> rc'[x] + m.roots[x] == rc[x] + roots[x]
    ensures Counted(m.(roots := roots), rc') && ScanEdges(m.(roots := roots), None)
  {
    var m' := m.(roots := roots);
    forall x: nat | x < |rc'| ensures CountOk(m', rc', x) { assert CountOk(m, rc, x); }
    forall i: nat | i < |m'.heap| ensures EdgesOk(m', None, i) { assert EdgesOk(m, None, i); }
  }

  lemma EdgesRecounted(m: Memory, rc: seq<nat>, b: nat, e: multiset<nat>, rc': seq<nat>)
    requires Counted(m, rc) && Live(m, b) && |rc'| == |rc|
    requires forall x: nat :: x < |rc| ==> rc'[x] + m.edges[b][x] == rc[x] + e[x]
    ensures Counted(m.(edges := m.edges[b := e]), rc')
  {
    var m' := m.(edges := m.edges[b := e]);
    forall x: nat | x < |rc'| ensures CountOk(m', rc', x) {
      assert CountOk(m, rc, x);
      DegreeUpdate(m.edges, b, e, x, |m.edges|);
    }
  }

  lemma EdgeGivenUp(m: Memory, rc: seq<nat>, b: nat, k: nat)
    requires Counted(m, rc) && ScanEdges(m, None) && Live(m, b) && k < |m.heap[b].cells| && m.heap[b].cells[k].Ref?
    ensures var t := m.heap[b].cells[k].h;
      var m' := m.(edges := m.edges[b := m.edges[b] - multiset{t}]);
      && t < |rc| && rc[t] > 0 && Live(m', t) && t in m.edges[b]
      && Counted(m', rc[t := rc[t] - 1]) && ScanEdges(m', At(b, k))
  {
    var t, cells := m.heap[b].cells[k].h, m.heap[b].cells;
    assert EdgesOk(m, None, b);
    RefsAt(cells, k);
    assert m.edges[b][t] == Refs(cells, t) > 0;
    assert CountOk(m, rc, t);
    DegreeAtLeast(m.edges, b, t, |m.edges|);
    EdgesRecounted(m, rc, b, m.edges[b] - multiset{t}, rc[t := rc[t] - 1]);
    var m' := m.(edges := m.edges[b := m.edges[b] - multiset{t}]);
    forall i: nat | i < |m'.heap| ensures EdgesOk(m', At(b, k), i) {
      assert EdgesOk(m, None, i);
      if i == b {
        forall x: nat ensures m'.edges[i][x] == Refs(Cells(m'.heap[i], i, At(b, k)), x) && (x in m'.edges[i] ==> Live(m', x)) {
          RefsUpdate(cells, k, ZERO, x);
          assert m.edges[b][x] == Refs(cells, x);
        }
      }
    }
  }

  lemma EdgeTaken(m: Memory, rc: seq<nat>, b: nat, k: nat)
    requires Counted(m, rc) && ScanEdges(m, At(b, k)) && Live(m, b) && k < |m.heap[b].cells|
    requires m.heap[b].cells[k].Ref? && Live(m, m.heap[b].cells[k].h)
    ensures var t := m.heap[b].cells[k].h;
      var m' := m.(edges := m.edges[b := m.edges[b] + multiset{t}]);
      Counted(m', rc[t := rc[t] + 1]) && ScanEdges(m', None)
  {
    var t, cells := m.heap[b].cells[k].h, m.heap[b].cells;
    EdgesRecounted(m, rc, b, m.edges[b] + multiset{t}, rc[t := rc[t] + 1]);
    var m' := m.(edges := m.edges[b := m.edges[b] + multiset{t}]);
    forall i: nat | i < |m'.heap| ensures EdgesOk(m', None, i) {
      assert EdgesOk(m, At(b, k), i);
      if i == b {
        forall x: nat ensures m'.edges[i][x] == Refs(Cells(m'.heap[i], i, None), x) && (x in m'.edges[i] ==> Live(m', x)) {
          RefsUpdate(cells, k, ZERO, x);
          assert m.edges[b][x] == Refs(Cells(m.heap[b], b, At(b, k)), x);
        }
      }
    }
  }

  // ---- scanning one object --------------------------------------------------------------------

  /** In the middle of a scan of `h`: its first `k` cells have been given up. */
  ghost predicate Scanning(m: Memory, rc: seq<nat>, h: nat, cells: seq<Val>, k: nat)
    requires h < |m.edges| && k <= |cells|
  {
    |rc| == |m.edges| && forall x: nat :: x < |rc| ==> ScanCount(m, rc, h, cells, k, x)
  }

  ghost predicate ScanCount(m: Memory, rc: seq<nat>, h: nat, cells: seq<Val>, k: nat, x: nat)
    requires h < |m.edges| && k <= |cells| && x < |rc|
  {
    rc[x] == m.roots[x] + InDegree(m.edges[h := multiset{}], x) + Refs(cells, x) - Refs(cells[..k], x)
  }

  lemma ScanStarts(m: Memory, rc: seq<nat>, hole: Hole, h: nat)
    requires Counted(m, rc) && Scannable(m, rc, hole) && Live(m, h)
    ensures Scanning(m, rc, h, Cells(m.heap[h], h, hole), 0)
  {
    var cells := Cells(m.heap[h], h, hole);
    assert EdgesOk(m, hole, h);
    forall x: nat | x < |rc| ensures ScanCount(m, rc, h, cells, 0, x) {
      assert CountOk(m, rc, x);
      DegreeUpdate(m.edges, h, multiset{}, x, |m.edges|);
      assert m.edges[h][x] == Refs(cells, x);
    }
  }

  lemma {:induction false} RefsPrefix(l: seq<Val>, k: nat, x: nat)
    requires k <= |l|
    ensures Refs(l[..k], x) <= Refs(l, x)
    decreases |l|
  {
    if k < |l| {
      RefsPrefix(l[..|l| - 1], k, x);
      assert l[..|l| - 1][..k] == l[..k];
    } else {
      assert l[..k] == l;
    }
  }

  lemma ScanCell(m: Memory, rc: seq<nat>, h: nat, cells: seq<Val>, k: nat, x: nat)
    requires h < |m.edges| && k < |cells| && Scanning(m, rc, h, cells, k) && x < |rc|
    ensures Refs(cells[..k + 1], x) == Refs(cells[..k], x) + One(cells[k], x)
    ensures Refs(cells[..k + 1], x) <= Refs(cells, x)
    ensures cells[k] == Ref(x) ==> rc[x] > 0
  {
    assert cells[..k + 1][..k] == cells[..k];
    RefsPrefix(cells, k + 1, x);
    assert ScanCount(m, rc, h, cells, k, x);
  }

  /** Giving up the reference in cell `k`. */
  lemma ScanNext(m: Memory, rc: seq<nat>, rc': seq<nat>, h: nat, cells: seq<Val>, k: nat)
    requires h < |m.edges| && k < |cells| && Scanning(m, rc, h, cells, k) && |rc'| == |rc|
    requires forall x: nat :: x < |rc| ==> rc'[x] == rc[x] - One(cells[k], x)
    ensures Scanning(m, rc', h, cells, k + 1)
  {
    var j := k + 1;
    forall x: nat | x < |rc'| ensures ScanCount(m, rc', h, cells, j, x) {
      assert ScanCount(m, rc, h, cells, k, x);
      ScanCell(m, rc, h, cells, k, x);
    }
  }

  lemma ScanEnds(m: Memory, rc: seq<nat>, h: nat, cells: seq<Val>)
    requires Live(m, h) && |m.edges| == |m.heap| && Scanning(m, rc, h, cells, |cells|)
    requires forall i: nat :: i < |m.heap| && !m.heap[i].live ==> m.edges[i] == multiset{}
    ensures Counted(Freed(m, {h}), rc)
  {
    var m' := Freed(m, {h});
    assert m'.edges == m.edges[h := multiset{}];
    assert cells[..|cells|] == cells;
    forall x: nat | x < |rc| ensures CountOk(m', rc, x) { assert ScanCount(m, rc, h, cells, |cells|, x); }
  }

  // ---- freeing --------------------------------------------------------------------------------

  /** Nothing live refers to an object whose count is zero. */
  lemma ZeroIsUnused(m: Memory, rc: seq<nat>, x: nat, i: nat)
    requires Counted(m, rc) && x < |rc| && rc[x] == 0 && i < |m.edges|
    ensures x !in m.roots && x !in m.edges[i]
  {
    assert CountOk(m, rc, x);
    DegreeAtLeast(m.edges, i, x, |m.edges|);
  }

  lemma FreedScannable(m: Memory, rc: seq<nat>, rc': seq<nat>, hole: Hole, h: nat)
    requires Counted(m, rc) && Scannable(m, rc, hole) && Live(m, h) && rc[h] == 0
    requires |rc'| == |rc| && forall x: nat :: x < |rc| ==> rc'[x] <= rc[x]
    ensures Scannable(Freed(m, {h}), rc', hole)
  {
    var m' := Freed(m, {h});
    forall i: nat | i < |m.heap| ensures NoneIn(m.edges[i], {h}) { ZeroIsUnused(m, rc, h, i); }
    if |m.heap| > 0 { ZeroIsUnused(m, rc, h, 0); }
    assert Collectible(m, {h});
    forall i: nat | i < |m'.heap| ensures EdgesOk(m', hole, i) {
      assert EdgesOk(m, hole, i);
      FreedEdges(m, hole, {h}, i);
    }
  }

  lemma FreedMore(m0: Memory, f: set<nat>, h: nat)
    ensures Freed(Freed(m0, f), {h}) == Freed(m0, f + {h})
  {
    var a, b := Freed(Freed(m0, f), {h}), Freed(m0, f + {h});
    assert a.heap == b.heap && a.edges == b.edges;
  }

  /** What has been freed so far was free to go. */
  lemma FreedCollectible(m0: Memory, f: set<nat>, rc: seq<nat>)
    requires |m0.edges| == |m0.heap| && Counted(Freed(m0, f), rc)
    requires forall x :: x in f ==> Live(m0, x) && rc[x] == 0
    ensures Collectible(m0, f)
  {
    var m := Freed(m0, f);
    forall x | x in f ensures x !in m0.roots { ZeroIsUnused(m, rc, x, x); }
    forall i | 0 <= i < |m0.heap| && m0.heap[i].live && i !in f ensures NoneIn(m0.edges[i], f) {
      forall t | t in m0.edges[i] ensures t !in f {
        if t in f { ZeroIsUnused(m, rc, t, i); }
      }
    }
  }

  predicate Distinct(l: seq<nat>) {
    forall i, j :: 0 <= i < j < |l| ==> l[i] != l[j]
  }

  /** The worklist holds live objects whose count is zero, each once. */
  ghost predicate WorkOk(m: Memory, rc: seq<nat>, work: seq<nat>) {
    Distinct(work) && forall x :: x in work ==> Live(m, x) && x < |rc| && rc[x] == 0
  }

  /** Objects that reached zero are on the worklist; any other zero was there before. */
  ghost predicate Pending(m: Memory, rc: seq<nat>, work: seq<nat>, before: seq<nat>) {
    |before| == |rc| && forall x: nat :: x < |rc| ==> PendingAt(m, rc, work, before, x)
  }

  ghost predicate PendingAt(m: Memory, rc: seq<nat>, work: seq<nat>, before: seq<nat>, x: nat)
    requires x < |rc| == |before|
  {
    rc[x] <= before[x] && (Live(m, x) && rc[x] == 0 && x !in work ==> before[x] == 0)
  }

  lemma PushWork(m: Memory, rc: seq<nat>, work: seq<nat>, x: nat)
    requires WorkOk(m, rc, work) && Live(m, x) && x < |rc| && rc[x] == 1
    ensures WorkOk(m, rc[x := 0], work + [x])
  {
    assert x !in work;
  }

  /** Objects that are gone by the end of a release: they were alive, and their counts are zero. */
  ghost predicate GoneAtZero(m0: Memory, f: set<nat>, rc: seq<nat>) {
    forall x :: x in f ==> Live(m0, x) && x < |rc| && rc[x] == 0
  }

  class ArcBackend {
    const store: ObjectStore
    var rc: seq<nat>
    ghost var roots: multiset<nat>
    ghost var edges: seq<multiset<nat>>

    /** What the counts stand for. */
    ghost function Mem(): Memory
      reads this, store
    {
      Memory(store.objs, roots, edges)
    }

    /** Counts are exact, and the payload scan sees exactly the edges. */
    ghost predicate Valid(hole: Hole)
      reads this, store
    {
      store.Valid() && Counted(Mem(), rc) && ScanEdges(Mem(), hole)
    }

    constructor (store: ObjectStore)
      requires store.Valid() && forall i :: 0 <= i < |store.objs| ==> store.objs[i] == DEAD
      ensures this.store == store && Valid(None)
      ensures Mem() == Memory(store.objs, multiset{}, seq(|store.objs|, _ => multiset{}))
    {
      this.store := store;
      rc := seq(|store.objs|, _ => 0);
      roots, edges := multiset{}, seq(|store.objs|, _ => multiset{});
      new;
      forall x: nat | x < |rc| ensures CountOk(Mem(), rc, x) { NoDegree(edges, x, |edges|); }
    }

    /** Give up the references of a dying object; what drops to zero goes on the worklist. */
    method GiveUp(h: nat, work0: seq<nat>, ghost hole: Hole, ghost before: seq<nat>) returns (work: seq<nat>)
      requires Valid(hole) && Scannable(Mem(), rc, hole) && Live(Mem(), h) && rc[h] == 0 && WorkOk(Mem(), rc, work0) && h !in work0
      requires Pending(Mem(), rc, work0 + [h], before)
      modifies this`rc
      ensures |rc| == |store.objs| && Counted(Freed(Mem(), {h}), rc)
      ensures WorkOk(Mem(), rc, work) && h !in work && rc[h] == 0
      ensures forall x :: x in work0 ==> x in work
      ensures forall x: nat :: x < |rc| ==> rc[x] <= old(rc)[x]
      ensures Pending(Freed(Mem(), {h}), rc, work, before)
    {
      work := work0;
      ghost var cells := Cells(store.objs[h], h, hole);
      ScanStarts(Mem(), rc, hole, h);
      assert EdgesOk(Mem(), hole, h);
      for k := 0 to |store.objs[h].cells|
        invariant |cells| == |store.objs[h].cells| && |rc| == |store.objs| && Scanning(Mem(), rc, h, cells, k)
        invariant WorkOk(Mem(), rc, work) && h !in work && rc[h] == 0
        invariant forall x :: x in work0 ==> x in work
        invariant forall x: nat :: x < |rc| ==> rc[x] <= old(rc)[x]
        invariant Pending(Mem(), rc, work + [h], before)
      {
        var cell := store.objs[h].cells[k];
        if cell.Ref? && cell.h < |rc| && rc[cell.h] != 0 {
          HoleOrCell(Mem(), old(rc), hole, h, k);
          ScanCell(Mem(), rc, h, cells, k, cell.h);
          ghost var rc1 := rc;
          work := Decrement(cell.h, work, h, before);
          ScanNext(Mem(), rc1, rc, h, cells, k);
        } else {
          SkippedCell(Mem(), old(rc), rc, hole, h, cells, k);
          ScanNext(Mem(), rc, rc, h, cells, k);
        }
      }
      ScanEnds(Mem(), rc, h, cells);
      DonePending(Mem(), rc, work, before, h);
    }

    method Decrement(x: nat, work0: seq<nat>, ghost h: nat, ghost before: seq<nat>) returns (work: seq<nat>)
      requires x < |rc| && rc[x] > 0 && Live(Mem(), x) && WorkOk(Mem(), rc, work0) && h !in work0 && h < |rc| && rc[h] == 0
      requires Pending(Mem(), rc, work0 + [h], before)
      modifies this`rc
      ensures rc == old(rc)[x := old(rc)[x] - 1]
      ensures WorkOk(Mem(), rc, work) && h !in work && Pending(Mem(), rc, work + [h], before)
      ensures forall y :: y in work0 ==> y in work
    {
      rc := rc[x := rc[x] - 1];
      work := work0;
      if rc[x] == 0 {
        PushWork(Mem(), old(rc), work0, x);
        work := work0 + [x];
      }
      forall y: nat | y < |rc| ensures PendingAt(Mem(), rc, work + [h], before, y) {
        assert PendingAt(Mem(), old(rc), work0 + [h], before, y);
        assert y in work0 + [h] ==> y in work + [h];
      }
    }

    method Dispose(h: nat, work0: seq<nat>, ghost hole: Hole, ghost before: seq<nat>) returns (work: seq<nat>)
      requires Valid(hole) && Scannable(Mem(), rc, hole) && Live(Mem(), h) && rc[h] == 0
      requires WorkOk(Mem(), rc, work0) && h !in work0 && Pending(Mem(), rc, work0 + [h], before)
      modifies this, store
      ensures Valid(hole) && Scannable(Mem(), rc, hole) && |rc| == |old(rc)| && h < |rc| && rc[h] == 0
      ensures Mem() == Freed(old(Mem()), {h}) && LiveCount(store.objs) < LiveCount(old(store.objs))
      ensures WorkOk(Mem(), rc, work) && Pending(Mem(), rc, work, before) && forall x :: x in work0 ==> x in work
      ensures forall x: nat :: x < |rc| ==> rc[x] <= old(rc)[x]
    {
      work := GiveUp(h, work0, hole, before);
      FreedScannable(old(Mem()), old(rc), rc, hole, h);
      OneFewer(store.objs, h);
      ghost var m := Mem();
      store.Free(h);
      edges := edges[h := multiset{}];
      assert store.objs == Freed(m, {h}).heap && edges == Freed(m, {h}).edges;
    }

    /** The worklist: every object whose count has dropped to zero is scanned once and freed. */
    method Reclaim(root: nat, ghost hole: Hole, ghost before: seq<nat>) returns (ghost f: set<nat>)
      requires Valid(hole) && Scannable(Mem(), rc, hole) && Live(Mem(), root) && rc[root] == 0
      requires Pending(Mem(), rc, [root], before)
      modifies this, store
      ensures Valid(hole) && |rc| == |old(rc)| && roots == old(roots)
      ensures root in f && Mem() == Freed(old(Mem()), f) && Collectible(old(Mem()), f) && GoneAtZero(old(Mem()), f, rc)
      ensures Pending(Mem(), rc, [], before)
    {
      var work := [root];
      f := {};
      ghost var m0 := Mem();
      assert Freed(m0, {}) == m0 by { assert Freed(m0, {}).heap == m0.heap && Freed(m0, {}).edges == m0.edges; }
      while work != []
        invariant Valid(hole) && Scannable(Mem(), rc, hole) && |rc| == |m0.heap| && Mem() == Freed(m0, f) && roots == m0.roots
        invariant WorkOk(Mem(), rc, work) && GoneAtZero(m0, f, rc) && (root in f || root in work)
        invariant Pending(Mem(), rc, work, before)
        decreases LiveCount(store.objs)
      {
        var h := work[|work| - 1];
        var rest := work[..|work| - 1];
        assert work == rest + [h] && h !in rest;
        work := Dispose(h, rest, hole, before);
        FreedMore(m0, f, h);
        f := f + {h};
      }
      FreedCollectible(m0, f, rc);
    }

    /** Drop one count; at zero the object goes. */
    method Release(h: nat, ghost hole: Hole) returns (ghost f: set<nat>)
      requires store.Valid() && |rc| == |store.objs| == |edges| && h < |rc| && rc[h] > 0 && Live(Mem(), h)
      requires Counted(Mem(), rc[h := rc[h] - 1]) && ScanEdges(Mem(), hole)
      requires hole.At? && Live(Mem(), hole.base) && hole.k < |store.objs[hole.base].cells| ==> store.objs[hole.base].cells[hole.k] == Ref(h)
      modifies this, store
      ensures Valid(hole) && |rc| == |old(rc)| && roots == old(roots)
      ensures Mem() == Freed(old(Mem()), f) && Collectible(old(Mem()), f)
      ensures forall x: nat :: x < |rc| && Live(Mem(), x) && rc[x] == 0 ==> old(rc)[x] == 0
    {
      rc := rc[h := rc[h] - 1];
      f := {};
      if rc[h] == 0 {
        f := Reclaim(h, hole, old(rc));
        forall x: nat | x < |rc| && Live(Mem(), x) && rc[x] == 0 ensures old(rc)[x] == 0 {
          assert PendingAt(Mem(), rc, [], old(rc), x);
        }
      } else {
        ghost var m := Mem();
        assert Freed(m, {}).heap == m.heap && Freed(m, {}).edges == m.edges;
      }
    }

    /** A root is released: what becomes garbage by count is freed, and every count is exact again. */
    method RootRemove(h: nat) returns (ghost f: set<nat>)
      requires Valid(None) && h in roots && Live(Mem(), h)
      modifies this, store
      ensures Valid(None) && |rc| == |old(rc)|
      ensures var m := old(Mem()).(roots := old(roots) - multiset{h}); Collectible(m, f) && Mem() == Freed(m, f)
      ensures forall x: nat :: x < |rc| && Live(Mem(), x) && rc[x] == 0 ==> old(rc)[x] == 0
    {
      assert CountOk(Mem(), rc, h);
      RootsRecounted(Mem(), rc, roots - multiset{h}, rc[h := rc[h] - 1]);
      roots := roots - multiset{h};
      f := Release(h, None);
    }

    method RootAdd(h: nat)
      requires Valid(None) && Live(Mem(), h)
      modifies this
      ensures Valid(None) && Mem() == old(Mem()).(roots := old(roots) + multiset{h})
      ensures rc == old(rc)[h := old(rc)[h] + 1]
    {
      RootsRecounted(Mem(), rc, roots + multiset{h}, rc[h := rc[h] + 1]);
      rc := rc[h := rc[h] + 1];
      roots := roots + multiset{h};
    }

    /** The edge in cell `k` of `b` is given up while the cell still shows it. */
    method EdgeRemove(b: nat, k: nat) returns (ghost f: set<nat>)
      requires Valid(None) && Live(Mem(), b) && k < |store.objs[b].cells| && store.objs[b].cells[k].Ref?
      modifies this, store
      ensures Valid(At(b, k)) && |rc| == |old(rc)|
      ensures b < |old(edges)|
      ensures var m := Unedged(old(Mem()), b, old(store.objs)[b].cells[k].h);
        Collectible(m, f) && Mem() == Freed(m, f)
      ensures forall x: nat :: x < |rc| && Live(Mem(), x) && rc[x] == 0 ==> old(rc)[x] == 0
    {
      var t := store.objs[b].cells[k].h;
      EdgeGivenUp(Mem(), rc, b, k);
      edges := edges[b := edges[b] - multiset{t}];
      f := Release(t, At(b, k));
    }

    method EdgeAdd(b: nat, k: nat)
      requires Valid(At(b, k)) && Live(Mem(), b) && k < |store.objs[b].cells| && store.objs[b].cells[k].Ref?
      requires Live(Mem(), store.objs[b].cells[k].h)
      modifies this
      ensures Valid(None) && b < |old(edges)|
      ensures Mem() == Edged(old(Mem()), b, old(store.objs)[b].cells[k].h)
    {
      var t := store.objs[b].cells[k].h;
      EdgeTaken(Mem(), rc, b, k);
      rc := rc[t := rc[t] + 1];
      edges := edges[b := edges[b] + multiset{t}];
    }

    /** The machine overwrites the hole; counts and edges do not change. */
    method CellWritten(b: nat, k: nat, v: Val)
      requires Valid(At(b, k)) && Live(Mem(), b) && k < |store.objs[b].cells|
      modifies store
      ensures Valid(At(b, k)) && Mem() == Stored(old(Mem()), b, k, v)
    {
      StoredScan(Mem(), rc, b, k, v);
      store.Write(b, k, v);
    }

    /** A new object starts at count zero, whatever its slot held before. */
    method OnAlloc(h: nat, n: nat, ghost m: Memory)
      requires store.Valid() && Counted(m, rc) && ScanEdges(m, None) && Allocatable(m.heap, h) && h !in m.roots
      requires store.objs == AllocatedIn(m.heap, h, n) && roots == m.roots && edges == m.edges
      modifies this
      ensures Valid(None) && Mem() == Allocated(m, h, n) && h < |rc| && rc[h] == 0
    {
      ghost var rc0 := rc;
      if h >= |rc| { rc := rc + [0]; }
      rc := rc[h := 0];
      edges := Allocated(m, h, n).edges;
      AllocCounted(m, rc0, Mem(), rc, h, store.objs[h]);
    }
  }

  /** Writing the hole changes neither counts nor what the scan may rely on. */
  lemma StoredScan(m: Memory, rc: seq<nat>, b: nat, k: nat, v: Val)
    requires Counted(m, rc) && ScanEdges(m, At(b, k)) && Live(m, b) && k < |m.heap[b].cells|
    ensures Counted(Stored(m, b, k, v), rc) && ScanEdges(Stored(m, b, k, v), At(b, k))
  {
    var m' := Stored(m, b, k, v);
    forall x: nat | x < |rc| ensures CountOk(m', rc, x) { assert CountOk(m, rc, x); }
    forall i: nat | i < |m'.heap| ensures EdgesOk(m', At(b, k), i) {
      assert EdgesOk(m, At(b, k), i);
      assert Cells(m'.heap[i], i, At(b, k)) == Cells(m.heap[i], i, At(b, k));
    }
  }

  /** A cell without a reference may be a hole, and the other way round. */
  lemma PlainScan(m: Memory, b: nat, k: nat)
    requires Live(m, b) && k < |m.heap[b].cells| && !m.heap[b].cells[k].Ref?
    ensures ScanEdges(m, None) <==> ScanEdges(m, At(b, k))
  {
    if |m.edges| == |m.heap| {
      forall i: nat | i < |m.heap| ensures EdgesOk(m, None, i) <==> EdgesOk(m, At(b, k), i) {
        if i == b {
          forall x: nat ensures Refs(Cells(m.heap[i], i, At(b, k)), x) == Refs(m.heap[i].cells, x) {
            RefsUpdate(m.heap[b].cells, k, ZERO, x);
          }
        }
      }
    }
  }

  lemma {:induction false} NoDegree(edges: seq<multiset<nat>>, x: nat, n: nat)
    requires n <= |edges| && forall i :: 0 <= i < |edges| ==> edges[i] == multiset{}
    ensures Degree(edges, x, n) == 0
  {
    if n > 0 { NoDegree(edges, x, n - 1); }
  }

  lemma {:induction false} UnnamedDegree(m: Memory, x: nat, n: nat)
    requires |m.edges| == |m.heap| && n <= |m.edges| && !Live(m, x)
    requires forall i: nat :: i < |m.edges| ==> x !in m.edges[i]
    ensures Degree(m.edges, x, n) == 0
  {
    if n > 0 { UnnamedDegree(m, x, n - 1); }
  }

  lemma AllocCounted(m: Memory, rc: seq<nat>, m': Memory, rc': seq<nat>, h: nat, o: Obj)
    requires Counted(m, rc) && ScanEdges(m, None) && h <= |m.heap| && !Live(m, h) && h !in m.roots && m'.roots == m.roots
    requires o.live && forall i :: 0 <= i < |o.cells| ==> o.cells[i] == ZERO
    requires if h == |m.heap| then m'.heap == m.heap + [o] && m'.edges == m.edges + [multiset{}] && rc' == rc + [0]
             else m'.heap == m.heap[h := o] && m'.edges == m.edges[h := multiset{}] && rc' == rc[h := 0]
    ensures Counted(m', rc') && ScanEdges(m', None)
  {
    forall i: nat | i < |m.edges| ensures h !in m.edges[i] { assert EdgesOk(m, None, i); }
    UnnamedDegree(m, h, |m.edges|);
    forall x: nat | x < |rc'| ensures CountOk(m', rc', x) {
      if x < |rc| { assert CountOk(m, rc, x); }
      if h == |m.heap| {
        DegreeSame(m.edges, m'.edges, x, |m.edges|);
      } else {
        DegreeSame(m.edges, m'.edges, x, |m.edges|);
      }
    }
    forall i: nat | i < |m'.heap| ensures EdgesOk(m', None, i) {
      if i == h {
        forall t: nat ensures Refs(Cells(o, i, None), t) == 0 { NoRefs(o.cells, t); }
      } else {
        assert EdgesOk(m, None, i);
      }
    }
  }

  // ---- payload sizes --------------------------------------------------------------------------

  /** The reclaim scan reads every reserved cell.  On 32-bit sizes it never faults exactly when the
      request is a positive multiple of the cell size, or so large that its rounding wraps to one
      cell.  A request of zero bytes reserves one cell it may not read. */
  lemma ScanNeverFaultsIff(size: nat)
    requires size < B.WORD32
    ensures (forall k: nat :: k < P.Reserved(size) ==> P.Accessible(size, k * P.CELL)) <==>
            (size > 0 && size % P.CELL == 0) || size >= P.WRAPS
  {
    var n := P.Reserved(size);
    if size >= P.WRAPS {
      P.ReservedEnoughIff(size);
      assert n == 1;
    } else if size > 0 && size % P.CELL == 0 {
      assert n * P.CELL == size;
      forall k: nat | k < n ensures P.Accessible(size, k * P.CELL) {}
    } else {
      assert !P.Accessible(size, (n - 1) * P.CELL);
    }
  }

  ghost function LiveSet(heap: seq<Obj>): set<nat> {
    set i: nat | i < |heap| && heap[i].live
  }

  ghost function LiveCount(heap: seq<Obj>): nat { |LiveSet(heap)| }

  lemma OneFewer(heap: seq<Obj>, h: nat)
    requires h < |heap| && heap[h].live
    ensures LiveCount(heap[h := DEAD]) < LiveCount(heap)
  {
    assert LiveSet(heap) == LiveSet(heap[h := DEAD]) + {h};
  }

  /** A cell that still counts is not the hole. */
  lemma HoleOrCell(m: Memory, rc: seq<nat>, hole: Hole, h: nat, k: nat)
    requires Scannable(m, rc, hole) && Live(m, h) && k < |m.heap[h].cells| && m.heap[h].cells[k].Ref?
    requires m.heap[h].cells[k].h < |rc| && rc[m.heap[h].cells[k].h] != 0
    ensures Cells(m.heap[h], h, hole)[k] == m.heap[h].cells[k] && Live(m, m.heap[h].cells[k].h)
  {
    var cells := Cells(m.heap[h], h, hole);
    assert EdgesOk(m, hole, h);
    RefsAt(cells, k);
    assert m.edges[h][cells[k].h] > 0;
  }

  /** A cell that is passed over holds no reference the counts know of. */
  lemma SkippedCell(m: Memory, rc0: seq<nat>, rc: seq<nat>, hole: Hole, h: nat, cells: seq<Val>, k: nat)
    requires Scannable(m, rc0, hole) && Live(m, h) && k < |m.heap[h].cells| && cells == Cells(m.heap[h], h, hole)
    requires h < |m.edges| && |cells| == |m.heap[h].cells| && Scanning(m, rc, h, cells, k)
    requires m.heap[h].cells[k].Ref? ==> m.heap[h].cells[k].h >= |rc| || rc[m.heap[h].cells[k].h] == 0
    ensures !cells[k].Ref?
  {
    if cells[k].Ref? {
      assert EdgesOk(m, hole, h);
      RefsAt(cells, k);
      assert m.edges[h][cells[k].h] > 0;
      ScanCell(m, rc, h, cells, k, cells[k].h);
    }
  }

  lemma DonePending(m: Memory, rc: seq<nat>, work: seq<nat>, before: seq<nat>, h: nat)
    requires Pending(m, rc, work + [h], before)
    ensures Pending(Freed(m, {h}), rc, work, before)
  {
    forall x: nat | x < |rc| ensures PendingAt(Freed(m, {h}), rc, work, before, x) {
      assert PendingAt(m, rc, work + [h], before, x);
    }
  }
}
