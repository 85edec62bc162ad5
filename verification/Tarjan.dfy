/** The cycle detector's iterative depth-first search for strongly connected components, as steps
    on a value, with the invariant that makes every closed component a component of the graph. */
module Tarjan {
  import opened Graphs
  import opened Cells
  import opened Sweeping

  const UNVISITED: nat := 0xFFFF_FFFF

  /** Scratch arrays, node stack, explicit frames (`next[p]` is the next outgoing record of
      `frames[p]`), and the nodes listed so far. */
  datatype Scan = Scan(
    disc: seq<nat>,
    low: seq<nat>,
    on: seq<bool>,
    scc: seq<nat>,
    tarjan: seq<nat>,
    frames: seq<nat>,
    next: seq<nat>,
    time: nat,
    comps: nat,
    visited: seq<nat>)
  {
    predicate Sized(n: nat) {
      && |disc| == |low| == |on| == |scc| == n
      && |frames| == |next|
      && (forall p :: 0 <= p < |frames| ==> frames[p] < n)
      && (forall k :: 0 <= k < |tarjan| ==> tarjan[k] < n)
      && (forall k :: 0 <= k < |visited| ==> visited[k] < n)
    }
  }

  /** Scratch as it must be before a scan. */
  predicate Clean(s: Scan, n: nat) {
    && s.Sized(n)
    && (forall v :: 0 <= v < n ==>
          s.disc[v] == 0 && s.low[v] == 0 && !s.on[v] && s.scc[v] == UNVISITED)
  }

  function Start(s: Scan): Scan {
    s.(tarjan := [], frames := [], next := [], time := 0, comps := 0, visited := [])
  }

  // ---- steps ----------------------------------------------------------------------------------

  function Top(s: Scan): nat
    requires s.frames != []
  {
    s.frames[|s.frames| - 1]
  }

  function TopNext(s: Scan): nat
    requires s.frames != [] && |s.frames| == |s.next|
  {
    s.next[|s.next| - 1]
  }

  /** Open a frame for `v`; it is discovered when the loop next looks at it. */
  function Push(s: Scan, v: nat): Scan {
    s.(frames := s.frames + [v], next := s.next + [0])
  }

  function Discover(s: Scan): Scan
    requires s.frames != [] && Top(s) < |s.disc| == |s.low| == |s.on|
  {
    var u := Top(s);
    s.(disc := s.disc[u := s.time + 1], low := s.low[u := s.time + 1], on := s.on[u := true],
       tarjan := s.tarjan + [u], visited := s.visited + [u], time := s.time + 1)
  }

  /** Move past the next outgoing record of the top frame. */
  function Skip(s: Scan): Scan
    requires s.frames != [] && |s.frames| == |s.next|
  {
    s.(next := s.next[|s.next| - 1 := TopNext(s) + 1])
  }

  function Lower(s: Scan, u: nat, l: nat): Scan
    requires u < |s.low|
  {
    if l < s.low[u] then s.(low := s.low[u := l]) else s
  }

  function PopFrame(s: Scan): Scan
    requires s.frames != [] && |s.frames| == |s.next|
  {
    s.(frames := s.frames[..|s.frames| - 1], next := s.next[..|s.next| - 1])
  }

  /** The position of `u` on the node stack. */
  function Position(t: seq<nat>, u: nat): (k: nat)
    requires u in t
    ensures k < |t| && t[k] == u
  {
    if t[|t| - 1] == u then |t| - 1 else Position(t[..|t| - 1], u)
  }

  /** Everything on the node stack from `u` up becomes one component. */
  function CloseComponent(s: Scan, u: nat): Scan
    requires u in s.tarjan && |s.on| == |s.scc|
  {
    var k := Position(s.tarjan, u);
    s.(tarjan := s.tarjan[..k],
       on := seq(|s.on|, v requires 0 <= v < |s.on| => s.on[v] && v !in s.tarjan[k..]),
       scc := seq(|s.scc|, v requires 0 <= v < |s.scc| => if v in s.tarjan[k..] then s.comps else s.scc[v]),
       comps := s.comps + 1)
  }

  /** Finish the top frame: close a component if it is the root of one, then fold its low-link
      into its parent. */
  function Finish(s: Scan): Scan
    requires s.frames != [] && |s.frames| == |s.next|
    requires Top(s) < |s.disc| == |s.low| == |s.on| == |s.scc|
    requires s.low[Top(s)] == s.disc[Top(s)] ==> Top(s) in s.tarjan
    requires |s.frames| > 1 ==> s.frames[|s.frames| - 2] < |s.low|
  {
    var u := Top(s);
    var s1 := PopFrame(s);
    var s2 := if s.low[u] == s.disc[u] then CloseComponent(s1, u) else s1;
    if s2.frames == [] then s2 else Lower(s2, Top(s2), s.low[u])
  }

  // ---- invariant ------------------------------------------------------------------------------

  /** `g` has exactly the edges recorded between live cells. */
  ghost predicate Graphed(h: Heap, g: Graph) {
    && |h.pool| == |h.tab|
    && (forall x :: x in g ==> Recorded(h, x.0, x.1))
    && (forall u: nat, k :: u < |h.tab| && 0 <= k < |h.tab[u].outs| ==> Drawn(h, g, u, h.tab[u].outs[k]))
  }

  ghost predicate Recorded(h: Heap, u: nat, v: nat)
    requires |h.pool| == |h.tab|
  {
    u < |h.tab| && v < |h.tab| && h.pool[v].live && Current(h.pool, v) in h.tab[u].outs
  }

  ghost predicate Drawn(h: Heap, g: Graph, u: nat, t: Handle) {
    Valid(h.pool, t) ==> (u, t.index) in g
  }

  lemma EdgesGraphed(h: Heap)
    requires |h.pool| == |h.tab|
    ensures Graphed(h, Edges(h.pool, h.tab))
  {
    var g := Edges(h.pool, h.tab);
    forall x | x in g ensures Recorded(h, x.0, x.1) {
      EdgeIff(h.pool, h.tab, x.0, x.1);
    }
    forall u: nat, k | u < |h.tab| && 0 <= k < |h.tab[u].outs| ensures Drawn(h, g, u, h.tab[u].outs[k]) {
      assert h.tab[u].outs[k] in h.tab[u].outs;
    }
  }

  ghost predicate InBounds(g: Graph, n: nat) {
    forall x :: x in g ==> x.0 < n && x.1 < n
  }

  ghost predicate Books(s: Scan, n: nat)
    requires s.Sized(n)
  {
    && (forall j, k :: 0 <= j < k < |s.visited| ==> s.visited[j] != s.visited[k])
    && (forall v :: 0 <= v < n ==> BookedNode(s, n, v))
    && s.comps + |s.tarjan| <= |s.visited|
    && (forall c: nat :: c < s.comps ==> Used(s, c))
  }

  ghost predicate Used(s: Scan, c: nat) { exists v :: 0 <= v < |s.scc| && s.scc[v] == c }

  ghost predicate BookedNode(s: Scan, n: nat, v: nat)
    requires s.Sized(n) && v < n
  {
    && s.disc[v] <= s.time
    && (v in s.visited <==> s.disc[v] > 0)
    && (v in s.tarjan <==> s.on[v])
    && (s.disc[v] > 0 <==> s.on[v] || s.scc[v] != UNVISITED)
    && (s.on[v] ==> s.scc[v] == UNVISITED)
    && (s.scc[v] != UNVISITED ==> s.scc[v] < s.comps)
  }

  /** The node stack and the frames are in discovery order. */
  ghost predicate Ordered(s: Scan, n: nat)
    requires s.Sized(n)
  {
    && (forall j, k :: 0 <= j < k < |s.tarjan| ==> s.disc[s.tarjan[j]] < s.disc[s.tarjan[k]])
    && (forall p, q :: 0 <= p < q < |s.frames| ==> s.disc[s.frames[p]] < s.disc[s.frames[q]])
    && (forall p :: 0 <= p < |s.frames| ==> s.on[s.frames[p]])
  }

  /** Finished nodes and the records already passed lead only to discovered nodes. */
  ghost predicate Explored(s: Scan, h: Heap, g: Graph)
    requires s.Sized(|h.tab|) && |h.pool| == |h.tab| && InBounds(g, |h.tab|)
  {
    && (forall p :: 0 <= p < |s.frames| ==> s.next[p] <= |h.tab[s.frames[p]].outs|)
    && (forall p, k :: 0 <= p < |s.frames| && 0 <= k < s.next[p] ==> Seen(s, h, h.tab[s.frames[p]].outs[k]))
    && (forall x :: x in g && s.disc[x.0] > 0 && x.0 !in s.frames ==> s.disc[x.1] > 0)
  }

  ghost predicate Seen(s: Scan, h: Heap, t: Handle)
    requires s.Sized(|h.tab|) && |h.pool| == |h.tab|
  {
    Valid(h.pool, t) ==> s.disc[t.index] > 0
  }

  /** Closed components are closed under edges and are exactly the components of the graph. */
  ghost predicate Assigned(s: Scan, n: nat, g: Graph)
    requires s.Sized(n) && InBounds(g, n)
  {
    && (forall x :: x in g && s.scc[x.0] != UNVISITED ==> s.scc[x.1] != UNVISITED)
    && (forall u: nat, v: nat :: u < n && v < n ==> IdIff(s, g, u, v))
  }

  /** Two nodes of closed components have the same id exactly if each reaches the other. */
  ghost predicate IdIff(s: Scan, g: Graph, u: nat, v: nat)
    requires u < |s.scc| && v < |s.scc|
  {
    s.scc[u] != UNVISITED && s.scc[v] != UNVISITED ==>
      (s.scc[u] == s.scc[v] <==> SameComponent(g, u, v))
  }

  /** A frame reaches everything above it on the node stack, and everything on the node stack
      reaches a frame at or below it. */
  ghost predicate Linked(s: Scan, n: nat, g: Graph)
    requires s.Sized(n)
  {
    && (forall p: nat, x: nat :: p < |s.frames| && x < n ==> Covers(s, n, g, p, x))
    && (forall x: nat :: x < n ==> Backed(s, n, g, x))
  }

  ghost predicate Covers(s: Scan, n: nat, g: Graph, p: nat, x: nat)
    requires s.Sized(n) && p < |s.frames| && x < n
  {
    s.on[x] && s.disc[s.frames[p]] <= s.disc[x] ==> Reach(g, s.frames[p], x)
  }

  ghost predicate Backed(s: Scan, n: nat, g: Graph, x: nat)
    requires s.Sized(n) && x < n
  {
    s.on[x] ==> exists p: nat :: p < |s.frames| && s.disc[s.frames[p]] <= s.disc[x] && Reach(g, x, s.frames[p])
  }

  /** `x` was discovered under frame `p` and not under a later one. */
  ghost predicate Under(s: Scan, n: nat, p: nat, x: nat)
    requires s.Sized(n) && p < |s.frames| && x < n
  {
    && s.on[x] && s.disc[s.frames[p]] <= s.disc[x]
    && (p + 1 < |s.frames| ==> s.disc[x] < s.disc[s.frames[p + 1]])
  }

  /** A low-link names a node on the stack that the frame reaches ... */
  ghost predicate LowReached(s: Scan, n: nat, g: Graph, f: nat)
    requires s.Sized(n) && f < n
  {
    exists z: nat :: z < n && s.on[z] && s.disc[z] == s.low[f] && Reach(g, f, z)
  }

  /** ... and is no larger than anything on the stack that a record passed under it leads to. */
  ghost predicate LowBound(s: Scan, h: Heap, g: Graph, p: nat)
    requires s.Sized(|h.tab|) && |h.pool| == |h.tab| && InBounds(g, |h.tab|) && p < |s.frames|
  {
    && (forall x :: x in g && x.0 !in s.frames && Under(s, |h.tab|, p, x.0) && s.on[x.1] ==>
          s.low[s.frames[p]] <= s.disc[x.1])
    && (forall k :: 0 <= k < s.next[p] && k < |h.tab[s.frames[p]].outs| ==>
          NotBelow(s, h, h.tab[s.frames[p]].outs[k], s.low[s.frames[p]]))
  }

  ghost predicate NotBelow(s: Scan, h: Heap, t: Handle, l: nat)
    requires s.Sized(|h.tab|) && |h.pool| == |h.tab|
  {
    Valid(h.pool, t) && s.on[t.index] ==> l <= s.disc[t.index]
  }

  ghost predicate LowOk(s: Scan, h: Heap, g: Graph, p: nat)
    requires s.Sized(|h.tab|) && |h.pool| == |h.tab| && InBounds(g, |h.tab|) && p < |s.frames|
  {
    && s.low[s.frames[p]] <= s.disc[s.frames[p]]
    && LowReached(s, |h.tab|, g, s.frames[p])
    && LowBound(s, h, g, p)
  }

  ghost predicate Lows(s: Scan, h: Heap, g: Graph)
    requires s.Sized(|h.tab|) && |h.pool| == |h.tab| && InBounds(g, |h.tab|)
  {
    forall p: nat :: p < |s.frames| ==> LowOk(s, h, g, p)
  }

  /** Everything listed is reached from one of the scan's roots. */
  ghost predicate Origins(s: Scan, n: nat, g: Graph, roots: set<nat>)
    requires s.Sized(n)
  {
    forall v: nat :: v < n ==> Origin(s, n, g, roots, v)
  }

  ghost predicate Origin(s: Scan, n: nat, g: Graph, roots: set<nat>, v: nat)
    requires s.Sized(n) && v < n
  {
    s.disc[v] > 0 ==> FromRoot(g, roots, v)
  }

  ghost predicate FromRoot(g: Graph, roots: set<nat>, v: nat) {
    exists r :: r in roots && Reach(g, r, v)
  }

  ghost predicate Inv(s: Scan, h: Heap, g: Graph, roots: set<nat>) {
    && |h.pool| == |h.tab| < UNVISITED && InBounds(g, |h.tab|)
    && s.Sized(|h.tab|)
    && Books(s, |h.tab|)
    && Ordered(s, |h.tab|)
    && Explored(s, h, g)
    && Assigned(s, |h.tab|, g)
    && Linked(s, |h.tab|, g)
    && Lows(s, h, g)
    && Origins(s, |h.tab|, g, roots)
  }

  lemma StartInv(s: Scan, h: Heap, g: Graph)
    requires |h.pool| == |h.tab| < UNVISITED && Clean(s, |h.tab|) && InBounds(g, |h.tab|)
    ensures Inv(Start(s), h, g, {})
  {
  }

  // ---- a node is discovered -------------------------------------------------------------------

  /** `s'` is `s` with `v` opened and discovered, from the record the top frame was looking at. */
  ghost predicate Entered(s: Scan, s': Scan, h: Heap, g: Graph, v: nat) {
    && |h.pool| == |h.tab| && InBounds(g, |h.tab|) && s.Sized(|h.tab|) && v < |h.tab| && s.disc[v] == 0
    && s'.disc == s.disc[v := s.time + 1] && s'.low == s.low[v := s.time + 1]
    && s'.on == s.on[v := true] && s'.scc == s.scc && s'.comps == s.comps
    && s'.tarjan == s.tarjan + [v] && s'.visited == s.visited + [v]
    && s'.frames == s.frames + [v] && s'.time == s.time + 1
    && |s'.next| == |s.next| + 1 && s'.next[|s.next|] == 0
    && (forall p :: 0 <= p < |s.frames| ==> s'.next[p] == s.next[p] || PassedTo(s, s', h, p, v))
    && (s.frames != [] ==> (Top(s), v) in g)
  }

  ghost predicate PassedTo(s: Scan, s': Scan, h: Heap, p: nat, v: nat)
    requires s.Sized(|h.tab|) && |s'.next| > |s.next| && p < |s.frames|
  {
    && s'.next[p] == s.next[p] + 1 <= |h.tab[s.frames[p]].outs|
    && h.tab[s.frames[p]].outs[s.next[p]].index == v
  }

  lemma EnterBooks(s: Scan, s': Scan, h: Heap, g: Graph, v: nat)
    requires Entered(s, s', h, g, v) && Books(s, |h.tab|) && Ordered(s, |h.tab|)
    ensures s'.Sized(|h.tab|) && Books(s', |h.tab|) && Ordered(s', |h.tab|)
  {
    var n := |h.tab|;
    assert BookedNode(s, n, v);
    forall w: nat | w < n ensures BookedNode(s', n, w) {
      assert BookedNode(s, n, w);
    }
    forall p | 0 <= p < |s.frames| ensures s.disc[s.frames[p]] <= s.time && s.frames[p] != v {
      assert BookedNode(s, n, s.frames[p]);
    }
    forall k | 0 <= k < |s.tarjan| ensures s.disc[s.tarjan[k]] <= s.time && s.tarjan[k] != v {
      assert BookedNode(s, n, s.tarjan[k]);
    }
    forall c: nat | c < s.comps ensures Used(s', c) { assert Used(s, c); }
  }

  lemma EnterExplored(s: Scan, s': Scan, h: Heap, g: Graph, v: nat)
    requires Entered(s, s', h, g, v) && s'.Sized(|h.tab|) && Explored(s, h, g)
    ensures Explored(s', h, g)
  {
    forall p, k | 0 <= p < |s'.frames| && 0 <= k < s'.next[p]
      ensures Seen(s', h, h.tab[s'.frames[p]].outs[k])
    {
      if k < s.next[p] {
        assert Seen(s, h, h.tab[s.frames[p]].outs[k]);
      }
    }
  }

  lemma FramesBelow(s: Scan, n: nat, g: Graph, p: nat)
    requires s.Sized(n) && Ordered(s, n) && Linked(s, n, g) && p < |s.frames|
    ensures s.disc[s.frames[p]] <= s.disc[Top(s)]
    ensures Reach(g, s.frames[p], Top(s))
  {
    assert s.on[Top(s)];
    assert s.disc[s.frames[p]] <= s.disc[Top(s)];
    assert Covers(s, n, g, p, Top(s));
  }

  lemma EnterCovers(s: Scan, s': Scan, h: Heap, g: Graph, v: nat, p: nat, x: nat)
    requires Entered(s, s', h, g, v) && s'.Sized(|h.tab|) && Books(s, |h.tab|) && Ordered(s, |h.tab|)
    requires Linked(s, |h.tab|, g) && p < |s'.frames| && x < |h.tab|
    ensures Covers(s', |h.tab|, g, p, x)
  {
    var n := |h.tab|;
    assert BookedNode(s, n, x);
    if p == |s.frames| {
      ReachRefl(g, v);
    } else if x == v {
      FramesBelow(s, n, g, p);
      ReachEdge(g, Top(s), v);
      ReachTrans(g, s.frames[p], Top(s), v);
    } else {
      assert BookedNode(s, n, s.frames[p]);
      assert Covers(s, n, g, p, x);
    }
  }

  lemma EnterLinked(s: Scan, s': Scan, h: Heap, g: Graph, v: nat)
    requires Entered(s, s', h, g, v) && s'.Sized(|h.tab|) && Books(s, |h.tab|) && Ordered(s, |h.tab|)
    requires Linked(s, |h.tab|, g)
    ensures Linked(s', |h.tab|, g)
  {
    var n := |h.tab|;
    forall p: nat, x: nat | p < |s'.frames| && x < n ensures Covers(s', n, g, p, x) {
      EnterCovers(s, s', h, g, v, p, x);
    }
    forall x: nat | x < n ensures Backed(s', n, g, x) {
      if x == v {
        ReachRefl(g, v);
        assert s'.frames[|s.frames|] == v;
      } else if s.on[x] {
        assert Backed(s, n, g, x);
        var p: nat :| p < |s.frames| && s.disc[s.frames[p]] <= s.disc[x] && Reach(g, x, s.frames[p]);
        assert BookedNode(s, n, s.frames[p]);
        assert s'.frames[p] == s.frames[p];
      }
    }
  }

  lemma EnterLows(s: Scan, s': Scan, h: Heap, g: Graph, v: nat)
    requires Entered(s, s', h, g, v) && s'.Sized(|h.tab|) && Books(s, |h.tab|) && Ordered(s, |h.tab|)
    requires Lows(s, h, g)
    ensures Lows(s', h, g)
  {
    forall p: nat | p < |s'.frames| ensures LowOk(s', h, g, p) {
      if p == |s.frames| {
        ReachRefl(g, v);
        EnterLowBoundTop(s, s', h, g, v);
      } else {
        EnterLowOk(s, s', h, g, v, p);
      }
    }
  }

  lemma EnterLowOk(s: Scan, s': Scan, h: Heap, g: Graph, v: nat, p: nat)
    requires Entered(s, s', h, g, v) && s'.Sized(|h.tab|) && Books(s, |h.tab|) && Ordered(s, |h.tab|)
    requires p < |s.frames| && LowOk(s, h, g, p)
    ensures LowOk(s', h, g, p)
  {
    var n, f := |h.tab|, s.frames[p];
    assert BookedNode(s, n, v) && BookedNode(s, n, f);
    var z: nat :| z < n && s.on[z] && s.disc[z] == s.low[f] && Reach(g, f, z);
    assert z != v && s'.on[z] && s'.disc[z] == s'.low[f];
    EnterLowBound(s, s', h, g, v, p);
  }

  lemma EnterLowBoundTop(s: Scan, s': Scan, h: Heap, g: Graph, v: nat)
    requires Entered(s, s', h, g, v) && s'.Sized(|h.tab|) && Books(s, |h.tab|)
    ensures LowBound(s', h, g, |s.frames|)
  {
    var n := |h.tab|;
    assert s'.frames[|s.frames|] == v;
    forall w: nat | w < n && s'.on[w] && w != v ensures s'.disc[w] <= s.time {
      assert BookedNode(s, n, w);
    }
    assert forall w: nat :: w < n && Under(s', n, |s.frames|, w) ==> w == v;
  }

  lemma EnterLowBound(s: Scan, s': Scan, h: Heap, g: Graph, v: nat, p: nat)
    requires Entered(s, s', h, g, v) && s'.Sized(|h.tab|) && Books(s, |h.tab|) && Ordered(s, |h.tab|)
    requires p < |s.frames|
    requires s.low[s.frames[p]] <= s.disc[s.frames[p]] && LowBound(s, h, g, p)
    ensures LowBound(s', h, g, p)
  {
    var n, f := |h.tab|, s.frames[p];
    assert BookedNode(s, n, f) && BookedNode(s, n, v);
    assert f != v && s'.frames[p] == f && s'.low[f] <= s.time;
    forall x | x in g && x.0 !in s'.frames && Under(s', n, p, x.0) && s'.on[x.1]
      ensures s'.low[f] <= s'.disc[x.1]
    {
      assert x.0 != v by { assert s'.frames[|s.frames|] == v; }
      assert x.0 !in s.frames by { assert forall q :: 0 <= q < |s.frames| ==> s'.frames[q] == s.frames[q]; }
      assert p + 1 < |s.frames| ==> s'.frames[p + 1] == s.frames[p + 1] && BookedNode(s, n, s.frames[p + 1]);
      assert Under(s, n, p, x.0);
    }
    forall k | 0 <= k < s'.next[p] && k < |h.tab[f].outs| ensures NotBelow(s', h, h.tab[f].outs[k], s'.low[f]) {
      if k < s.next[p] {
        assert NotBelow(s, h, h.tab[f].outs[k], s.low[f]);
      }
    }
  }

  /** Discovering a node keeps the invariant. */
  lemma EnterInv(s: Scan, s': Scan, h: Heap, g: Graph, roots: set<nat>, roots': set<nat>, v: nat)
    requires Inv(s, h, g, roots) && Entered(s, s', h, g, v) && roots <= roots' && FromRoot(g, roots', v)
    ensures Inv(s', h, g, roots')
  {
    EnterBooks(s, s', h, g, v);
    EnterExplored(s, s', h, g, v);
    EnterLinked(s, s', h, g, v);
    EnterLows(s, s', h, g, v);
    EnterOrigins(s, s', h, g, roots, roots', v);
    SameIds(s, s', |h.tab|, g);
  }

  lemma EnterOrigins(s: Scan, s': Scan, h: Heap, g: Graph, roots: set<nat>, roots': set<nat>, v: nat)
    requires Entered(s, s', h, g, v) && s'.Sized(|h.tab|) && Origins(s, |h.tab|, g, roots)
    requires roots <= roots' && FromRoot(g, roots', v)
    ensures Origins(s', |h.tab|, g, roots')
  {
    forall w: nat | w < |h.tab| ensures Origin(s', |h.tab|, g, roots', w) {
      assert Origin(s, |h.tab|, g, roots, w);
    }
  }

  // ---- a record is passed ---------------------------------------------------------------------

  /** The top frame's next record leads nowhere new. */
  ghost predicate Passable(s: Scan, h: Heap)
    requires |h.pool| == |h.tab| && s.Sized(|h.tab|) && s.frames != []
  {
    TopNext(s) < |h.tab[Top(s)].outs| && Seen(s, h, h.tab[Top(s)].outs[TopNext(s)])
  }

  /** Pass a record that is stale or leads to a discovered node, folding in its discovery time if
      that node is still on the stack. */
  function Pass(s: Scan, h: Heap): Scan
    requires |h.pool| == |h.tab| && s.Sized(|h.tab|) && s.frames != []
    requires TopNext(s) < |h.tab[Top(s)].outs|
  {
    var t := h.tab[Top(s)].outs[TopNext(s)];
    var s1 := Skip(s);
    if Valid(h.pool, t) && s.on[t.index] then Lower(s1, Top(s), s.disc[t.index]) else s1
  }

  lemma PassInv(s: Scan, h: Heap, g: Graph, roots: set<nat>)
    requires Inv(s, h, g, roots) && Graphed(h, g) && s.frames != [] && Passable(s, h)
    ensures Inv(Pass(s, h), h, g, roots)
  {
    PassExplored(s, h, g);
    var s' := Pass(s, h);
    SameBooks(s, s', |h.tab|);
    SameIds(s, s', |h.tab|, g);
    SameLinks(s, s', |h.tab|, g);
    SameOrigins(s, s', |h.tab|, g, roots);
    PassLows(s, h, g);
  }

  // Most of the invariant does not look at low-links or frame positions.

  lemma SameBooks(s: Scan, s': Scan, n: nat)
    requires s.Sized(n) && s'.Sized(n) && Books(s, n)
    requires s' == s.(low := s'.low, next := s'.next, frames := s'.frames)
    ensures Books(s', n)
  {
    forall w: nat | w < n ensures BookedNode(s', n, w) { assert BookedNode(s, n, w); }
    forall c: nat | c < s.comps ensures Used(s', c) { assert Used(s, c); }
  }

  lemma SameIds(s: Scan, s': Scan, n: nat, g: Graph)
    requires s.Sized(n) && s'.Sized(n) && InBounds(g, n) && Assigned(s, n, g) && s'.scc == s.scc
    ensures Assigned(s', n, g)
  {
    forall u: nat, w: nat | u < n && w < n ensures IdIff(s', g, u, w) { assert IdIff(s, g, u, w); }
  }

  lemma SameLinks(s: Scan, s': Scan, n: nat, g: Graph)
    requires s.Sized(n) && s'.Sized(n) && Linked(s, n, g)
    requires s'.frames == s.frames && s'.disc == s.disc && s'.on == s.on
    ensures Linked(s', n, g)
  {
    forall p: nat, x: nat | p < |s'.frames| && x < n ensures Covers(s', n, g, p, x) { assert Covers(s, n, g, p, x); }
    forall x: nat | x < n ensures Backed(s', n, g, x) { assert Backed(s, n, g, x); }
  }

  lemma SameOrigins(s: Scan, s': Scan, n: nat, g: Graph, roots: set<nat>)
    requires s.Sized(n) && s'.Sized(n) && Origins(s, n, g, roots) && s'.disc == s.disc
    ensures Origins(s', n, g, roots)
  {
    forall v: nat | v < n ensures Origin(s', n, g, roots, v) { assert Origin(s, n, g, roots, v); }
  }

  lemma PassExplored(s: Scan, h: Heap, g: Graph)
    requires |h.pool| == |h.tab| && InBounds(g, |h.tab|) && s.Sized(|h.tab|) && s.frames != []
    requires Explored(s, h, g) && Passable(s, h)
    ensures Pass(s, h).Sized(|h.tab|) && Explored(Pass(s, h), h, g)
  {
    var s' := Pass(s, h);
    forall p, k | 0 <= p < |s'.frames| && 0 <= k < s'.next[p]
      ensures Seen(s', h, h.tab[s'.frames[p]].outs[k])
    {
      if k < s.next[p] {
        assert Seen(s, h, h.tab[s.frames[p]].outs[k]);
      }
    }
  }

  lemma PassLows(s: Scan, h: Heap, g: Graph)
    requires Graphed(h, g) && InBounds(g, |h.tab|) && s.Sized(|h.tab|) && s.frames != []
    requires Ordered(s, |h.tab|) && Passable(s, h) && Lows(s, h, g) && Pass(s, h).Sized(|h.tab|)
    ensures Lows(Pass(s, h), h, g)
  {
    forall p: nat | p < |s.frames| ensures LowOk(Pass(s, h), h, g, p) {
      assert LowOk(s, h, g, p);
      PassLowReached(s, h, g, p);
      PassLowBound(s, h, g, p);
    }
  }

  lemma PassLowReached(s: Scan, h: Heap, g: Graph, p: nat)
    requires Graphed(h, g) && InBounds(g, |h.tab|) && s.Sized(|h.tab|) && p < |s.frames|
    requires Ordered(s, |h.tab|) && Passable(s, h) && Pass(s, h).Sized(|h.tab|)
    requires LowReached(s, |h.tab|, g, s.frames[p])
    ensures LowReached(Pass(s, h), |h.tab|, g, s.frames[p])
  {
    var s', n := Pass(s, h), |h.tab|;
    var u, f := Top(s), s.frames[p];
    if s'.low[f] == s.low[f] {
      var z: nat :| z < n && s.on[z] && s.disc[z] == s.low[f] && Reach(g, f, z);
      assert s'.on[z] && s'.disc[z] == s'.low[f];
    } else {
      var t := h.tab[u].outs[TopNext(s)];
      assert Drawn(h, g, u, t);
      ReachEdge(g, u, t.index);
      assert s'.on[t.index] && s'.disc[t.index] == s'.low[u];
    }
  }

  lemma PassLowBound(s: Scan, h: Heap, g: Graph, p: nat)
    requires |h.pool| == |h.tab| && InBounds(g, |h.tab|) && s.Sized(|h.tab|) && p < |s.frames|
    requires Ordered(s, |h.tab|) && Passable(s, h) && LowBound(s, h, g, p)
    requires Pass(s, h).Sized(|h.tab|)
    ensures LowBound(Pass(s, h), h, g, p)
  {
    var s' := Pass(s, h);
    var f := s.frames[p];
    assert s'.low[f] <= s.low[f];
    assert f == Top(s) <==> p == |s.frames| - 1;
    forall x | x in g && x.0 !in s'.frames && Under(s', |h.tab|, p, x.0) && s'.on[x.1]
      ensures s'.low[f] <= s'.disc[x.1]
    {
      assert Under(s, |h.tab|, p, x.0);
    }
    forall k | 0 <= k < s'.next[p] && k < |h.tab[f].outs| ensures NotBelow(s', h, h.tab[f].outs[k], s'.low[f]) {
      if k < s.next[p] {
        assert NotBelow(s, h, h.tab[f].outs[k], s.low[f]);
      }
    }
  }

  // ---- a frame finishes and joins the component of its parent ---------------------------------

  /** Every record of the top frame has been passed. */
  ghost predicate Exhausted(s: Scan, h: Heap)
    requires s.Sized(|h.tab|) && s.frames != []
  {
    TopNext(s) == |h.tab[Top(s)].outs|
  }

  lemma TopSeesAll(s: Scan, h: Heap, g: Graph, y: nat)
    requires Graphed(h, g) && InBounds(g, |h.tab|) && s.Sized(|h.tab|) && s.frames != []
    requires Explored(s, h, g) && Exhausted(s, h) && (Top(s), y) in g
    ensures exists k :: 0 <= k < TopNext(s) && h.tab[Top(s)].outs[k] == Current(h.pool, y)
    ensures s.disc[y] > 0 && h.pool[y].live
  {
    assert Recorded(h, Top(s), y);
    var k :| 0 <= k < |h.tab[Top(s)].outs| && h.tab[Top(s)].outs[k] == Current(h.pool, y);
    assert Seen(s, h, h.tab[s.frames[|s.frames| - 1]].outs[k]);
  }

  lemma PopExplored(s: Scan, s': Scan, h: Heap, g: Graph)
    requires Graphed(h, g) && InBounds(g, |h.tab|) && s.Sized(|h.tab|) && s'.Sized(|h.tab|) && s.frames != []
    requires Explored(s, h, g) && Exhausted(s, h)
    requires s'.frames == s.frames[..|s.frames| - 1] && s'.next == s.next[..|s.next| - 1] && s'.disc == s.disc
    ensures Explored(s', h, g)
  {
    forall p, k | 0 <= p < |s'.frames| && 0 <= k < s'.next[p]
      ensures Seen(s', h, h.tab[s'.frames[p]].outs[k])
    {
      assert Seen(s, h, h.tab[s.frames[p]].outs[k]);
    }
    forall x | x in g && s'.disc[x.0] > 0 && x.0 !in s'.frames
      ensures s'.disc[x.1] > 0
    {
      assert s.frames == s'.frames + [Top(s)];
      if x.0 == Top(s) {
        TopSeesAll(s, h, g, x.1);
      }
    }
  }

  /** The low-link of a frame that is no component root leads below it. */
  lemma LowerFrame(s: Scan, h: Heap, g: Graph, roots: set<nat>) returns (z: nat, q: nat)
    requires Inv(s, h, g, roots) && s.frames != [] && s.low[Top(s)] != s.disc[Top(s)]
    ensures z < |h.tab| && s.on[z] && s.disc[z] == s.low[Top(s)] < s.disc[Top(s)]
    ensures q < |s.frames| - 1 && s.disc[s.frames[q]] <= s.disc[z]
    ensures Reach(g, Top(s), z)
    ensures Reach(g, Top(s), s.frames[q])
  {
        var last := |s.frames| - 1;
    assert LowOk(s, h, g, last);
    z :| z < |h.tab| && s.on[z] && s.disc[z] == s.low[Top(s)] && Reach(g, Top(s), z);
    assert Backed(s, |h.tab|, g, z);
    q :| q < |s.frames| && s.disc[s.frames[q]] <= s.disc[z] && Reach(g, z, s.frames[q]);
    ReachTrans(g, Top(s), z, s.frames[q]);
  }

  lemma KeepLinked(s: Scan, s': Scan, h: Heap, g: Graph, roots: set<nat>, z: nat, q: nat)
    requires Inv(s, h, g, roots) && s.frames != [] && s'.Sized(|h.tab|)
    requires s'.frames == s.frames[..|s.frames| - 1] && s'.disc == s.disc && s'.on == s.on
    requires z < |h.tab| && s.disc[z] < s.disc[Top(s)] && q < |s.frames| - 1
    requires s.disc[s.frames[q]] <= s.disc[z] && Reach(g, Top(s), s.frames[q])
    ensures Linked(s', |h.tab|, g)
  {
    var n := |h.tab|;
    forall p: nat, x: nat | p < |s'.frames| && x < n ensures Covers(s', |h.tab|, g, p, x) { assert Covers(s, |h.tab|, g, p, x); }
    forall x: nat | x < n && s'.on[x] ensures Backed(s', n, g, x) {
      assert Backed(s, |h.tab|, g, x);
      var p: nat :| p < |s.frames| && s.disc[s.frames[p]] <= s.disc[x] && Reach(g, x, s.frames[p]);
      if p == |s.frames| - 1 {
        ReachTrans(g, x, Top(s), s.frames[q]);
        assert s'.frames[q] == s.frames[q];
      } else {
        assert s'.frames[p] == s.frames[p];
      }
    }
  }

  /** The top's low link is no later than any open node it points at. */
  lemma TopLowBound(s: Scan, h: Heap, g: Graph, y: nat)
    requires Graphed(h, g) && InBounds(g, |h.tab|) && s.Sized(|h.tab|) && s.frames != []
    requires Explored(s, h, g) && Exhausted(s, h) && LowOk(s, h, g, |s.frames| - 1) && (Top(s), y) in g && s.on[y]
    ensures s.low[Top(s)] <= s.disc[y]
  {
    TopSeesAll(s, h, g, y);
    var k :| 0 <= k < TopNext(s) && h.tab[Top(s)].outs[k] == Current(h.pool, y);
    assert NotBelow(s, h, h.tab[s.frames[|s.frames| - 1]].outs[k], s.low[Top(s)]);
  }

  lemma KeepLowBound(s: Scan, s': Scan, h: Heap, g: Graph, p: nat)
    requires Graphed(h, g) && InBounds(g, |h.tab|) && s.Sized(|h.tab|) && s'.Sized(|h.tab|) && s.frames != []
    requires Ordered(s, |h.tab|) && Explored(s, h, g) && Exhausted(s, h) && Lows(s, h, g)
    requires |s.frames| > 1 && s.low[Top(s)] < s.disc[Top(s)]
    requires s' == Lower(PopFrame(s), s.frames[|s.frames| - 2], s.low[Top(s)])
    requires p < |s'.frames|
    ensures LowBound(s', h, g, p)
  {
    var n, f, u, last := |h.tab|, s.frames[p], Top(s), |s.frames| - 1;
    assert LowOk(s, h, g, p) && LowOk(s, h, g, last);
    assert s'.low[f] <= s.low[f] && (p == last - 1 ==> s'.low[f] <= s.low[u]);
    assert s.frames == s'.frames + [u];
    forall x | x in g && x.0 !in s'.frames && Under(s', n, p, x.0) && s'.on[x.1]
      ensures s'.low[f] <= s'.disc[x.1]
    {
      if x.0 == u {
        TopLowBound(s, h, g, x.1);
      } else if p < last - 1 || s.disc[x.0] < s.disc[u] {
        assert Under(s, n, p, x.0);
      } else {
        assert Under(s, n, last, x.0);
      }
    }
    forall k | 0 <= k < s'.next[p] && k < |h.tab[f].outs| ensures NotBelow(s', h, h.tab[f].outs[k], s'.low[f]) {
      assert NotBelow(s, h, h.tab[f].outs[k], s.low[f]);
    }
  }

  lemma KeepLows(s: Scan, s': Scan, h: Heap, g: Graph, z: nat)
    requires Graphed(h, g) && InBounds(g, |h.tab|) && s.Sized(|h.tab|) && s'.Sized(|h.tab|) && s.frames != []
    requires Ordered(s, |h.tab|) && Explored(s, h, g) && Exhausted(s, h) && Lows(s, h, g)
    requires Linked(s, |h.tab|, g)
    requires |s.frames| > 1 && s.low[Top(s)] < s.disc[Top(s)]
    requires s' == Lower(PopFrame(s), s.frames[|s.frames| - 2], s.low[Top(s)])
    requires z < |h.tab| && s.on[z] && s.disc[z] == s.low[Top(s)]
    requires Reach(g, Top(s), z)
    ensures Lows(s', h, g)
  {
    var last := |s.frames| - 1;
    forall p: nat | p < |s'.frames|
      ensures LowOk(s', h, g, p)
    {
      var f := s.frames[p];
      KeepLowBound(s, s', h, g, p);
      assert LowOk(s, h, g, p);
      assert s.on[Top(s)] && Covers(s, |h.tab|, g, p, Top(s));
      if s'.low[f] == s.low[f] {
        var y: nat :| y < |h.tab| && s.on[y] && s.disc[y] == s.low[f] && Reach(g, f, y);
        assert s'.on[y] && s'.disc[y] == s'.low[f];
      } else {
        ReachTrans(g, f, Top(s), z);
        assert s'.on[z] && s'.disc[z] == s'.low[f];
      }
    }
  }

  /** A frame that is no component root leaves its nodes on the stack for its parent. */
  lemma KeepInv(s: Scan, h: Heap, g: Graph, roots: set<nat>)
    requires Inv(s, h, g, roots) && Graphed(h, g) && s.frames != [] && Exhausted(s, h) && s.low[Top(s)] != s.disc[Top(s)]
    ensures |s.frames| > 1 && Inv(Finish(s), h, g, roots)
  {
    var z, q := LowerFrame(s, h, g, roots);
    var s' := Lower(PopFrame(s), s.frames[|s.frames| - 2], s.low[Top(s)]);
    assert Finish(s) == s';
    PopExplored(s, s', h, g);
    SameBooks(s, s', |h.tab|);
    SameIds(s, s', |h.tab|, g);
    KeepLinked(s, s', h, g, roots, z, q);
    KeepLows(s, s', h, g, z);
    SameOrigins(s, s', |h.tab|, g, roots);
  }

  // ---- a frame closes a component -------------------------------------------------------------

  /** On the node stack, from `u` up is the same as discovered no earlier than `u`. */
  /** In a stack ordered by discovery, the segment from `k` on is what was discovered since. */
  lemma SegmentFrom(t: seq<nat>, disc: seq<nat>, k: nat, v: nat)
    requires k < |t| && v < |disc| && forall j :: 0 <= j < |t| ==> t[j] < |disc|
    requires forall i, j :: 0 <= i < j < |t| ==> disc[t[i]] < disc[t[j]]
    ensures v in t[k..] <==> v in t && disc[t[k]] <= disc[v]
  {
    if v in t[k..] {
      var j :| 0 <= j < |t[k..]| && t[k..][j] == v;
      assert t[k + j] == v;
    }
    if v in t && disc[t[k]] <= disc[v] {
      var j :| 0 <= j < |t| && t[j] == v;
      assert t[k..][j - k] == v;
    }
  }

  lemma SegmentIff(s: Scan, n: nat, u: nat, v: nat)
    requires s.Sized(n) && u < n && v < n && BookedNode(s, n, v) && Ordered(s, n) && u in s.tarjan
    ensures v in s.tarjan[Position(s.tarjan, u)..] <==> s.on[v] && s.disc[u] <= s.disc[v]
  {
    SegmentFrom(s.tarjan, s.disc, Position(s.tarjan, u), v);
  }

  /** `s'` is `s` with the top frame popped and the stack from it up closed as one component. */
  ghost predicate Closes(s: Scan, s': Scan, n: nat)
    requires s.Sized(n) && s.frames != []
  {
    var u := Top(s);
    && s'.disc == s.disc && s'.low == s.low && s'.time == s.time && s'.visited == s.visited
    && s'.frames == s.frames[..|s.frames| - 1] && s'.next == s.next[..|s.next| - 1]
    && s'.comps == s.comps + 1 && |s'.on| == n && |s'.scc| == n
    && (forall v: nat :: v < n ==> ClosesNode(s, s', n, u, v))
    && (exists k :: 0 <= k < |s.tarjan| && s'.tarjan == s.tarjan[..k])
  }

  ghost predicate ClosesNode(s: Scan, s': Scan, n: nat, u: nat, v: nat)
    requires s.Sized(n) && u < n && v < n && |s'.on| == n && |s'.scc| == n
  {
    && s'.on[v] == (s.on[v] && s.disc[v] < s.disc[u])
    && s'.scc[v] == (if s.on[v] && s.disc[u] <= s.disc[v] then s.comps else s.scc[v])
    && (v in s'.tarjan <==> s'.on[v])
  }

  lemma CloseShape(s: Scan, h: Heap, g: Graph, roots: set<nat>)
    requires Inv(s, h, g, roots) && s.frames != [] && s.low[Top(s)] == s.disc[Top(s)]
    ensures Top(s) in s.tarjan && Closes(s, Finish(s), |h.tab|)
  {
    var n, u, last := |h.tab|, Top(s), |s.frames| - 1;
    assert s.on[s.frames[last]];
    assert BookedNode(s, n, u);
    var s2 := CloseComponent(PopFrame(s), u);
    assert |s.frames| > 1 ==> LowOk(s, h, g, last - 1) && s.low[s.frames[last - 1]] <= s.disc[s.frames[last - 1]] < s.disc[u];
    assert Finish(s) == s2;
    forall v: nat | v < n ensures ClosesNode(s, s2, n, u, v) {
      assert BookedNode(s, n, v);
      CloseNode(s, n, u, v);
    }
    assert s2.tarjan == s.tarjan[..Position(s.tarjan, u)];
  }

  lemma CloseNode(s: Scan, n: nat, u: nat, v: nat)
    requires s.Sized(n) && u < n && v < n && BookedNode(s, n, v) && Ordered(s, n) && u in s.tarjan && s.frames != []
    ensures var s2 := CloseComponent(PopFrame(s), u);
      |s2.on| == n && |s2.scc| == n && ClosesNode(s, s2, n, u, v)
  {
    var k := Position(s.tarjan, u);
    SegmentIff(s, n, u, v);
    InSplit(s.tarjan, k, v);
    if v in s.tarjan[..k] { OlderBelow(s, n, k, v); }
  }

  lemma InSplit(l: seq<nat>, k: nat, v: nat)
    requires k <= |l|
    ensures v in l <==> v in l[..k] || v in l[k..]
  {
    assert l == l[..k] + l[k..];
  }

  lemma OlderBelow(s: Scan, n: nat, k: nat, v: nat)
    requires s.Sized(n) && Ordered(s, n) && k < |s.tarjan| && v in s.tarjan[..k]
    ensures v < n && s.tarjan[k] < n && s.disc[v] < s.disc[s.tarjan[k]]
  {
    var j :| 0 <= j < k && s.tarjan[j] == v;
    assert s.disc[s.tarjan[j]] < s.disc[s.tarjan[k]];
  }

  lemma CloseBooks(s: Scan, s': Scan, h: Heap, g: Graph, roots: set<nat>)
    requires Inv(s, h, g, roots) && s.frames != [] && Closes(s, s', |h.tab|)
    ensures s'.Sized(|h.tab|) && Books(s', |h.tab|) && Ordered(s', |h.tab|)
  {
    var n, u, last := |h.tab|, Top(s), |s.frames| - 1;
    assert s.on[s.frames[last]];
    CompsBounded(s, n);
    forall v: nat | v < n ensures BookedNode(s', n, v) {
      assert BookedNode(s, n, v) && ClosesNode(s, s', n, u, v);
    }
    forall c: nat | c < s'.comps ensures Used(s', c) {
      if c == s.comps {
        assert ClosesNode(s, s', n, u, u);
      } else {
        assert Used(s, c);
        var v :| 0 <= v < n && s.scc[v] == c;
        assert ClosesNode(s, s', n, u, v) && BookedNode(s, n, v);
        assert c < UNVISITED;
      }
    }
    forall p | 0 <= p < |s'.frames| ensures s'.on[s'.frames[p]] {
      assert ClosesNode(s, s', n, u, s.frames[p]);
    }
  }

  lemma DistinctBounded(v: seq<nat>, n: nat)
    requires forall k :: 0 <= k < |v| ==> v[k] < n
    requires forall j, k :: 0 <= j < k < |v| ==> v[j] != v[k]
    ensures |v| <= n
  {
    SeqSize(v);
    var got, all := set k | 0 <= k < |v| :: v[k], Below(n);
    assert got <= all;
    assert all == got + (all - got);
  }

  function Below(n: nat): (r: set<nat>)
    ensures |r| == n && forall i: nat :: i in r <==> i < n
  {
    if n == 0 then {} else Below(n - 1) + {n - 1}
  }

  lemma {:induction false} SeqSize(v: seq<nat>)
    requires forall j, k :: 0 <= j < k < |v| ==> v[j] != v[k]
    ensures |set k | 0 <= k < |v| :: v[k]| == |v|
    decreases |v|
  {
    if v != [] {
      var w := v[..|v| - 1];
      SeqSize(w);
      var last := v[|v| - 1];
      assert (set k | 0 <= k < |v| :: v[k]) == (set k | 0 <= k < |w| :: w[k]) + {last};
    }
  }

  lemma CompsBounded(s: Scan, n: nat)
    requires s.Sized(n) && Books(s, n) && n < UNVISITED
    ensures s.comps <= n < UNVISITED
  {
    DistinctBounded(s.visited, n);
  }

  /** Records of the closing segment lead into the segment or into components closed before. */
  lemma SegmentClosed(s: Scan, h: Heap, g: Graph, roots: set<nat>, x: (nat, nat))
    requires Inv(s, h, g, roots) && Graphed(h, g) && s.frames != [] && Exhausted(s, h) && s.low[Top(s)] == s.disc[Top(s)]
    requires x in g && s.on[x.0] && s.disc[Top(s)] <= s.disc[x.0]
    ensures s.scc[x.1] != UNVISITED || (s.on[x.1] && s.disc[Top(s)] <= s.disc[x.1])
  {
    var u, last, n := Top(s), |s.frames| - 1, |h.tab|;
    assert LowOk(s, h, g, last);
    assert BookedNode(s, n, x.0) && BookedNode(s, n, x.1);
    if x.0 == u {
      TopSeesAll(s, h, g, x.1);
      var k :| 0 <= k < TopNext(s) && h.tab[u].outs[k] == Current(h.pool, x.1);
      assert NotBelow(s, h, h.tab[s.frames[last]].outs[k], s.low[u]);
    } else {
      assert x.0 !in s.frames by {
        assert forall p :: 0 <= p < last ==> s.disc[s.frames[p]] < s.disc[s.frames[last]];
      }
      assert Under(s, n, last, x.0);
    }
  }

  /** Every node of the closing segment is in one component with the frame that closes it. */
  lemma SegmentConnected(s: Scan, h: Heap, g: Graph, roots: set<nat>, x: nat)
    requires Inv(s, h, g, roots) && s.frames != []
    requires x < |h.tab| && s.on[x] && s.disc[Top(s)] <= s.disc[x]
    ensures SameComponent(g, Top(s), x)
  {
    var last := |s.frames| - 1;
    assert Covers(s, |h.tab|, g, last, x);
    assert Backed(s, |h.tab|, g, x);
    var p: nat :| p < |s.frames| && s.disc[s.frames[p]] <= s.disc[x] && Reach(g, x, s.frames[p]);
    FramesBelow(s, |h.tab|, g, p);
    ReachTrans(g, x, s.frames[p], Top(s));
  }

  /** Closed components never reach a node that is not closed. */
  lemma AssignedStays(s: Scan, h: Heap, g: Graph, u: nat, v: nat)
    requires s.Sized(|h.tab|) && InBounds(g, |h.tab|) && Assigned(s, |h.tab|, g)
    requires u < |h.tab| && v < |h.tab| && s.scc[u] != UNVISITED && Reach(g, u, v)
    ensures s.scc[v] != UNVISITED
  {
        var a := set w: nat | w < |h.tab| && s.scc[w] != UNVISITED;
    ReachStaysIn(g, a, u, v);
  }

  lemma CloseAssigned(s: Scan, s': Scan, h: Heap, g: Graph, roots: set<nat>)
    requires Inv(s, h, g, roots) && Graphed(h, g) && s.frames != [] && Exhausted(s, h) && s.low[Top(s)] == s.disc[Top(s)]
    requires Closes(s, s', |h.tab|) && s'.Sized(|h.tab|)
    ensures Assigned(s', |h.tab|, g)
  {
    var n, u := |h.tab|, Top(s);
    CompsBounded(s, n);
    forall x | x in g && s'.scc[x.0] != UNVISITED ensures s'.scc[x.1] != UNVISITED {
      assert ClosesNode(s, s', n, u, x.0) && ClosesNode(s, s', n, u, x.1);
      if s.scc[x.0] == UNVISITED {
        SegmentClosed(s, h, g, roots, x);
      }
    }
    forall v: nat, w: nat | v < n && w < n ensures IdIff(s', g, v, w) {
      CloseIds(s, s', h, g, roots, v, w);
    }
  }

  lemma CloseIds(s: Scan, s': Scan, h: Heap, g: Graph, roots: set<nat>, v: nat, w: nat)
    requires Inv(s, h, g, roots) && s.frames != []
    requires Closes(s, s', |h.tab|) && s'.Sized(|h.tab|) && v < |h.tab| && w < |h.tab|
    ensures IdIff(s', g, v, w)
  {
    var n, u := |h.tab|, Top(s);
    CompsBounded(s, n);
    assert ClosesNode(s, s', n, u, v) && ClosesNode(s, s', n, u, w);
    assert BookedNode(s, n, v) && BookedNode(s, n, w) && IdIff(s, g, v, w);
    var inV, inW := s.on[v] && s.disc[u] <= s.disc[v], s.on[w] && s.disc[u] <= s.disc[w];
    if inV && inW {
      SegmentConnected(s, h, g, roots, v);
      SegmentConnected(s, h, g, roots, w);
      ReachTrans(g, v, u, w);
      ReachTrans(g, w, u, v);
    } else if inV && s.scc[w] != UNVISITED {
      if Reach(g, w, v) { AssignedStays(s, h, g, w, v); }
    } else if inW && s.scc[v] != UNVISITED {
      if Reach(g, v, w) { AssignedStays(s, h, g, v, w); }
    }
  }

  lemma CloseLinked(s: Scan, s': Scan, h: Heap, g: Graph, roots: set<nat>)
    requires Inv(s, h, g, roots) && s.frames != [] && Closes(s, s', |h.tab|) && s'.Sized(|h.tab|)
    ensures Linked(s', |h.tab|, g)
  {
    var n, u := |h.tab|, Top(s);
    forall p: nat, x: nat | p < |s'.frames| && x < n ensures Covers(s', |h.tab|, g, p, x) {
      assert Covers(s, |h.tab|, g, p, x) && ClosesNode(s, s', n, u, x);
    }
    forall x: nat | x < n && s'.on[x] ensures Backed(s', n, g, x) {
      assert ClosesNode(s, s', n, u, x) && Backed(s, |h.tab|, g, x);
      var p: nat :| p < |s.frames| && s.disc[s.frames[p]] <= s.disc[x] && Reach(g, x, s.frames[p]);
      assert p < |s'.frames| && s'.frames[p] == s.frames[p];
    }
  }

  lemma CloseLows(s: Scan, s': Scan, h: Heap, g: Graph, roots: set<nat>)
    requires Inv(s, h, g, roots) && s.frames != [] && Closes(s, s', |h.tab|) && s'.Sized(|h.tab|)
    ensures Lows(s', h, g)
  {
    var n, u, last := |h.tab|, Top(s), |s.frames| - 1;
    forall p: nat | p < |s'.frames|
      ensures LowOk(s', h, g, p)
    {
      var f := s.frames[p];
      assert s.disc[s.frames[p]] < s.disc[s.frames[last]];
      assert LowOk(s, h, g, p);
      var z: nat :| z < n && s.on[z] && s.disc[z] == s.low[f] && Reach(g, f, z);
      assert ClosesNode(s, s', n, u, z);
      CloseLowBound(s, s', h, g, roots, p);
    }
  }

  lemma CloseLowBound(s: Scan, s': Scan, h: Heap, g: Graph, roots: set<nat>, p: nat)
    requires Inv(s, h, g, roots) && s.frames != [] && Closes(s, s', |h.tab|) && s'.Sized(|h.tab|)
    requires p < |s'.frames|
    ensures LowBound(s', h, g, p)
  {
    var n, u, f := |h.tab|, Top(s), s.frames[p];
    assert LowOk(s, h, g, p);
    assert s.frames == s'.frames + [u];
    forall x | x in g && x.0 !in s'.frames && Under(s', n, p, x.0) && s'.on[x.1]
      ensures s'.low[f] <= s'.disc[x.1]
    {
      assert ClosesNode(s, s', n, u, x.0) && ClosesNode(s, s', n, u, x.1);
      assert Under(s, n, p, x.0);
    }
    forall k | 0 <= k < s'.next[p] && k < |h.tab[f].outs| ensures NotBelow(s', h, h.tab[f].outs[k], s'.low[f]) {
      var t := h.tab[f].outs[k];
      assert NotBelow(s, h, t, s.low[f]);
      if Valid(h.pool, t) { assert ClosesNode(s, s', n, u, t.index); }
    }
  }

  /** A frame whose low-link is its own discovery time closes a component of the graph. */
  lemma CloseInv(s: Scan, h: Heap, g: Graph, roots: set<nat>)
    requires Inv(s, h, g, roots) && Graphed(h, g) && s.frames != [] && Exhausted(s, h) && s.low[Top(s)] == s.disc[Top(s)]
    ensures Top(s) in s.tarjan && Inv(Finish(s), h, g, roots)
  {
    CloseShape(s, h, g, roots);
    var s' := Finish(s);
    CloseBooks(s, s', h, g, roots);
    PopExplored(s, s', h, g);
    CloseAssigned(s, s', h, g, roots);
    CloseLinked(s, s', h, g, roots);
    CloseLows(s, s', h, g, roots);
    SameOrigins(s, s', |h.tab|, g, roots);
  }
}
