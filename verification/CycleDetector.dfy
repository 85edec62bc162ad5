/** The cycle detector object: scratch arrays, explicit frames and the scan loop. */
module CycleDetectors {
  import opened Graphs
  import opened Cells
  import opened Sweeping
  import opened Tarjan

  /** The components of everything reachable from the live roots: each node listed once, ids below
      `k`, every id used, and equal ids exactly for nodes that reach each other. */
  ghost predicate Components(h: Heap, roots: seq<nat>, k: nat, visited: seq<nat>, scc: seq<nat>) {
    var g := Edges(h.pool, h.tab);
    && |scc| == |h.tab| == |h.pool| && k <= |h.tab|
    && (forall i, j :: 0 <= i < j < |visited| ==> visited[i] != visited[j])
    && (forall i :: 0 <= i < |visited| ==> visited[i] < |h.tab|)
    && (forall v: nat :: v < |h.tab| ==> (v in visited <==> FromRoot(g, LiveRoots(h, roots), v)))
    && (forall v: nat :: v < |h.tab| ==> (v in visited <==> scc[v] != UNVISITED))
    && (forall v: nat :: v < |h.tab| && v in visited ==> scc[v] < k)
    && (forall c: nat :: c < k ==> UsedId(visited, scc, c))
    && (forall u: nat, v: nat :: u < |h.tab| && v < |h.tab| && u in visited && v in visited ==>
          (scc[u] == scc[v] <==> SameComponent(g, u, v)))
  }

  ghost predicate UsedId(visited: seq<nat>, scc: seq<nat>, c: nat) {
    exists v :: v in visited && v < |scc| && scc[v] == c
  }

  ghost function LiveRoots(h: Heap, roots: seq<nat>): set<nat> {
    set r | r in roots && LiveAt(h.pool, r)
  }

  /** The top frame, if it has just been opened, counts as discovered. */
  ghost function Looked(s: Scan): Scan
    requires s.Sized(|s.disc|)
  {
    if s.frames != [] && s.disc[Top(s)] == 0 then Discover(s) else s
  }

  /** Records the open frames still have to pass, one more for each frame. */
  ghost function Work(h: Heap, frames: seq<nat>, next: seq<nat>): nat
    requires |frames| == |next|
  {
    if frames == [] then 0
    else
      var f, k := frames[|frames| - 1], next[|next| - 1];
      Work(h, frames[..|frames| - 1], next[..|next| - 1]) + 1 +
      (if f < |h.tab| && k <= |h.tab[f].outs| then |h.tab[f].outs| - k else 0)
  }

  class CycleDetector {
    var disc: seq<nat>
    var low: seq<nat>
    var on: seq<bool>
    var scc: seq<nat>
    var tarjan: seq<nat>
    var frames: seq<nat>
    var frameNext: seq<nat>
    var time: nat
    var comps: nat
    var visited: seq<nat>

    ghost function View(): Scan
      reads this
    {
      Scan(disc, low, on, scc, tarjan, frames, frameNext, time, comps, visited)
    }

    /** Only discovered nodes have a low-link. */
    ghost predicate LowsFresh()
      reads this
    {
      |disc| == |low| && forall v :: 0 <= v < |disc| && disc[v] == 0 ==> low[v] == 0
    }

    constructor (capacity: nat)
      ensures Clean(View(), capacity)
    {
      disc := seq(capacity, _ => 0);
      low := seq(capacity, _ => 0);
      on := seq(capacity, _ => false);
      scc := seq(capacity, _ => UNVISITED);
      tarjan, frames, frameNext, visited := [], [], [], [];
      time, comps := 0, 0;
    }

    method DiscoverTop()
      requires View().Sized(|disc|) && frames != [] && LowsFresh()
      modifies this
      ensures View() == Discover(old(View())) && LowsFresh()
    {
      var u := frames[|frames| - 1];
      time := time + 1;
      disc := disc[u := time];
      low := low[u := time];
      on := on[u := true];
      tarjan := tarjan + [u];
      visited := visited + [u];
    }

    /** Look at the next outgoing record of the top frame. */
    method ScanRecord(h: Heap)
      requires |h.pool| == |h.tab| == |disc| && View().Sized(|disc|) && frames != [] && LowsFresh()
      requires TopNext(View()) < |h.tab[Top(View())].outs| && disc[Top(View())] > 0
      modifies this
      ensures LowsFresh()
      ensures if Passable(old(View()), h) then View() == Pass(old(View()), h)
              else View() == Push(Skip(old(View())), NextTarget(old(View()), h))
    {
      var last := |frames| - 1;
      var u := frames[last];
      var t := h.tab[u].outs[frameNext[last]];
      frameNext := frameNext[last := frameNext[last] + 1];
      if Valid(h.pool, t) {
        var v := t.index;
        if disc[v] == 0 {
          frames := frames + [v];
          frameNext := frameNext + [0];
        } else if on[v] && disc[v] < low[u] {
          low := low[u := disc[v]];
        }
      }
    }

    /** Pop the node stack through `u`, giving every popped node the current id. */
    method PopThrough(u: nat)
      requires u in tarjan && View().Sized(|disc|)
      modifies this`tarjan, this`on, this`scc
      ensures tarjan == old(tarjan)[..Position(old(tarjan), u)] && |on| == |scc| == |disc|
      ensures forall v :: 0 <= v < |disc| ==> PoppedNode(old(View()), View(), Position(old(tarjan), u), v)
    {
      ghost var s0, n, t0, at := View(), |disc|, tarjan, Position(tarjan, u);
      while true
        invariant at < |tarjan| <= |t0| && tarjan == t0[..|tarjan|]
        invariant at == Position(tarjan, u) && |on| == |scc| == n
        invariant forall v :: 0 <= v < n ==> PoppedNode(s0, View(), |tarjan|, v)
        decreases |tarjan|
      {
        assert tarjan[|tarjan| - 1] == t0[|tarjan| - 1];
        var w := PopTop(s0);
        if w == u { break; }
      }
    }

    method PopTop(ghost s0: Scan) returns (w: nat)
      requires tarjan != [] && View().Sized(|disc|) && s0.Sized(|disc|) && |tarjan| <= |s0.tarjan| && s0.comps == comps
      requires tarjan[|tarjan| - 1] == s0.tarjan[|tarjan| - 1]
      requires forall v :: 0 <= v < |disc| ==> PoppedNode(s0, View(), |tarjan|, v)
      modifies this`tarjan, this`on, this`scc
      ensures w == old(tarjan)[|old(tarjan)| - 1] && tarjan == old(tarjan)[..|old(tarjan)| - 1] && |on| == |scc| == |disc|
      ensures forall v :: 0 <= v < |disc| ==> PoppedNode(s0, View(), |tarjan|, v)
    {
      var m := |tarjan| - 1;
      w := tarjan[m];
      ghost var s := View();
      tarjan := tarjan[..m];
      on := on[w := false];
      scc := scc[w := comps];
      PopNodes(s0, s, View(), m, m + 1, w, |disc|);
    }

    /** Close the node stack from `u` up as one component. */
    method CloseStack(u: nat)
      requires u in tarjan && View().Sized(|disc|) && LowsFresh()
      modifies this`tarjan, this`on, this`scc, this`comps
      ensures View() == CloseComponent(old(View()), u) && LowsFresh()
    {
      ghost var s0, at := View(), Position(tarjan, u);
      PopThrough(u);
      ghost var s1 := View();
      comps := comps + 1;
      ghost var s2 := CloseComponent(s0, u);
      assert on == s2.on by {
        forall v | 0 <= v < |on| ensures on[v] == s2.on[v] { assert PoppedNode(s0, s1, at, v); }
      }
      assert scc == s2.scc by {
        forall v | 0 <= v < |scc| ensures scc[v] == s2.scc[v] { assert PoppedNode(s0, s1, at, v); }
      }
    }

    method FinishNode()
      requires View().Sized(|disc|) && frames != [] && LowsFresh()
      requires low[Top(View())] == disc[Top(View())] ==> Top(View()) in tarjan
      requires forall p :: 0 <= p < |frames| ==> disc[frames[p]] > 0
      modifies this
      ensures View() == Finish(old(View())) && LowsFresh()
    {
      var u := frames[|frames| - 1];
      frames := frames[..|frames| - 1];
      frameNext := frameNext[..|frameNext| - 1];
      if low[u] == disc[u] {
        CloseStack(u);
      }
      if frames != [] {
        var p := frames[|frames| - 1];
        if low[u] < low[p] {
          low := low[p := low[u]];
        }
      }
    }

    /** Depth-first search from one undiscovered root. */
    method VisitFrom(h: Heap, root: nat, ghost g: Graph, ghost roots: set<nat>)
      requires Inv(View(), h, g, roots) && Graphed(h, g) && LowsFresh()
      requires frames == [] && root < |disc| && disc[root] == 0
      modifies this
      ensures Inv(View(), h, g, roots + {root}) && LowsFresh() && frames == []
      ensures disc[root] > 0 && Grows(old(View()), View())
    {
      frames := frames + [root];
      frameNext := frameNext + [0];
      RootOpens(old(View()), View(), h, g, roots, root);
      FramesDiscovered(Looked(View()), h, g, roots + {root});
      while frames != []
        invariant View().Sized(|h.tab|) && LowsFresh()
        invariant Inv(Looked(View()), h, g, roots + {root}) && Looked(View()).disc[root] > 0
        invariant Grows(old(View()), Looked(View()))
        invariant |Looked(View()).visited| <= |h.tab|
        decreases |h.tab| - |Looked(View()).visited|, Work(h, frames, frameNext)
      {
        VisitStep(h, g, roots + {root});
      }
    }

    /** One turn of the search loop. */
    method VisitStep(h: Heap, ghost g: Graph, ghost roots: set<nat>)
      requires |disc| == |h.tab| && View().Sized(|disc|) && LowsFresh() && frames != []
      requires Inv(Looked(View()), h, g, roots) && Graphed(h, g)
      modifies this
      ensures LowsFresh() && Turned(old(Looked(View())), View(), h, g, roots)
    {
      if disc[frames[|frames| - 1]] == 0 {
        DiscoverTop();
      }
      AdvanceTop(h, g, roots);
    }

    method AdvanceTop(h: Heap, ghost g: Graph, ghost roots: set<nat>)
      requires |disc| == |h.tab| && LowsFresh() && frames != [] && Inv(View(), h, g, roots) && Graphed(h, g)
      requires disc[frames[|frames| - 1]] > 0
      modifies this
      ensures LowsFresh() && Turned(old(View()), View(), h, g, roots)
    {
      ghost var s := View();
      FramesDiscovered(s, h, g, roots);
      if frameNext[|frameNext| - 1] < |h.tab[frames[|frames| - 1]].outs| {
        ScanRecord(h);
        ScanTurn(s, View(), h, g, roots);
      } else {
        FinishNode();
        FinishStep(s, View(), h, g, roots);
      }
    }

    method VisitRoot(h: Heap, root: nat, ghost g: Graph, ghost roots: set<nat>)
      requires Inv(View(), h, g, roots) && Graphed(h, g) && LowsFresh()
      requires frames == [] && root < |disc|
      modifies this
      ensures LowsFresh() && frames == [] && Grows(old(View()), View())
      ensures Inv(View(), h, g, if LiveAt(h.pool, root) then roots + {root} else roots)
      ensures LiveAt(h.pool, root) ==> disc[root] > 0
    {
      if disc[root] != 0 {
        MoreRoots(View(), h, g, roots, roots + {root});
      } else if LiveAt(h.pool, root) {
        VisitFrom(h, root, g, roots);
      }
    }

    method FindComponents(h: Heap, roots: seq<nat>) returns (k: nat)
      requires |h.pool| == |h.tab| < UNVISITED && Clean(View(), |h.tab|)
      requires forall i :: 0 <= i < |roots| ==> roots[i] < |h.tab|
      modifies this
      ensures Components(h, roots, k, visited, scc)
      ensures Dirty(View(), |h.tab|)
    {
      ghost var g := Edges(h.pool, h.tab);
      EdgesGraphed(h);
      StartScan(h, g);
      assert LiveRoots(h, roots[..0]) == {};
      for i := 0 to |roots|
        invariant Scanned(h, g, roots, i)
      {
        ScanFrom(h, g, roots, i);
      }
      k := comps;
      assert roots[..|roots|] == roots;
      ScanComplete(View(), h, g, roots);
    }

    /** The first `i` roots have been visited. */
    ghost predicate Scanned(h: Heap, g: Graph, roots: seq<nat>, i: nat)
      requires i <= |roots|
      reads this
    {
      && Inv(View(), h, g, LiveRoots(h, roots[..i])) && LowsFresh() && frames == [] && |disc| == |h.tab|
      && forall j :: 0 <= j < i && roots[j] < |disc| && LiveAt(h.pool, roots[j]) ==> disc[roots[j]] > 0
    }

    method StartScan(h: Heap, ghost g: Graph)
      requires Clean(View(), |h.tab|) && Graphed(h, g) && |h.tab| < UNVISITED
      modifies this
      ensures Inv(View(), h, g, {}) && LowsFresh() && frames == [] && |disc| == |h.tab|
    {
      StartInv(View(), h, g);
      visited := [];
      time, comps := 0, 0;
      tarjan, frames, frameNext := [], [], [];
      assert View() == Start(old(View()));
    }

    method ScanFrom(h: Heap, ghost g: Graph, roots: seq<nat>, i: nat)
      requires i < |roots| && roots[i] < |h.tab| && Scanned(h, g, roots, i) && Graphed(h, g)
      modifies this
      ensures Scanned(h, g, roots, i + 1)
    {
      VisitRoot(h, roots[i], g, LiveRoots(h, roots[..i]));
      NextLiveRoots(h, roots, i);
    }

    /** Clear the scratch of the listed nodes. */
    method Release(listed: seq<nat>)
      requires View().Sized(|disc|) && Dirty(View(), |disc|) && listed == visited
      modifies this
      ensures Clean(View(), old(|disc|))
    {
      ghost var n := |disc|;
      for i := 0 to |listed|
        invariant |disc| == |low| == |on| == |scc| == n
        invariant visited == listed && tarjan == old(tarjan) && frames == old(frames) && frameNext == old(frameNext)
        invariant forall v :: 0 <= v < n && v !in listed[i..] ==> CleanNode(View(), v)
      {
        var v := listed[i];
        assert listed[i..] == [v] + listed[i + 1..];
        disc := disc[v := 0];
        low := low[v := 0];
        on := on[v := false];
        scc := scc[v := UNVISITED];
        forall w | 0 <= w < n && w !in listed[i + 1..] ensures CleanNode(View(), w) {
          assert w != v ==> w !in listed[i..];
        }
      }
      forall v | 0 <= v < n
        ensures disc[v] == 0 && low[v] == 0 && !on[v] && scc[v] == UNVISITED
      {
        assert CleanNode(View(), v);
      }
    }
  }

  function NextTarget(s: Scan, h: Heap): nat
    requires s.Sized(|h.tab|) && s.frames != [] && TopNext(s) < |h.tab[Top(s)].outs|
  {
    h.tab[Top(s)].outs[TopNext(s)].index
  }

  /** What popping the node stack down to length `m` leaves of node `v`. */
  ghost predicate PoppedNode(s0: Scan, s: Scan, m: nat, v: nat) {
    && m <= |s0.tarjan| && v < |s0.on| == |s.on| && v < |s0.scc| == |s.scc|
    && s.on[v] == (s0.on[v] && v !in s0.tarjan[m..])
    && s.scc[v] == if v in s0.tarjan[m..] then s0.comps else s0.scc[v]
  }

  lemma PopNodes(s0: Scan, s: Scan, s': Scan, m: nat, k: nat, w: nat, n: nat)
    requires m < |s0.tarjan| && s0.tarjan[m] == w && k == m + 1 && forall v: nat :: v < n ==> PoppedNode(s0, s, k, v)
    requires w < |s.on| && w < |s.scc| && s'.on == s.on[w := false] && s'.scc == s.scc[w := s0.comps]
    ensures forall v: nat :: v < n ==> PoppedNode(s0, s', m, v)
  {
    forall v: nat | v < n ensures PoppedNode(s0, s', m, v) {
      assert PoppedNode(s0, s, k, v);
      PopNode(s0, s, s', m, w, v);
    }
  }

  lemma PopNode(s0: Scan, s: Scan, s': Scan, m: nat, w: nat, v: nat)
    requires m < |s0.tarjan| && s0.tarjan[m] == w && PoppedNode(s0, s, m + 1, v)
    requires w < |s.on| && w < |s.scc| && s'.on == s.on[w := false] && s'.scc == s.scc[w := s0.comps]
    ensures PoppedNode(s0, s', m, v)
  {
    assert s0.tarjan[m..] == [w] + s0.tarjan[m + 1..];
  }

  predicate CleanNode(s: Scan, v: nat) {
    && v < |s.disc| && v < |s.low| && v < |s.on| && v < |s.scc|
    && s.disc[v] == 0 && s.low[v] == 0 && !s.on[v] && s.scc[v] == UNVISITED
  }

  /** Only listed nodes carry scratch. */
  ghost predicate Dirty(s: Scan, n: nat) {
    s.Sized(n) && forall v :: 0 <= v < n && v !in s.visited ==> CleanNode(s, v)
  }

  ghost predicate Grows(s: Scan, s': Scan) {
    |s'.disc| == |s.disc| && forall v :: 0 <= v < |s.disc| && s.disc[v] > 0 ==> s'.disc[v] > 0
  }

  lemma RootOpens(s: Scan, s': Scan, h: Heap, g: Graph, roots: set<nat>, root: nat)
    requires Inv(s, h, g, roots) && s.frames == [] && root < |s.disc| && s.disc[root] == 0
    requires s' == Push(s, root)
    ensures s'.Sized(|s.disc|) && Inv(Looked(s'), h, g, roots + {root})
    ensures Looked(s').disc[root] > 0 && Grows(s, Looked(s'))
  {
    ReachRefl(g, root);
    assert FromRoot(g, roots + {root}, root);
    EnterInv(s, Looked(s'), h, g, roots, roots + {root}, root);
  }

  lemma FramesDiscovered(s: Scan, h: Heap, g: Graph, roots: set<nat>)
    requires Inv(s, h, g, roots)
    ensures forall p :: 0 <= p < |s.frames| ==> s.disc[s.frames[p]] > 0 && s.frames[p] in s.tarjan
    ensures |s.visited| <= |h.tab|
  {
    DistinctBounded(s.visited, |h.tab|);
    forall p | 0 <= p < |s.frames| ensures s.disc[s.frames[p]] > 0 && s.frames[p] in s.tarjan {
      assert BookedNode(s, |h.tab|, s.frames[p]);
    }
  }

  /** A turn of the loop keeps the invariant and makes progress. */
  ghost predicate Turned(s: Scan, s': Scan, h: Heap, g: Graph, roots: set<nat>)
    requires |s.frames| == |s.next|
  {
    && s'.Sized(|h.tab|) && |s'.disc| == |s.disc| == |h.tab|
    && Inv(Looked(s'), h, g, roots) && Grows(s, Looked(s'))
    && |s.visited| <= |Looked(s').visited| <= |h.tab|
    && (|s.visited| == |Looked(s').visited| ==> Work(h, s'.frames, s'.next) < Work(h, s.frames, s.next))
  }

  lemma ScanTurn(s: Scan, s': Scan, h: Heap, g: Graph, roots: set<nat>)
    requires Inv(s, h, g, roots) && Graphed(h, g) && s.frames != [] && s.disc[Top(s)] > 0
    requires TopNext(s) < |h.tab[Top(s)].outs|
    requires if Passable(s, h) then s' == Pass(s, h) else s' == Push(Skip(s), NextTarget(s, h))
    ensures Turned(s, s', h, g, roots)
  {
    if Passable(s, h) {
      PassStep(s, s', h, g, roots);
    } else {
      DescendStep(s, s', h, g, roots);
    }
  }

  lemma NextLiveRoots(h: Heap, roots: seq<nat>, i: nat)
    requires i < |roots|
    ensures LiveRoots(h, roots[..i + 1]) ==
            if LiveAt(h.pool, roots[i]) then LiveRoots(h, roots[..i]) + {roots[i]} else LiveRoots(h, roots[..i])
  {
    assert roots[..i + 1] == roots[..i] + [roots[i]];
  }

  lemma PassStep(s: Scan, s': Scan, h: Heap, g: Graph, roots: set<nat>)
    requires Inv(s, h, g, roots) && Graphed(h, g) && s.frames != [] && s.disc[Top(s)] > 0
    requires Passable(s, h) && s' == Pass(s, h)
    ensures Turned(s, s', h, g, roots)
  {
    PassInv(s, h, g, roots);
    FramesDiscovered(s', h, g, roots);
    PassWork(s, s', h);
  }

  lemma PassWork(s: Scan, s': Scan, h: Heap)
    requires s.frames != [] && |s.frames| == |s.next| && Top(s) < |h.tab| && TopNext(s) < |h.tab[Top(s)].outs|
    requires s'.frames == s.frames && s'.next == s.next[|s.next| - 1 := TopNext(s) + 1]
    requires forall p :: 0 <= p < |s.frames| ==> s.frames[p] < |h.tab|
    ensures Work(h, s'.frames, s'.next) < Work(h, s.frames, s.next)
  {
    var m := |s.next| - 1;
    assert s'.next[..m] == s.next[..m];
  }

  lemma DescendStep(s: Scan, s': Scan, h: Heap, g: Graph, roots: set<nat>)
    requires Inv(s, h, g, roots) && Graphed(h, g) && s.frames != [] && s.disc[Top(s)] > 0
    requires TopNext(s) < |h.tab[Top(s)].outs| && !Passable(s, h) && s' == Push(Skip(s), NextTarget(s, h))
    ensures Turned(s, s', h, g, roots)
  {
    var u, v, m := Top(s), NextTarget(s, h), |s.frames| - 1;
    assert Drawn(h, g, u, h.tab[u].outs[TopNext(s)]);
    assert Origin(s, |h.tab|, g, roots, u);
    var r :| r in roots && Reach(g, r, u);
    ReachEdge(g, u, v);
    ReachTrans(g, r, u, v);
    assert FromRoot(g, roots, v);
    var s1 := Looked(s');
    assert PassedTo(s, s1, h, m, v);
    assert forall p :: 0 <= p < |s.frames| && p != m ==> s1.next[p] == s.next[p];
    EnterInv(s, s1, h, g, roots, roots, v);
    FramesDiscovered(s1, h, g, roots);
  }

  lemma FinishStep(s: Scan, s': Scan, h: Heap, g: Graph, roots: set<nat>)
    requires Inv(s, h, g, roots) && Graphed(h, g) && s.frames != [] && s.disc[Top(s)] > 0
    requires TopNext(s) >= |h.tab[Top(s)].outs| && Top(s) in s.tarjan && s' == Finish(s)
    ensures Turned(s, s', h, g, roots)
  {
    assert TopNext(s) == s.next[|s.frames| - 1] <= |h.tab[s.frames[|s.frames| - 1]].outs|;
    FinishInv(s, h, g, roots);
    FramesDiscovered(s', h, g, roots);
  }

  lemma FinishInv(s: Scan, h: Heap, g: Graph, roots: set<nat>)
    requires Inv(s, h, g, roots) && Graphed(h, g) && s.frames != [] && s.disc[Top(s)] > 0
    requires TopNext(s) == |h.tab[Top(s)].outs| && Top(s) in s.tarjan
    ensures Inv(Finish(s), h, g, roots)
  {
    if s.low[Top(s)] == s.disc[Top(s)] {
      CloseInv(s, h, g, roots);
    } else {
      KeepInv(s, h, g, roots);
    }
  }

  lemma MoreRoots(s: Scan, h: Heap, g: Graph, roots: set<nat>, roots': set<nat>)
    requires Inv(s, h, g, roots) && roots <= roots'
    ensures Inv(s, h, g, roots')
  {
    forall v: nat | v < |h.tab| ensures Origin(s, |h.tab|, g, roots', v) {
      assert Origin(s, |h.tab|, g, roots, v);
    }
  }

  /** With no frame left, the listed nodes are closed under edges and every component is closed. */
  lemma ScanComplete(s: Scan, h: Heap, g: Graph, roots: seq<nat>)
    requires Inv(s, h, g, LiveRoots(h, roots)) && s.frames == [] && g == Edges(h.pool, h.tab)
    requires forall j :: 0 <= j < |roots| && LiveAt(h.pool, roots[j]) ==> roots[j] < |s.disc| && s.disc[roots[j]] > 0
    requires forall v :: 0 <= v < |s.disc| && s.disc[v] == 0 ==> s.low[v] == 0
    ensures Components(h, roots, s.comps, s.visited, s.scc) && Dirty(s, |h.tab|)
  {
    var n := |h.tab|;
    CompsBounded(s, n);
    forall v: nat | v < n
      ensures v in s.visited <==> s.scc[v] != UNVISITED
      ensures v in s.visited ==> s.scc[v] < s.comps
      ensures v in s.visited <==> FromRoot(g, LiveRoots(h, roots), v)
      ensures v !in s.visited ==> CleanNode(s, v)
    {
      assert BookedNode(s, n, v) && Backed(s, n, g, v);
      assert Origin(s, n, g, LiveRoots(h, roots), v);
      if FromRoot(g, LiveRoots(h, roots), v) {
        ListedClosed(s, h, g, roots, v);
      }
    }
    forall c: nat | c < s.comps ensures UsedId(s.visited, s.scc, c) {
      assert Used(s, c);
      var v :| 0 <= v < n && s.scc[v] == c;
      assert v in s.visited;
    }
    forall u: nat, v: nat | u < n && v < n && u in s.visited && v in s.visited
      ensures s.scc[u] == s.scc[v] <==> SameComponent(g, u, v)
    {
      assert IdIff(s, g, u, v);
    }
  }

  lemma ListedClosed(s: Scan, h: Heap, g: Graph, roots: seq<nat>, v: nat)
    requires Inv(s, h, g, LiveRoots(h, roots)) && s.frames == [] && v < |h.tab|
    requires forall j :: 0 <= j < |roots| && LiveAt(h.pool, roots[j]) ==> roots[j] < |s.disc| && s.disc[roots[j]] > 0
    requires FromRoot(g, LiveRoots(h, roots), v)
    ensures s.disc[v] > 0
  {
    var r :| r in LiveRoots(h, roots) && Reach(g, r, v);
    var found := set w: nat | w < |h.tab| && s.disc[w] > 0;
    ReachStaysIn(g, found, r, v);
  }
}
