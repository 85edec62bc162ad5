/** The argument behind a sweep: which cells it may free, and why nothing it should free stays. */
module Sweeping {
  import opened Graphs
  import opened Cells
  import opened EngineState
  import opened Coverage

  // ---- what a sweep must keep -----------------------------------------------------------------

  /** A cell the sweep has no business with: it is rooted, or no candidate reaches it. */
  ghost predicate Anchor(e: Engine, a: nat)
    requires e.Sized()
  {
    e.Live(a) && (e.tab[a].root > 0 || !Pending(e, a))
  }

  ghost predicate Anchored(e: Engine, u: nat)
    requires e.Sized()
  {
    exists a: nat :: Anchor(e, a) && Reach(e.G(), a, u)
  }

  /** Everything an anchor reaches. */
  ghost function Kept(e: Engine): set<nat>
    requires e.Sized()
  {
    set u: nat | u < |e.tab| && e.Live(u) && Anchored(e, u)
  }

  /** The live cells that no candidate reaches. */
  ghost function Spared(e: Engine): set<nat>
    requires e.Sized()
  {
    set u: nat | u < |e.tab| && e.Live(u) && !Pending(e, u)
  }

  ghost predicate BackClosed(g: Graph, s: set<nat>) {
    forall x :: x in g && x.1 in s ==> x.0 in s
  }

  ghost predicate Supported(e: Engine, kept: set<nat>, spared: set<nat>, k: nat)
    requires e.Sized()
  {
    k in kept ==> exists a: nat :: a in kept && (Rooted(e, a) || a in spared) && Reach(e.G(), a, k)
  }

  /** Safety half of the sweep invariant, for the sets `kept` and `spared` fixed at its start. */
  ghost predicate Safe(e: Engine, kept: set<nat>, spared: set<nat>) {
    && Consistent(e)
    && (forall k :: k in kept ==> e.Live(k))
    && spared <= kept
    && Closed(e.G(), kept)
    && BackClosed(e.G(), spared)
    && (forall i: nat :: Rooted(e, i) ==> i in kept)
    && (forall k: nat :: Supported(e, kept, spared, k))
    && (forall i: nat :: Candidate(e, i) ==> i !in spared)
  }

  /** Progress half: whatever is not kept is still pending. */
  ghost predicate Progressing(e: Engine, kept: set<nat>)
    requires e.Sized()
  {
    forall u: nat :: Progresses(e, kept, u)
  }

  ghost predicate Progresses(e: Engine, kept: set<nat>, u: nat)
    requires e.Sized()
  {
    e.Live(u) && u !in kept ==> Pending(e, u)
  }

  lemma SweepStarts(e: Engine)
    requires Consistent(e)
    ensures Safe(e, Kept(e), Spared(e)) && Progressing(e, Kept(e))
  {
    SparedIsKept(e);
    KeptClosed(e);
    SparedBackClosed(e);
    var kept, spared := Kept(e), Spared(e);
    forall i: nat | Rooted(e, i) ensures i in kept {
      ReachRefl(e.G(), i);
      assert Anchor(e, i);
    }
    forall k: nat ensures Supported(e, kept, spared, k) {
      if k in kept {
        var a: nat :| Anchor(e, a) && Reach(e.G(), a, k);
        ReachRefl(e.G(), a);
        assert a in kept && (Rooted(e, a) || a in spared);
      }
    }
    forall i: nat | Candidate(e, i) ensures i !in spared {
      ReachRefl(e.G(), i);
      PendingVia(e, i, i);
    }
    forall u: nat ensures Progresses(e, kept, u) {
      assert e.Live(u) ==> u in spared || Pending(e, u);
    }
  }

  lemma SparedIsKept(e: Engine)
    requires e.Sized()
    ensures Spared(e) <= Kept(e)
  {
    forall u | u in Spared(e) ensures u in Kept(e) {
      ReachRefl(e.G(), u);
      assert Anchor(e, u);
    }
  }

  lemma KeptClosed(e: Engine)
    requires e.Sized() && TableOk(e.pool, e.tab)
    ensures Closed(e.G(), Kept(e))
  {
    var g := e.G();
    forall x | x in g && x.0 in Kept(e) ensures x.1 in Kept(e) {
      var a: nat :| Anchor(e, a) && Reach(g, a, x.0);
      EdgeEnds(e.pool, e.tab, x.0, x.1);
      ReachEdge(g, x.0, x.1);
      ReachTrans(g, a, x.0, x.1);
    }
  }

  lemma SparedBackClosed(e: Engine)
    requires e.Sized() && TableOk(e.pool, e.tab)
    ensures BackClosed(e.G(), Spared(e))
  {
    forall x | x in e.G() && x.1 in Spared(e) ensures x.0 in Spared(e) {
      EdgeEnds(e.pool, e.tab, x.0, x.1);
      if Pending(e, x.0) {
        PendingBelow(e, x.0, x.1);
      }
    }
  }

  lemma {:induction false} WalkBackIn(g: Graph, s: set<nat>, p: seq<nat>)
    requires BackClosed(g, s) && Walk(g, p) && p[|p| - 1] in s
    ensures p[0] in s
    decreases |p|
  {
    if |p| > 1 {
      WalkTail(g, p);
      WalkBackIn(g, s, p[1..]);
      assert Hop(g, p, 0);
    }
  }

  lemma ReachBackIn(g: Graph, s: set<nat>, u: nat, v: nat)
    requires BackClosed(g, s) && v in s && Reach(g, u, v)
    ensures u in s
  {
    var p :| WalkFromTo(g, p, u, v);
    WalkBackIn(g, s, p);
  }

  lemma NoIncoming(e: Engine, i: nat)
    requires e.Sized() && TableOk(e.pool, e.tab) && i < |e.tab| && e.tab[i].edge <= 0
    ensures BackClosed(e.G(), {i})
  {
    forall x | x in e.G() && x.1 == i ensures false {
      EdgeEnds(e.pool, e.tab, x.0, x.1);
    }
  }

  lemma SupportedAlone(e: Engine, kept: set<nat>, spared: set<nat>, i: nat)
    requires e.Sized() && i in kept && BackClosed(e.G(), {i}) && Supported(e, kept, spared, i)
    ensures Rooted(e, i) || i in spared
  {
    var a: nat :| a in kept && (Rooted(e, a) || a in spared) && Reach(e.G(), a, i);
    ReachBackIn(e.G(), {i}, a, i);
  }

  /** A zero candidate is never kept, and nothing points at it. */
  lemma ZeroCandidateIsDead(e: Engine, kept: set<nat>, spared: set<nat>, i: nat)
    requires Safe(e, kept, spared) && Candidate(e, i) && e.TotalOf(i) == 0
    ensures i !in kept && BackClosed(e.G(), {i})
  {
    TotalsNonNegative(e, i);
    NoIncoming(e, i);
    if i in kept {
      SupportedAlone(e, kept, spared, i);
    }
  }

  /** A root-free set of pending cells that nothing outside points into is never kept. */
  lemma OrphanIsDead(e: Engine, kept: set<nat>, spared: set<nat>, c: set<nat>)
    requires Safe(e, kept, spared) && BackClosed(e.G(), c)
    requires forall i :: i in c ==> e.Live(i) && e.tab[i].root == 0 && Pending(e, i)
    ensures c !! kept
  {
    forall k | k in c ensures k !in kept {
      OrphanNotKept(e, kept, spared, c, k);
    }
  }

  lemma OrphanNotKept(e: Engine, kept: set<nat>, spared: set<nat>, c: set<nat>, k: nat)
    requires e.Sized() && k in c && Supported(e, kept, spared, k)
    requires BackClosed(e.G(), c) && BackClosed(e.G(), spared)
    requires forall i :: i in c ==> e.Live(i) && e.tab[i].root == 0 && Pending(e, i)
    requires forall i: nat :: Candidate(e, i) ==> i !in spared
    ensures k !in kept
  {
    if k in kept {
      var a: nat :| a in kept && (Rooted(e, a) || a in spared) && Reach(e.G(), a, k);
      ReachBackIn(e.G(), c, a, k);
      var m: nat :| Candidate(e, m) && Reach(e.G(), m, a);
      ReachBackIn(e.G(), spared, m, a);
    }
  }

  // ---- reclaiming a set of cells --------------------------------------------------------------

  ghost predicate TargetOf(g: Graph, c: set<nat>, i: nat) {
    exists x :: x in g && x.0 in c && x.1 == i
  }

  /** `e'` is `e` with the cells of `c` freed and every cell they pointed at re-evaluated. */
  ghost predicate Reclaimed(e: Engine, e': Engine, c: set<nat>) {
    && e.Sized() && TableOk(e.pool, e.tab)
    && Consistent(e') && |e'.tab| == |e.tab|
    && (forall i :: i in c ==> e.Live(i) && e'.pool[i] == Freed(e.pool[i]))
    && (forall i: nat :: i < |e.tab| && i !in c ==> SameCell(e, e', i))
    && (forall i: nat :: i < |e.tab| && i !in c && TargetOf(e.G(), c, i) ==> Remarked(e', i))
    && (forall i: nat :: i < |e.tab| && i !in c && !TargetOf(e.G(), c, i) ==>
          e'.zeroMark[i] == e.zeroMark[i] && e'.suspectMark[i] == e.suspectMark[i])
  }

  /** The cell keeps its identity, roots and records; its marks can only be added to, a zero mark
      only at a total of zero. */
  ghost predicate SameCell(e: Engine, e': Engine, i: nat)
    requires e.Sized() && e'.Sized() && |e'.tab| == |e.tab| && i < |e.tab|
  {
    && e'.pool[i] == e.pool[i]
    && e'.tab[i].root == e.tab[i].root && e'.tab[i].outs == e.tab[i].outs
    && (e.zeroMark[i] ==> e'.zeroMark[i])
    && (e.suspectMark[i] ==> e'.suspectMark[i])
    && (e'.zeroMark[i] && !e.zeroMark[i] ==> e'.TotalOf(i) == 0)
  }

  ghost predicate Remarked(e': Engine, i: nat)
    requires e'.Sized() && i < |e'.tab|
  {
    && (e'.TotalOf(i) == 0 ==> e'.zeroMark[i])
    && (e'.TotalOf(i) > 0 && e'.tab[i].outs != [] ==> e'.suspectMark[i])
  }

  lemma ReclaimedGraph(e: Engine, e': Engine, c: set<nat>)
    requires Reclaimed(e, e', c) && BackClosed(e.G(), c)
    ensures forall x :: x in e'.G() <==> x in e.G() && x.0 !in c
  {
    forall x | x in e'.G() ensures x in e.G() && x.0 !in c {
      EdgeEnds(e'.pool, e'.tab, x.0, x.1);
      assert x.1 !in c && x.0 !in c;
      assert SameCell(e, e', x.0) && SameCell(e, e', x.1);
      EdgeIff(e.pool, e.tab, x.0, x.1);
    }
    forall x | x in e.G() && x.0 !in c ensures x in e'.G() {
      EdgeEnds(e.pool, e.tab, x.0, x.1);
      assert x.1 !in c;
      assert SameCell(e, e', x.0) && SameCell(e, e', x.1);
      EdgeIff(e'.pool, e'.tab, x.0, x.1);
    }
  }

  lemma {:induction false} InShrinks(tab: seq<Row>, tab': seq<Row>, h: Handle, n: nat)
    requires n <= |tab| && n <= |tab'|
    requires forall j :: 0 <= j < n ==> tab'[j].outs == tab[j].outs || tab'[j].outs == []
    ensures In(tab', h, n) <= In(tab, h, n)
    ensures (forall j :: 0 <= j < n && h in tab[j].outs ==> tab'[j].outs == tab[j].outs) ==>
              In(tab', h, n) == In(tab, h, n)
  {
    if n > 0 {
      InShrinks(tab, tab', h, n - 1);
      assert h !in tab[n - 1].outs ==> h !in multiset(tab[n - 1].outs);
    }
  }

  /** A surviving cell's count drops only if a reclaimed cell pointed at it. */
  lemma ReclaimedCounts(e: Engine, e': Engine, c: set<nat>, i: nat)
    requires Reclaimed(e, e', c) && e.Live(i) && i !in c
    ensures e'.TotalOf(i) <= e.TotalOf(i)
    ensures !TargetOf(e.G(), c, i) ==> e'.TotalOf(i) == e.TotalOf(i)
  {
    assert SameCell(e, e', i);
    assert RowOk(e.pool, e.tab, i) && RowOk(e'.pool, e'.tab, i);
    var h := Current(e.pool, i);
    forall j | 0 <= j < |e.tab|
      ensures e'.tab[j].outs == e.tab[j].outs || e'.tab[j].outs == []
      ensures !TargetOf(e.G(), c, i) && h in e.tab[j].outs ==> e'.tab[j].outs == e.tab[j].outs
    {
      if j in c {
        EdgeIff(e.pool, e.tab, j, i);
        assert h in e.tab[j].outs ==> (j, i) in e.G();
      } else {
        assert SameCell(e, e', j);
      }
    }
    InShrinks(e.tab, e'.tab, h, |e.tab|);
  }

  lemma CandidateStays(e: Engine, e': Engine, c: set<nat>, m: nat)
    requires Reclaimed(e, e', c) && Candidate(e, m) && m !in c
    ensures Candidate(e', m)
  {
    assert SameCell(e, e', m);
    TotalsNonNegative(e', m);
    ReclaimedCounts(e, e', c, m);
  }

  lemma NewCandidate(e: Engine, e': Engine, c: set<nat>, m: nat)
    requires Reclaimed(e, e', c) && Candidate(e', m)
    ensures m !in c && (Candidate(e, m) || TargetOf(e.G(), c, m))
  {
    if m !in c && !TargetOf(e.G(), c, m) {
      assert SameCell(e, e', m);
      ReclaimedCounts(e, e', c, m);
    }
  }

  lemma {:induction false} WalkAvoids(g: Graph, g': Graph, c: set<nat>, p: seq<nat>)
    requires BackClosed(g, c) && Walk(g, p) && p[0] !in c
    requires forall x :: x in g && x.0 !in c ==> x in g'
    ensures Walk(g', p)
  {
    forall k: nat | k < |p| - 1 ensures Hop(g', p, k) {
      assert Hop(g, p, k);
      if p[k] in c {
        var q := p[..k + 1];
        forall j: nat | j < |q| - 1 ensures Hop(g, q, j) { assert Hop(g, p, j); }
        WalkBackIn(g, c, q);
      }
    }
  }

  lemma ReachAvoids(g: Graph, g': Graph, c: set<nat>, u: nat, v: nat)
    requires BackClosed(g, c) && u !in c && Reach(g, u, v)
    requires forall x :: x in g && x.0 !in c ==> x in g'
    ensures Reach(g', u, v)
  {
    var p :| WalkFromTo(g, p, u, v);
    WalkAvoids(g, g', c, p);
    assert WalkFromTo(g', p, u, v);
  }

  lemma KeptStaysSupported(e: Engine, e': Engine, c: set<nat>, kept: set<nat>, spared: set<nat>, k: nat)
    requires Reclaimed(e, e', c) && BackClosed(e.G(), c) && c !! kept
    requires k in kept && e.Live(k) && Supported(e, kept, spared, k)
    requires forall x :: x in e.G() && x.0 !in c ==> x in e'.G()
    ensures e'.Live(k) && Supported(e', kept, spared, k)
  {
    assert SameCell(e, e', k);
    var a: nat :| a in kept && (Rooted(e, a) || a in spared) && Reach(e.G(), a, k);
    assert Rooted(e, a) ==> SameCell(e, e', a);
    ReachAvoids(e.G(), e'.G(), c, a, k);
  }

  lemma CandidatesAvoidSpared(e: Engine, e': Engine, c: set<nat>, spared: set<nat>, i: nat)
    requires Reclaimed(e, e', c) && BackClosed(e.G(), spared) && c !! spared && Candidate(e', i)
    requires Candidate(e, i) ==> i !in spared
    ensures i !in spared
  {
    NewCandidate(e, e', c, i);
    if TargetOf(e.G(), c, i) {
      var x :| x in e.G() && x.0 in c && x.1 == i;
    }
  }

  lemma ReclaimKeepsSafe(e: Engine, e': Engine, c: set<nat>, kept: set<nat>, spared: set<nat>)
    requires Safe(e, kept, spared) && Reclaimed(e, e', c) && c !! kept && BackClosed(e.G(), c)
    ensures Safe(e', kept, spared)
  {
    ReclaimedGraph(e, e', c);
    forall k: nat ensures Supported(e', kept, spared, k) && (k in kept ==> e'.Live(k)) {
      if k in kept { KeptStaysSupported(e, e', c, kept, spared, k); }
    }
    forall i: nat | Rooted(e', i) ensures i in kept {
      assert i !in c && SameCell(e, e', i);
      assert Rooted(e, i);
    }
    forall i: nat | Candidate(e', i) ensures i !in spared {
      CandidatesAvoidSpared(e, e', c, spared, i);
    }
  }

  // ---- progress -------------------------------------------------------------------------------

  /** `w` is reached from a candidate of the new state, or was reached from a reclaimed cell. */
  ghost predicate Accounted(e: Engine, e': Engine, c: set<nat>, w: nat)
    requires e.Sized() && e'.Sized()
  {
    Pending(e', w) || exists x :: x in c && Reach(e.G(), x, w)
  }

  ghost predicate Accounts(e: Engine, e': Engine, c: set<nat>, kept: set<nat>, w: nat)
    requires e.Sized() && e'.Sized()
  {
    e'.Live(w) && w !in kept ==> Accounted(e, e', c, w)
  }

  lemma {:induction false} WalkExit(g: Graph, g': Graph, c: set<nat>, p: seq<nat>) returns (x: nat, t: nat)
    requires BackClosed(g, c) && Walk(g, p) && p[0] in c && p[|p| - 1] !in c
    requires forall y :: y in g && y.0 !in c ==> y in g'
    ensures x in c && t !in c && (x, t) in g && Reach(g', t, p[|p| - 1])
    decreases |p|
  {
    assert Hop(g, p, 0);
    WalkTail(g, p);
    if p[1] in c {
      x, t := WalkExit(g, g', c, p[1..]);
    } else {
      x, t := p[0], p[1];
      WalkAvoids(g, g', c, p[1..]);
      assert WalkFromTo(g', p[1..], t, p[|p| - 1]);
    }
  }

  /** A cell with records that was reached from a reclaimed cell is pending again. */
  lemma BranchPending(e: Engine, e': Engine, c: set<nat>, w: nat)
    requires Reclaimed(e, e', c) && BackClosed(e.G(), c)
    requires e'.Live(w) && Accounted(e, e', c, w) && e'.tab[w].outs != []
    ensures Pending(e', w)
  {
    if !Pending(e', w) {
      ReclaimedGraph(e, e', c);
      var x0 :| x0 in c && Reach(e.G(), x0, w);
      var p :| WalkFromTo(e.G(), p, x0, w);
      var x, t := WalkExit(e.G(), e'.G(), c, p);
      EdgeEnds(e.pool, e.tab, x, t);
      assert TargetOf(e.G(), c, t);
      if t != w {
        var y := ReachFirstEdge(e'.G(), t, w);
        EdgeEnds(e'.pool, e'.tab, t, y);
      }
      assert SameCell(e, e', t) && Remarked(e', t);
      TotalsNonNegative(e', t);
      PendingVia(e', t, w);
    }
  }

  lemma ReclaimProgress(e: Engine, e': Engine, c: set<nat>, kept: set<nat>, spared: set<nat>, u: nat)
    requires Reclaimed(e, e', c) && BackClosed(e.G(), c) && Safe(e', kept, spared)
    requires forall w: nat :: Accounts(e, e', c, kept, w)
    requires e'.Live(u) && u !in kept
    ensures Pending(e', u)
  {
    assert Accounts(e, e', c, kept, u);
    if e'.tab[u].outs != [] {
      BranchPending(e, e', c, u);
    } else if !Pending(e', u) {
      ReclaimedGraph(e, e', c);
      var x0 :| x0 in c && Reach(e.G(), x0, u);
      var p :| WalkFromTo(e.G(), p, x0, u);
      var x, t := WalkExit(e.G(), e'.G(), c, p);
      EdgeEnds(e.pool, e.tab, x, t);
      assert TargetOf(e.G(), c, t) && SameCell(e, e', t) && Remarked(e', t);
      TotalsNonNegative(e', t);
      if e'.TotalOf(t) == 0 || e'.tab[t].outs != [] {
        PendingVia(e', t, u);
      } else {
        NoWayOut(e', t, u);
        assert !Rooted(e', u);
        var w := HasPredecessor(e'.pool, e'.tab, u);
        EdgeEnds(e'.pool, e'.tab, w, u);
        assert w !in kept && Accounts(e, e', c, kept, w);
        BranchPending(e, e', c, w);
        PendingBelow(e', w, u);
      }
    }
  }

  lemma PendingBelow(e: Engine, w: nat, u: nat)
    requires e.Sized() && Pending(e, w) && (w, u) in e.G()
    ensures Pending(e, u)
  {
    var m: nat :| Candidate(e, m) && Reach(e.G(), m, w);
    ReachEdge(e.G(), w, u);
    ReachTrans(e.G(), m, w, u);
    PendingVia(e, m, u);
  }

  lemma ZeroAccounts(e: Engine, e': Engine, i: nat, w: nat)
    requires Reclaimed(e, e', {i}) && BackClosed(e.G(), {i})
    requires Pending(e, w)
    ensures Accounted(e, e', {i}, w)
  {
    var m: nat :| Candidate(e, m) && Reach(e.G(), m, w);
    if m != i {
      ReclaimedGraph(e, e', {i});
      CandidateStays(e, e', {i}, m);
      ReachAvoids(e.G(), e'.G(), {i}, m, w);
      PendingVia(e', m, w);
    }
  }

  /** Freeing one zero candidate keeps both halves of the invariant. */
  lemma ZeroStep(e: Engine, e': Engine, i: nat, kept: set<nat>, spared: set<nat>)
    requires Safe(e, kept, spared) && Progressing(e, kept)
    requires Candidate(e, i) && e.TotalOf(i) == 0
    requires Reclaimed(e, e', {i})
    ensures i !in kept && Safe(e', kept, spared) && Progressing(e', kept)
  {
    var c := {i};
    assert c !! kept && BackClosed(e.G(), c) by { ZeroCandidateIsDead(e, kept, spared, i); }
    ReclaimKeepsSafe(e, e', c, kept, spared);
    ZeroProgress(e, e', i, kept, spared);
  }

  lemma ZeroProgress(e: Engine, e': Engine, i: nat, kept: set<nat>, spared: set<nat>)
    requires e.Sized() && Progressing(e, kept)
    requires Reclaimed(e, e', {i}) && BackClosed(e.G(), {i}) && Safe(e', kept, spared)
    ensures Progressing(e', kept)
  {
    forall w: nat ensures Accounts(e, e', {i}, kept, w) {
      if e'.Live(w) && w !in kept {
        assert w != i && SameCell(e, e', w);
        assert Progresses(e, kept, w);
        ZeroAccounts(e, e', i, w);
      }
    }
    forall u: nat ensures Progresses(e', kept, u) {
      if e'.Live(u) && u !in kept { ReclaimProgress(e, e', {i}, kept, spared, u); }
    }
  }

  // ---- one scan for cycles --------------------------------------------------------------------

  /** The marks after a scan of `v`: the stack is consumed and everything visited is unmarked. */
  ghost predicate Scanned(e: Engine, e1: Engine, v: set<nat>) {
    && e.Sized() && e1.Sized()
    && e1.pool == e.pool && e1.tab == e.tab
    && e1.zeroMark == e.zeroMark && e1.zeroStack == e.zeroStack
    && e1.suspectStack == []
    && (forall i :: 0 <= i < |e.tab| ==> e1.suspectMark[i] == (e.suspectMark[i] && i !in v))
  }

  /** `v` is what the suspects reach. */
  ghost predicate ScanOf(e: Engine, v: set<nat>)
    requires e.Sized()
  {
    && Closed(e.G(), v)
    && (forall i: nat :: e.Live(i) && e.suspectMark[i] && e.TotalOf(i) > 0 ==> i in v)
    && (forall i :: i in v ==> e.Live(i) && e.TotalOf(i) > 0 && Pending(e, i))
  }

  ghost predicate SameComponent(g: Graph, u: nat, v: nat) {
    Reach(g, u, v) && Reach(g, v, u)
  }

  /** No root in the component of `s` and no edge into it from outside. */
  ghost predicate Orphan(e: Engine, s: nat)
    requires e.Sized()
  {
    forall a: nat :: Reach(e.G(), a, s) ==> Reach(e.G(), s, a) && !Rooted(e, a)
  }

  lemma ScanConsistent(e: Engine, e1: Engine, v: set<nat>)
    requires Consistent(e) && Scanned(e, e1, v) && ScanOf(e, v)
    ensures Consistent(e1)
  {
    forall i | 0 <= i < |e.tab| && e1.suspectMark[i]
      ensures e1.TotalOf(i) == 0 && e1.zeroMark[i] && e1.pool[i].live
    {
      TotalsNonNegative(e, i);
      assert e.Live(i);
    }
  }

  lemma ScanKeepsSafe(e: Engine, e1: Engine, v: set<nat>, kept: set<nat>, spared: set<nat>)
    requires Safe(e, kept, spared) && Scanned(e, e1, v) && ScanOf(e, v)
    ensures Safe(e1, kept, spared)
  {
    ScanConsistent(e, e1, v);
    forall i: nat | Candidate(e1, i) ensures i !in spared { assert Candidate(e, i); }
    forall k: nat ensures Supported(e1, kept, spared, k) {
      assert Supported(e, kept, spared, k);
      if k in kept {
        var a: nat :| a in kept && (Rooted(e, a) || a in spared) && Reach(e.G(), a, k);
        assert Rooted(e, a) ==> Rooted(e1, a);
      }
    }
    forall i: nat | Rooted(e1, i) ensures i in kept { assert Rooted(e, i); }
  }

  /** Reclaiming exactly the orphaned components of the scanned region keeps both halves. */
  lemma CycleStep(e: Engine, e1: Engine, e': Engine, v: set<nat>, c: set<nat>,
                  kept: set<nat>, spared: set<nat>)
    requires Safe(e, kept, spared) && Progressing(e, kept)
    requires Scanned(e, e1, v) && ScanOf(e, v)
    requires forall s: nat :: s in c <==> s in v && Orphan(e, s)
    requires Reclaimed(e1, e', c)
    ensures c !! kept && Safe(e', kept, spared) && Progressing(e', kept)
  {
    var g := e.G();
    OrphansBackClosed(e, v, c);
    OrphanIsDead(e, kept, spared, c);
    ScanKeepsSafe(e, e1, v, kept, spared);
    ReclaimKeepsSafe(e1, e', c, kept, spared);
    forall w: nat ensures Accounts(e1, e', c, kept, w) {
      if e'.Live(w) && w !in kept { ScanAccounts(e, e1, e', v, c, kept, spared, w); }
    }
    forall u: nat ensures Progresses(e', kept, u) {
      if e'.Live(u) && u !in kept { ReclaimProgress(e1, e', c, kept, spared, u); }
    }
  }

  lemma OrphansBackClosed(e: Engine, v: set<nat>, c: set<nat>)
    requires e.Sized() && TableOk(e.pool, e.tab) && ScanOf(e, v)
    requires forall s: nat :: s in c <==> s in v && Orphan(e, s)
    ensures BackClosed(e.G(), c)
    ensures forall i :: i in c ==> e.Live(i) && e.tab[i].root == 0 && Pending(e, i)
  {
    var g := e.G();
    forall x | x in g && x.1 in c ensures x.0 in c {
      ReachEdge(g, x.0, x.1);
      assert Reach(g, x.1, x.0);
      ReachStaysIn(g, v, x.1, x.0);
      forall a: nat | Reach(g, a, x.0) ensures Reach(g, x.0, a) && !Rooted(e, a) {
        ReachTrans(g, a, x.0, x.1);
        ReachTrans(g, x.0, x.1, a);
      }
    }
    forall i | i in c ensures e.tab[i].root == 0 {
      ReachRefl(g, i);
      TotalsNonNegative(e, i);
      assert !Rooted(e, i);
    }
  }

  lemma ScanAccounts(e: Engine, e1: Engine, e': Engine, v: set<nat>, c: set<nat>,
                     kept: set<nat>, spared: set<nat>, w: nat)
    requires Safe(e, kept, spared) && Progressing(e, kept)
    requires Scanned(e, e1, v) && ScanOf(e, v)
    requires forall s: nat :: s in c <==> s in v && Orphan(e, s)
    requires Reclaimed(e1, e', c) && BackClosed(e.G(), c)
    requires e'.Live(w) && w !in kept
    ensures Accounted(e1, e', c, w)
  {
    var g := e.G();
    ReclaimedGraph(e1, e', c);
    forall x | x in g ensures x.0 < |e.tab| { EdgeEnds(e.pool, e.tab, x.0, x.1); }
    var s := SourceAbove(g, |e.tab|, w);
    SourceNotKept(e, kept, spared, s, w);
    var m: nat :| Candidate(e, m) && Reach(g, m, s);
    if e.TotalOf(m) == 0 {
      ReachTrans(g, m, s, w);
      ZeroAbove(e, e1, e', v, c, m, w);
    } else {
      TotalsNonNegative(e, m);
      ReachStaysIn(g, v, m, s);
      assert Orphan(e, s);
      assert s in c;
    }
  }

  /** What hangs below a zero candidate still does. */
  lemma ZeroAbove(e: Engine, e1: Engine, e': Engine, v: set<nat>, c: set<nat>, m: nat, w: nat)
    requires Consistent(e) && Scanned(e, e1, v) && ScanOf(e, v) && Reclaimed(e1, e', c) && BackClosed(e.G(), c)
    requires c <= v && Candidate(e, m) && e.TotalOf(m) == 0 && Reach(e.G(), m, w) && e'.Live(w)
    ensures Pending(e', w)
  {
    ReclaimedGraph(e1, e', c);
    assert m !in v && m !in c && Candidate(e1, m);
    CandidateStays(e1, e', c, m);
    ReachAvoids(e.G(), e'.G(), c, m, w);
    PendingVia(e', m, w);
  }

  lemma SourceNotKept(e: Engine, kept: set<nat>, spared: set<nat>, s: nat, w: nat)
    requires Safe(e, kept, spared) && Progressing(e, kept)
    requires s < |e.tab| && Reach(e.G(), s, w) && w !in kept && e.Live(w)
    requires forall a: nat :: Reach(e.G(), a, s) ==> Reach(e.G(), s, a)
    ensures Pending(e, s) && Orphan(e, s)
  {
    var g := e.G();
    if s != w {
      var y := ReachFirstEdge(g, s, w);
      EdgeEnds(e.pool, e.tab, s, y);
    }
    if s in kept { ReachStaysIn(g, kept, s, w); }
    assert Progresses(e, kept, s);
    forall a: nat | Reach(g, a, s) ensures !Rooted(e, a) {
      if Rooted(e, a) { ReachStaysIn(g, kept, a, s); }
    }
  }

  // ---- the end of a sweep ---------------------------------------------------------------------

  /** With no candidate left, the live cells are exactly the kept ones. */
  lemma SweepEnds(e: Engine, kept: set<nat>, spared: set<nat>)
    requires Safe(e, kept, spared) && Progressing(e, kept)
    requires e.zeroStack == [] && e.suspectStack == []
    ensures forall u: nat :: e.Live(u) <==> u in kept
    ensures Settled(e)
    ensures forall i :: 0 <= i < |e.tab| ==> !e.zeroMark[i] && !e.suspectMark[i]
  {
    forall i | 0 <= i < |e.tab| ensures !e.zeroMark[i] && !e.suspectMark[i] {
      assert e.zeroMark[i] <==> i in e.zeroStack;
      TotalsNonNegative(e, i);
    }
    forall u: nat | e.Live(u) ensures u in kept {
      assert Progresses(e, kept, u);
      assert !Pending(e, u) by { assert forall m: nat :: !Candidate(e, m); }
    }
  }
}
