/** What zero sweeps never touch and cycle passes always free: sets of cells that feed each other. */
module Knots {
  import opened Graphs
  import opened Cells
  import opened EngineState
  import opened Coverage
  import opened Sweeping

  // ---- what a zero sweep spares ---------------------------------------------------------------

  /** A member of `c` has a record of `i`. */
  ghost predicate Fed(e: Engine, c: set<nat>, i: nat)
    requires e.Sized()
  {
    exists x :: x in e.G() && x.0 in c && x.1 == i
  }

  /** Live cells each of which is referred to from among them. */
  ghost predicate Supplied(e: Engine, c: set<nat>)
    requires e.Sized()
  {
    && (forall i :: i in c ==> e.Live(i))
    && (forall i {:trigger Fed(e, c, i)} :: i in c ==> Fed(e, c, i))
  }

  ghost predicate Stays(e: Engine, e': Engine, c: set<nat>)
    requires e.Sized() && e'.Sized() && |e'.tab| == |e.tab|
  {
    Supplied(e', c) && forall i :: i in c && i < |e.tab| && e.suspectMark[i] ==> e'.suspectMark[i]
  }

  /** Every such set stays, suspects included. */
  ghost predicate SparesFed(e: Engine, e': Engine) {
    && e.Sized() && e'.Sized() && |e'.tab| == |e.tab|
    && forall c: set<nat> :: Supplied(e, c) ==> Stays(e, e', c)
  }

  lemma SparesSelf(e: Engine)
    requires e.Sized()
    ensures SparesFed(e, e)
  {
  }

  lemma SparesFedTwice(e: Engine, e1: Engine, e2: Engine)
    requires SparesFed(e, e1) && SparesFed(e1, e2)
    ensures SparesFed(e, e2)
  {
    forall c: set<nat> | Supplied(e, c) ensures Stays(e, e2, c) {
      assert Stays(e, e1, c) && Stays(e1, e2, c);
    }
  }

  /** Steps that leave cells, records and suspects alone. */
  lemma SameSpares(e: Engine, e': Engine)
    requires e.Sized() && e'.Sized() && e'.pool == e.pool && e'.tab == e.tab && e'.suspectMark == e.suspectMark
    ensures SparesFed(e, e')
  {
    forall c: set<nat> | Supplied(e, c) ensures Stays(e, e', c) {
      forall i | i in c ensures e'.Live(i) && Fed(e', c, i) {
        assert Fed(e, c, i);
        var x :| x in e.G() && x.0 in c && x.1 == i;
        assert x in e'.G();
      }
    }
  }

  /** Freeing a cell that nothing refers to. */
  lemma ZeroSpares(e: Engine, e': Engine, i: nat)
    requires Reclaimed(e, e', {i}) && forall x :: x in e.G() ==> x.1 != i
    ensures SparesFed(e, e')
  {
    ReclaimedGraph(e, e', {i});
    forall c: set<nat> | Supplied(e, c) ensures Stays(e, e', c) {
      forall j | j in c ensures e'.Live(j) && Fed(e', c, j) && (e.suspectMark[j] ==> e'.suspectMark[j]) {
        KeptFed(e, e', c, i, j);
      }
    }
  }

  lemma KeptFed(e: Engine, e': Engine, c: set<nat>, i: nat, j: nat)
    requires Reclaimed(e, e', {i}) && (forall x :: x in e.G() ==> x.1 != i) && Supplied(e, c) && j in c
    requires forall x :: x in e'.G() <==> x in e.G() && x.0 != i
    ensures e'.Live(j) && Fed(e', c, j) && (e.suspectMark[j] ==> e'.suspectMark[j])
  {
    assert Fed(e, c, j);
    var x :| x in e.G() && x.0 in c && x.1 == j;
    assert Fed(e, c, x.0);
    assert SameCell(e, e', j) && x in e'.G();
  }

  // ---- what a cycle pass frees ----------------------------------------------------------------

  /** A live suspect reaches `u`. */
  ghost predicate Scannable(e: Engine, u: nat)
    requires e.Sized()
  {
    exists m: nat :: e.Live(m) && e.suspectMark[m] && e.TotalOf(m) > 0 && Reach(e.G(), m, u)
  }

  /** Every orphaned component a suspect reaches is gone. */
  ghost predicate OrphansGone(e: Engine, e': Engine)
    requires e.Sized()
  {
    forall u: nat :: Scannable(e, u) && Orphan(e, u) ==> !e'.Live(u)
  }

  lemma ScannedOrphans(e: Engine, e': Engine, v: set<nat>, c: set<nat>)
    requires e.Sized() && ScanOf(e, v) && forall i :: i in c ==> !e'.Live(i)
    requires forall s: nat :: s in v && Orphan(e, s) ==> s in c
    ensures OrphansGone(e, e')
  {
    forall u: nat | Scannable(e, u) && Orphan(e, u) ensures !e'.Live(u) {
      var m: nat :| e.Live(m) && e.suspectMark[m] && e.TotalOf(m) > 0 && Reach(e.G(), m, u);
      ReachStaysIn(e.G(), v, m, u);
    }
  }

  // ---- a stranded component -------------------------------------------------------------------

  /** Rootless cells that feed and reach each other and that nothing outside refers to. */
  ghost predicate Knot(e: Engine, c: set<nat>)
    requires e.Sized()
  {
    && Supplied(e, c) && BackClosed(e.G(), c)
    && (forall i :: i in c ==> !Rooted(e, i))
    && (forall i, j :: i in c && j in c ==> Reach(e.G(), i, j))
  }

  lemma {:induction false} WalkBackInside(g: Graph, g': Graph, s: set<nat>, p: seq<nat>)
    requires BackClosed(g, s) && Walk(g, p) && p[|p| - 1] in s
    requires forall x :: x in g && x.0 in s && x.1 in s ==> x in g'
    ensures Reach(g', p[0], p[|p| - 1])
    decreases |p|
  {
    if |p| == 1 {
      ReachRefl(g', p[0]);
    } else {
      WalkTail(g, p);
      WalkBackIn(g, s, p[1..]);
      assert Hop(g, p, 0);
      WalkBackInside(g, g', s, p[1..]);
      ReachEdge(g', p[0], p[1]);
      ReachTrans(g', p[0], p[1], p[|p| - 1]);
    }
  }

  lemma ReachBackInside(g: Graph, g': Graph, s: set<nat>, u: nat, v: nat)
    requires BackClosed(g, s) && v in s && Reach(g, u, v)
    requires forall x :: x in g && x.0 in s && x.1 in s ==> x in g'
    ensures Reach(g', u, v)
  {
    var p :| WalkFromTo(g, p, u, v);
    WalkBackInside(g, g', s, p);
  }

  /** A knot that lives on with its records is an orphan. */
  lemma KnotIsOrphan(e: Engine, e1: Engine, c: set<nat>, u: nat)
    requires e.Sized() && e1.Sized() && Knot(e, c) && u in c && e1.G() <= e.G()
    requires forall x :: x in e.G() && x.0 in c && x.1 in c ==> x in e1.G()
    requires forall i :: i in c ==> !Rooted(e1, i)
    ensures Orphan(e1, u)
  {
    forall a: nat | Reach(e1.G(), a, u) ensures Reach(e1.G(), u, a) && !Rooted(e1, a) {
      ReachMonotone(e1.G(), e.G(), a, u);
      ReachBackIn(e.G(), c, a, u);
      ReachBackInside(e.G(), e1.G(), c, u, a);
    }
  }

  /** A knot with a suspect is scanned. */
  lemma KnotScanned(e: Engine, e1: Engine, c: set<nat>, s: nat, u: nat)
    requires e.Sized() && e1.Sized() && TableOk(e1.pool, e1.tab) && Knot(e, c) && Supplied(e1, c) && s in c && u in c
    requires e1.suspectMark[s] && e1.G() <= e.G() && (forall x :: x in e.G() && x.0 in c && x.1 in c ==> x in e1.G())
    requires forall i :: i in c ==> !Rooted(e1, i)
    ensures Scannable(e1, u) && Orphan(e1, u)
  {
    KnotIsOrphan(e, e1, c, u);
    FedIsPositive(e1, c, s);
    ReachBackInside(e.G(), e1.G(), c, s, u);
  }

  lemma FedIsPositive(e: Engine, c: set<nat>, s: nat)
    requires e.Sized() && TableOk(e.pool, e.tab) && Supplied(e, c) && s in c
    ensures s < |e.tab| && e.Live(s) && e.TotalOf(s) > 0
  {
    assert Fed(e, c, s);
    var x :| x in e.G() && x.0 in c && x.1 == s;
    EdgeEnds(e.pool, e.tab, x.0, x.1);
    TotalsNonNegative(e, s);
  }
}
