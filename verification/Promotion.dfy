/** Handing a connected component of LOCAL cells over to the worker, and every step of the
    adaptive runtime. */
module Promotion {
  import opened Graphs
  import opened Cells
  import opened EngineState
  import opened Coverage
  import opened Sweeping
  import opened CollectionEngines
  import opened Exactness
  import opened Leaks
  import opened Regimes

  // ---- the component --------------------------------------------------------------------------

  predicate Mine(s: World, o: nat, i: nat) {
    LiveAt(s.pool, i) && i < |s.tags| && s.tags[i] == Tag(Local, o)
  }

  /** The edges between live LOCAL cells of owner `o`, in both directions. */
  ghost function Links(s: World, o: nat): Graph {
    (set x | x in Edges(s.pool, s.tab) && Mine(s, o, x.0) && Mine(s, o, x.1))
    + (set x | x in Edges(s.pool, s.tab) && Mine(s, o, x.0) && Mine(s, o, x.1) :: (x.1, x.0))
  }

  ghost function Seeds(s: World, o: nat, seeds: seq<Handle>): set<nat> {
    set h | h in seeds && Mine(s, o, h.index) :: h.index
  }

  ghost predicate ReachedFrom(g: Graph, roots: set<nat>, v: nat) {
    exists r :: r in roots && Reach(g, r, v)
  }

  /** Connected to a seed by records in either direction. */
  ghost predicate Linked(s: World, o: nat, seeds: seq<Handle>, v: nat) {
    ReachedFrom(Links(s, o), Seeds(s, o, seeds), v)
  }

  /** The sources of the records of the first `n` rows that target `h`: the incoming list. */
  function Sources(s: World, h: Handle, n: nat): (r: seq<Handle>)
    requires n <= |s.tab| == |s.pool|
    ensures forall t :: t in r <==> t.index < n && t == Current(s.pool, t.index) && h in s.tab[t.index].outs
  {
    if n == 0 then []
    else if h in s.tab[n - 1].outs then Sources(s, h, n - 1) + [Current(s.pool, n - 1)]
    else Sources(s, h, n - 1)
  }

  ghost function Targets(s: World, o: nat, hs: seq<Handle>): set<nat> {
    set h | h in hs && Valid(s.pool, h) && Mine(s, o, h.index) :: h.index
  }

  predicate Unique(q: seq<nat>) {
    forall i, j :: 0 <= i < j < |q| ==> q[i] != q[j]
  }

  /** Push every LOCAL neighbour that has not been seen. */
  method PushUnseen(s: World, o: nat, hs: seq<Handle>, seen: set<nat>) returns (seen': set<nat>, more: seq<nat>)
    ensures seen' == seen + Targets(s, o, hs)
    ensures Unique(more) && forall x :: x in more <==> x in seen' && x !in seen
  {
    seen', more := seen, [];
    for n := 0 to |hs|
      invariant seen' == seen + Targets(s, o, hs[..n])
      invariant Unique(more) && forall x :: x in more <==> x in seen' && x !in seen
    {
      var h := hs[n];
      assert hs[..n + 1] == hs[..n] + [h];
      if Valid(s.pool, h) && Mine(s, o, h.index) && h.index !in seen' {
        seen' := seen' + {h.index};
        more := more + [h.index];
      }
    }
    assert hs[..|hs|] == hs;
  }

  /** A cell is seen when it waits on the stack or has been visited, never both. */
  ghost predicate Books(seen: set<nat>, stack: seq<nat>, comp: seq<nat>) {
    && Unique(stack) && Unique(comp)
    && (forall x :: x in stack ==> x !in comp)
    && (forall x :: x in seen <==> x in stack || x in comp)
  }

  lemma BooksOn(seen: set<nat>, stack: seq<nat>, comp: seq<nat>, seen': set<nat>, more: seq<nat>)
    requires Books(seen, stack, comp) && stack != [] && seen <= seen'
    requires Unique(more) && forall x :: x in more <==> x in seen' && x !in seen
    ensures Books(seen', stack[..|stack| - 1] + more, comp + [stack[|stack| - 1]])
  {
    var i, rest := stack[|stack| - 1], stack[..|stack| - 1];
    assert stack == rest + [i];
    var q := rest + more;
    forall a, b | 0 <= a < b < |q| ensures q[a] != q[b] {
      if a < |rest| <= b { assert stack[a] in stack && more[b - |rest|] in more; }
    }
    assert i in stack && i !in comp;
    assert Unique(comp + [i]);
    forall x ensures x in seen' <==> x in rest + more || x in comp + [i] {
      assert x in stack <==> x in rest || x == i;
    }
    forall x | x in rest + more ensures x !in comp + [i] {
      assert x in rest ==> x in stack;
    }
  }

  /** Everything seen is connected to a seed; a visited node has no unseen neighbour. */
  ghost predicate Walked(g: Graph, roots: set<nat>, seen: set<nat>, comp: seq<nat>) {
    && roots <= seen
    && (forall v :: v in seen ==> ReachedFrom(g, roots, v))
    && (forall x :: x in g && x.0 in comp ==> x.1 in seen)
  }

  lemma WalkedOn(g: Graph, roots: set<nat>, seen: set<nat>, comp: seq<nat>, i: nat, seen': set<nat>)
    requires Walked(g, roots, seen, comp) && i in seen && seen <= seen'
    requires forall v: nat :: (i, v) in g ==> v in seen'
    requires forall v: nat :: v in seen' && v !in seen ==> (i, v) in g
    ensures Walked(g, roots, seen', comp + [i])
  {
    forall v: nat | v in seen' ensures ReachedFrom(g, roots, v) {
      if v !in seen {
        var r :| r in roots && Reach(g, r, i);
        ReachEdge(g, i, v);
        ReachTrans(g, r, i, v);
      }
    }
    forall x | x in g && x.0 in comp + [i] ensures x.1 in seen' {
      if x.0 == i { assert (i, x.1) in g; }
    }
  }

  lemma WalkedAll(g: Graph, roots: set<nat>, seen: set<nat>, comp: seq<nat>, v: nat)
    requires Walked(g, roots, seen, comp) && forall x :: x in seen <==> x in comp
    ensures v in comp <==> ReachedFrom(g, roots, v)
  {
    if ReachedFrom(g, roots, v) {
      var r :| r in roots && Reach(g, r, v);
      ReachStaysIn(g, seen, r, v);
    }
  }

  lemma LinksIff(s: World, o: nat, i: nat, j: nat)
    requires Sized(s) && TableOk(s.pool, s.tab) && Mine(s, o, i)
    ensures (i, j) in Links(s, o) <==>
      j in Targets(s, o, s.tab[i].outs) || j in Targets(s, o, Sources(s, Current(s.pool, i), |s.tab|))
  {
    var ins := Sources(s, Current(s.pool, i), |s.tab|);
    if (i, j) in Links(s, o) {
      if (i, j) in Edges(s.pool, s.tab) {
        EdgeIff(s.pool, s.tab, i, j);
        assert Current(s.pool, j) in s.tab[i].outs;
      } else {
        EdgeEnds(s.pool, s.tab, j, i);
        assert Current(s.pool, j) in ins;
      }
    }
    if j in Targets(s, o, s.tab[i].outs) {
      EdgeIff(s.pool, s.tab, i, j);
    }
    if j in Targets(s, o, ins) {
      EdgeIff(s.pool, s.tab, j, i);
      assert (j, i) in Edges(s.pool, s.tab);
    }
  }

  ghost function LiveCells(s: World): set<nat> {
    set i: nat | i < |s.pool| && LiveAt(s.pool, i)
  }

  /** The undirected walk over outgoing and incoming records finds exactly the cells linked to a
      seed, each once. */
  method ClosureLocal(s: World, o: nat, seeds: seq<Handle>) returns (comp: seq<nat>)
    requires Sized(s) && TableOk(s.pool, s.tab)
    ensures Unique(comp)
    ensures forall v: nat :: v in comp <==> Linked(s, o, seeds, v)
  {
    comp := [];
    var seen, stack := SeedStack(s, o, seeds);
    while stack != []
      invariant Searching(s, o, seeds, seen, stack, comp)
      decreases Unseen(s, seen), |stack|
    {
      seen, stack, comp := VisitTop(s, o, seeds, seen, stack, comp);
    }
    forall v: nat ensures v in comp <==> Linked(s, o, seeds, v) {
      WalkedAll(Links(s, o), Seeds(s, o, seeds), seen, comp, v);
    }
  }

  ghost predicate Searching(s: World, o: nat, seeds: seq<Handle>, seen: set<nat>, stack: seq<nat>, comp: seq<nat>) {
    SearchingIn(Links(s, o), Seeds(s, o, seeds), s, o, seen, stack, comp)
  }

  ghost predicate SearchingIn(g: Graph, roots: set<nat>, s: World, o: nat, seen: set<nat>, stack: seq<nat>, comp: seq<nat>) {
    && Books(seen, stack, comp) && Walked(g, roots, seen, comp)
    && forall v :: v in seen ==> Mine(s, o, v)
  }

  lemma SearchOn(g: Graph, roots: set<nat>, s: World, o: nat, seen: set<nat>, stack: seq<nat>, comp: seq<nat>,
                 seen': set<nat>, more: seq<nat>)
    requires SearchingIn(g, roots, s, o, seen, stack, comp) && stack != [] && seen <= seen'
    requires Unique(more) && forall x :: x in more <==> x in seen' && x !in seen
    requires forall v: nat :: (stack[|stack| - 1], v) in g ==> v in seen'
    requires forall v: nat :: v in seen' && v !in seen ==> (stack[|stack| - 1], v) in g && Mine(s, o, v)
    ensures SearchingIn(g, roots, s, o, seen', stack[..|stack| - 1] + more, comp + [stack[|stack| - 1]])
  {
    assert stack[|stack| - 1] in stack;
    BooksOn(seen, stack, comp, seen', more);
    WalkedOn(g, roots, seen, comp, stack[|stack| - 1], seen');
  }

  ghost function Unseen(s: World, seen: set<nat>): nat {
    |LiveCells(s) - seen|
  }

  method VisitTop(s: World, o: nat, ghost seeds: seq<Handle>, seen: set<nat>, stack: seq<nat>, comp: seq<nat>)
    returns (seen': set<nat>, stack': seq<nat>, comp': seq<nat>)
    requires Sized(s) && TableOk(s.pool, s.tab) && stack != [] && Searching(s, o, seeds, seen, stack, comp)
    ensures Searching(s, o, seeds, seen', stack', comp')
    ensures Unseen(s, seen') < Unseen(s, seen) || (Unseen(s, seen') == Unseen(s, seen) && |stack'| < |stack|)
  {
    var i := stack[|stack| - 1];
    assert i in seen;
    var more;
    seen', more := Neighbours(s, o, i, seen);
    SearchOn(Links(s, o), Seeds(s, o, seeds), s, o, seen, stack, comp, seen', more);
    FewerUnseen(s, seen, seen', more);
    stack', comp' := stack[..|stack| - 1] + more, comp + [i];
  }

  /** Push the unseen targets and sources of the records of `i`. */
  method Neighbours(s: World, o: nat, i: nat, seen: set<nat>) returns (seen': set<nat>, more: seq<nat>)
    requires Sized(s) && TableOk(s.pool, s.tab) && Mine(s, o, i)
    ensures seen <= seen' && Unique(more) && forall x :: x in more <==> x in seen' && x !in seen
    ensures forall v: nat :: (i, v) in Links(s, o) ==> v in seen'
    ensures forall v: nat :: v in seen' && v !in seen ==> (i, v) in Links(s, o) && Mine(s, o, v)
  {
    var seen1, more1 := PushUnseen(s, o, s.tab[i].outs, seen);
    var more2;
    seen', more2 := PushUnseen(s, o, Sources(s, Current(s.pool, i), |s.tab|), seen1);
    more := more1 + more2;
    forall a, b | 0 <= a < b < |more| ensures more[a] != more[b] {
      if a < |more1| <= b { assert more1[a] in more1 && more2[b - |more1|] in more2; }
    }
    forall v: nat
      ensures (i, v) in Links(s, o) ==> v in seen'
      ensures v in seen' && v !in seen ==> (i, v) in Links(s, o)
    {
      LinksIff(s, o, i, v);
    }
  }

  lemma FewerUnseen(s: World, seen: set<nat>, seen': set<nat>, more: seq<nat>)
    requires seen <= seen' && forall v :: v in seen' ==> LiveAt(s.pool, v)
    requires forall x :: x in more <==> x in seen' && x !in seen
    ensures Unseen(s, seen') < Unseen(s, seen) || (Unseen(s, seen') == Unseen(s, seen) && more == [])
  {
    if more != [] {
      assert more[0] in more;
      ProperSubsetIsSmaller(LiveCells(s) - seen', LiveCells(s) - seen, more[0]);
    } else {
      assert seen' == seen;
    }
  }

  method SeedStack(s: World, o: nat, seeds: seq<Handle>) returns (seen: set<nat>, stack: seq<nat>)
    requires Sized(s)
    ensures Books(seen, stack, []) && seen == Seeds(s, o, seeds)
    ensures Walked(Links(s, o), Seeds(s, o, seeds), seen, [])
  {
    seen, stack := {}, [];
    for n := 0 to |seeds|
      invariant Books(seen, stack, []) && seen == Seeds(s, o, seeds[..n])
    {
      var h := seeds[n];
      assert seeds[..n + 1] == seeds[..n] + [h];
      if Mine(s, o, h.index) && h.index !in seen {
        seen, stack := seen + {h.index}, stack + [h.index];
      }
    }
    assert seeds[..|seeds|] == seeds;
    forall v | v in seen ensures ReachedFrom(Links(s, o), seen, v) { ReachRefl(Links(s, o), v); }
  }

  // ---- moving cells between authorities -------------------------------------------------------

  function Retag(s: World, p: set<nat>, r: Regime): World {
    s.(tags := seq(|s.tags|, i requires 0 <= i < |s.tags| =>
      if i in p then s.tags[i].(regime := r) else s.tags[i]))
  }

  /** `p` may leave authority `k`: no record joins it to the rest, and nothing in it is marked. */
  ghost predicate Detached(s: World, k: nat, p: set<nat>)
    requires Sized(s) && k < |s.marks|
  {
    && Closed(Edges(s.pool, s.tab), p) && BackClosed(Edges(s.pool, s.tab), p)
    && forall i :: i in p ==> DetachedCell(s, k, i)
  }

  ghost predicate DetachedCell(s: World, k: nat, i: nat)
    requires Sized(s) && k < |s.marks|
  {
    Has(s, k, i) && !s.marks[k].zeroMark[i] && !s.marks[k].suspectMark[i]
  }

  /** The last sweep of `k` settled `i`: it is reachable or still unmentioned. */
  ghost predicate SettledCell(s: World, k: nat, i: nat)
    requires Sized(s) && k < |s.marks|
  {
    Reachable(Own(s, k), i) || Unborn(Own(s, k), i)
  }

  /** `s'` is `s` with the cells of `p` moved from authority `k` to `l`. */
  ghost predicate Moved(s: World, s': World, p: set<nat>, k: nat, l: nat) {
    && Tidy(s) && k < |s.marks| && l < |s.marks| && k != l && Detached(s, k, p)
    && s' == s.(tags := s'.tags) && |s'.tags| == |s.tags|
    && forall j: nat, i: nat :: Has(s', j, i) <==> if i in p then j == l else Has(s, j, i)
  }

  lemma RetagMoves(s: World, p: set<nat>, r: Regime, k: nat, l: nat)
    requires Tidy(s) && k < |s.marks| && l < |s.marks| && k != l && Detached(s, k, p)
    requires forall i :: i in p ==> DetachedCell(s, k, i) && AuthorityOf(s.tags[i].(regime := r)) == l
    ensures Moved(s, Retag(s, p, r), p, k, l)
  {
    var s' := Retag(s, p, r);
    forall j: nat, i: nat ensures Has(s', j, i) <==> if i in p then j == l else Has(s, j, i) {
      if i in p { assert DetachedCell(s, k, i); }
    }
  }

  lemma MovedTidy(s: World, s': World, p: set<nat>, k: nat, l: nat)
    requires Moved(s, s', p, k, l)
    ensures Tidy(s')
  {
    forall x | x in Edges(s'.pool, s'.tab) ensures forall j: nat :: Has(s', j, x.0) <==> Has(s', j, x.1) {
      assert x in Edges(s.pool, s.tab);
      forall j: nat ensures Has(s', j, x.0) <==> Has(s', j, x.1) {
        assert Has(s, j, x.0) <==> Has(s, j, x.1);
        assert x.0 in p <==> x.1 in p;
      }
    }
  }

  /** A cell keeps its ancestors when it changes authority, because they change with it. */
  lemma ReachMoves(s: World, s': World, k: nat, l: nat, a: nat, u: nat)
    requires Tidy(s) && Tidy(s') && s'.pool == s.pool && s'.tab == s.tab && k < |s.marks| && l < |s'.marks|
    requires Has(s, k, u) && Has(s', l, u) && Reach(Own(s, k).G(), a, u)
    ensures Has(s, k, a) && Has(s', l, a) && Reach(Own(s', l).G(), a, u)
  {
    HomeReach(s, k, a, u);
    HomeClosed(s', l);
    ReachBackIn(Edges(s.pool, s.tab), Home(s', l), a, u);
    HomeReach(s', l, a, u);
  }

  lemma ReachableMoves(s: World, s': World, k: nat, l: nat, u: nat)
    requires Tidy(s) && Tidy(s') && s'.pool == s.pool && s'.tab == s.tab && k < |s.marks| && l < |s'.marks|
    requires Has(s, k, u) && Has(s', l, u) && Reachable(Own(s, k), u)
    ensures Reachable(Own(s', l), u)
  {
    var r: nat :| Rooted(Own(s, k), r) && Reach(Own(s, k).G(), r, u);
    ReachMoves(s, s', k, l, r, u);
    ReachableVia(Own(s', l), r, u);
  }

  lemma PendingMoves(s: World, s': World, k: nat, u: nat)
    requires Tidy(s) && Tidy(s') && s'.pool == s.pool && s'.tab == s.tab && s'.marks == s.marks && k < |s.marks|
    requires Has(s, k, u) && Has(s', k, u) && Pending(Own(s, k), u)
    ensures Pending(Own(s', k), u)
  {
    var m: nat :| Candidate(Own(s, k), m) && Reach(Own(s, k).G(), m, u);
    ReachMoves(s, s', k, k, m, u);
    assert Candidate(Own(s', k), m);
    PendingVia(Own(s', k), m, u);
  }

  lemma MovedSettled(s: World, s': World, p: set<nat>, k: nat, l: nat, j: nat)
    requires Moved(s, s', p, k, l) && j < |s.marks| && StructOk(s, j)
    ensures Tidy(s') && Settled(Own(s', j))
  {
    MovedTidy(s, s', p, k, l);
    OwnTable(s', j);
    var e, e' := Own(s, j), Own(s', j);
    forall i: nat | i < |s.tab| && (e.zeroMark[i] || e.suspectMark[i])
      ensures e'.pool[i] == e.pool[i] && e'.tab[i] == e.tab[i]
    {
      assert e.pool[i].live;
      assert Has(s, j, i);
      assert i in p ==> DetachedCell(s, k, i);
    }
  }

  lemma MovedCovered(s: World, s': World, p: set<nat>, k: nat, l: nat, j: nat, u: nat)
    requires Moved(s, s', p, k, l) && j < |s.marks| && AuthorityOk(s, j) && (u in p ==> SettledCell(s, k, u))
    ensures Tidy(s') && CoveredCell(Own(s', j), u)
  {
    MovedTidy(s, s', p, k, l);
    if Has(s', j, u) {
      if u in p {
        assert DetachedCell(s, k, u);
        assert !Own(s, j).pool[u].live;
        if Reachable(Own(s, k), u) { ReachableMoves(s, s', k, j, u); }
      } else {
        assert CoveredCell(Own(s, j), u);
        if Reachable(Own(s, j), u) {
          ReachableMoves(s, s', j, j, u);
        } else if Pending(Own(s, j), u) {
          PendingMoves(s, s', j, u);
        }
      }
    }
  }

  /** Handing a detached set over keeps the structure, at both authorities and elsewhere. */
  lemma MoveKeepsStruct(s: World, s': World, p: set<nat>, k: nat, l: nat)
    requires Struct(s) && Moved(s, s', p, k, l) && (k != 0 || p == {})
    ensures Struct(s')
  {
    MovedTidy(s, s', p, k, l);
    forall j: nat | j < |s'.marks| ensures StructOk(s', j) {
      assert StructOk(s, j);
      MovedSettled(s, s', p, k, l, j);
    }
    forall i: nat | LiveAt(s'.pool, i) ensures AuthorityOf(s'.tags[i]) < |s'.marks| {
      assert Has(s', AuthorityOf(s'.tags[i]), i);
      assert AuthorityOf(s.tags[i]) < |s.marks|;
      assert i !in p ==> Has(s, AuthorityOf(s'.tags[i]), i);
    }
    forall q, h | q in s'.queue && h in Handles(q) ensures Queued(s', h) {
      assert Queued(s, h);
      assert h.index in p ==> DetachedCell(s, k, h.index);
    }
  }

  /** Handing over a set the last sweep has settled keeps the whole invariant. */
  lemma MoveKeepsInv(s: World, s': World, p: set<nat>, k: nat, l: nat)
    requires Inv(s) && Moved(s, s', p, k, l) && (k != 0 || p == {}) && forall i :: i in p ==> SettledCell(s, k, i)
    ensures Inv(s')
  {
    MoveKeepsStruct(s, s', p, k, l);
    forall j: nat | j < |s'.marks| ensures Covered(Own(s', j)) {
      assert AuthorityOk(s, j);
      forall u: nat ensures CoveredCell(Own(s', j), u) { MovedCovered(s, s', p, k, l, j, u); }
    }
  }

  // ---- a slot is handed out -------------------------------------------------------------------

  function Given(s: World, i: nat, t: Tag): World
    requires |s.pool| == |s.tags| && i < |s.pool|
  {
    s.(pool := s.pool[i := s.pool[i].(live := true)], tags := s.tags[i := t],
       issued := s.issued + {Current(s.pool, i)})
  }

  /** The generation of a dead slot is nobody's concern. */
  lemma RenewDead(e: Engine, i: nat, g: nat)
    requires Settled(e) && i < |e.tab| && !e.Live(i)
    ensures var e' := e.(pool := e.pool[i := Slot(g, false)]);
      e'.Sized() && Settled(e') && (Covered(e) ==> Covered(e'))
  {
    var e' := e.(pool := e.pool[i := Slot(g, false)]);
    forall h ensures Valid(e'.pool, h) <==> Valid(e.pool, h) {}
    forall j | 0 <= j < |e.pool| && e'.pool[j].live ensures RowOk(e'.pool, e'.tab, j) { assert RowOk(e.pool, e.tab, j); }
    assert e'.G() == e.G();
    if Covered(e) {
      forall u: nat ensures CoveredCell(e', u) {
        assert CoveredCell(e, u);
        if e.Live(u) && Reachable(e, u) {
          var r: nat :| Rooted(e, r) && Reach(e.G(), r, u);
          ReachableVia(e', r, u);
        } else if e.Live(u) && Pending(e, u) {
          var m: nat :| Candidate(e, m) && Reach(e.G(), m, u);
          PendingVia(e', m, u);
        }
      }
    }
  }

  lemma GivenTidy(s: World, i: nat, t: Tag)
    requires Struct(s) && i < |s.tab| && !LiveAt(s.pool, i)
    ensures Tidy(Given(s, i, t))
  {
    var s' := Given(s, i, t);
    WholeSettled(s, 0);
    ActivateKeepsSettled(Whole(s, 0), i);
    forall x | x in Edges(s'.pool, s'.tab) ensures forall j: nat :: Has(s', j, x.0) <==> Has(s', j, x.1) {
      assert x in Edges(s.pool, s.tab);
      EdgeEnds(s.pool, s.tab, x.0, x.1);
      forall j: nat ensures Has(s', j, x.0) <==> Has(s', j, x.1) { assert Has(s, j, x.0) <==> Has(s, j, x.1); }
    }
  }

  lemma GivenOwn(s: World, i: nat, t: Tag, k: nat)
    requires Struct(s) && i < |s.tab| && !LiveAt(s.pool, i) && k < |s.marks|
    ensures Sized(Given(s, i, t)) && StructOk(Given(s, i, t), k)
    ensures Covered(Own(s, k)) ==> Covered(Own(Given(s, i, t), k))
  {
    var s' := Given(s, i, t);
    assert StructOk(s, k);
    var e := Own(s, k);
    if AuthorityOf(t) == k {
      RenewedActivates(e, i, s.pool[i].gen);
      assert s.tab[i] == EMPTY_ROW;
      var e1 := e.(pool := e.pool[i := Slot(s.pool[i].gen, true)]);
      assert Own(s', k).pool == e1.pool && Own(s', k).tab == e1.tab;
    } else {
      assert Own(s', k).pool == e.pool && Own(s', k).tab == e.tab;
    }
  }

  lemma RenewedActivates(e: Engine, i: nat, g: nat)
    requires Settled(e) && i < |e.tab| && !e.Live(i)
    ensures var e' := e.(pool := e.pool[i := Slot(g, true)]);
      e'.Sized() && Settled(e') && (Covered(e) ==> Covered(e'))
  {
    var e1 := e.(pool := e.pool[i := Slot(g, false)]);
    RenewDead(e, i, g);
    ActivateKeepsSettled(e1, i);
    if Covered(e) { ActivateKeepsCovered(e1, i); }
    assert Activate(e1, i).pool == e.pool[i := Slot(g, true)];
  }

  lemma GivenKeepsStruct(s: World, i: nat, t: Tag)
    requires Struct(s) && i < |s.tab| && !LiveAt(s.pool, i) && Current(s.pool, i) !in s.issued
    requires AuthorityOf(t) < |s.marks|
    ensures Struct(Given(s, i, t))
    ensures Inv(s) ==> Inv(Given(s, i, t))
  {
    var s' := Given(s, i, t);
    GivenTidy(s, i, t);
    forall k: nat | k < |s'.marks| ensures StructOk(s', k) { GivenOwn(s, i, t, k); }
    forall q, h | q in s'.queue && h in Handles(q) ensures Queued(s', h) { assert Queued(s, h); }
    if Inv(s) {
      forall k: nat | k < |s'.marks| ensures Covered(Own(s', k)) { GivenOwn(s, i, t, k); }
    }
  }

  // ---- every step of the adaptive runtime -----------------------------------------------------

  datatype Action =
    | AllocLocal(o: nat, i: nat)
    | AllocShared(o: nat, i: nat)
    | LocalOp(o: nat, m: Msg)
    | Submit(m: Msg)
    | WorkerOp(m: Msg)
    | SweepBy(k: nat)
    | Freeze(o: nat, seeds: seq<Handle>)
    | Commit(o: nat)

  ghost predicate Acts(s: World, a: Action, s': World)
    requires Sized(s)
  {
    match a
    case AllocLocal(o, i) =>
      && i < |s.tab| && !LiveAt(s.pool, i) && Current(s.pool, i) !in s.issued && LocalEngine(o) < |s.marks|
      && s' == Applied(Given(s, i, Tag(Local, o)), LocalEngine(o), RootAdd(Current(s.pool, i), 1))
    case AllocShared(o, i) =>
      && i < |s.tab| && !LiveAt(s.pool, i) && Current(s.pool, i) !in s.issued
      && s' == Queue(Given(s, i, Tag(Shared, o)), RootAdd(Current(s.pool, i), 1))
    case LocalOp(o, m) =>
      && LocalEngine(o) < |s.marks| && !Unsettles(Own(s, LocalEngine(o)), m)
      && (forall h :: h in Handles(m) ==> Valid(s.pool, h) && Mine(s, o, h.index))
      && s' == Applied(s, LocalEngine(o), m)
    case Submit(m) =>
      && (forall h :: h in Handles(m) ==> Valid(s.pool, h) && s.tags[h.index].regime == Shared)
      && s' == Queue(s, m)
    case WorkerOp(m) =>
      && m in s.queue && !Unsettles(Own(s, 0), m)
      && s' == Applied(s.(queue := s.queue - multiset{m}), 0, m)
    case SweepBy(k) => IsEngine(k) && Sweeps(s, k, s')
    case Freeze(o, seeds) => Freezes(s, o, seeds, s')
    case Commit(o) =>
      Frozen(o) < |s.marks| && s' == Retag(s, Home(s, Frozen(o)), Shared)
  }

  ghost predicate Sweeps(s: World, k: nat, s': World)
    requires Sized(s)
  {
    k < |s.marks| && exists e :: SweptBy(s, k, e) && s' == Became(s, k, e)
  }

  ghost predicate Freezes(s: World, o: nat, seeds: seq<Handle>, s': World)
    requires Sized(s)
  {
    && LocalEngine(o) < |s.marks| && Frozen(o) < |s.marks|
    && exists e :: SweptBy(s, LocalEngine(o), e) && s' == FrozenAfter(Became(s, LocalEngine(o), e), o, seeds)
  }

  /** A sweep of an authority's engine: what it frees moves to its next generation. */
  ghost predicate SweptBy(s: World, k: nat, e: Engine)
    requires Sized(s) && k < |s.marks|
  {
    Swept(Whole(s, k), e) && TurnedOver(s.pool, e.pool)
  }

  /** The mutator keeps its side of the bargain in this step. */
  ghost predicate DisciplinedAct(s: World, a: Action)
    requires Sized(s)
  {
    match a
    case LocalOp(o, m) => LocalEngine(o) < |s.marks| ==> Disciplined(Own(s, LocalEngine(o)), m)
    case WorkerOp(m) => Disciplined(Own(s, 0), m)
    case _ => true
  }

  function Applied(s: World, k: nat, m: Msg): World
    requires k < |s.marks| && Whole(s, k).Sized()
  {
    Became(s, k, Process(Whole(s, k), m))
  }

  function Queue(s: World, m: Msg): World { s.(queue := s.queue + multiset{m}) }

  ghost function ComponentOf(s: World, o: nat, seeds: seq<Handle>): set<nat> {
    set v: nat | v < |s.tab| && Linked(s, o, seeds, v)
  }

  /** The owner has swept; it freezes the component of the seeds. */
  ghost function FrozenAfter(s: World, o: nat, seeds: seq<Handle>): World {
    Retag(s, ComponentOf(s, o, seeds), Promoting)
  }

  lemma ComponentIsMine(s: World, o: nat, seeds: seq<Handle>, v: nat)
    requires Sized(s) && Linked(s, o, seeds, v)
    ensures Mine(s, o, v)
  {
    var g := Links(s, o);
    var r :| r in Seeds(s, o, seeds) && Reach(g, r, v);
    if r != v { var w := ReachLastEdge(g, r, v); }
  }

  /** The component is closed under records in both directions, inside its owner's cells. */
  lemma ComponentClosed(s: World, o: nat, seeds: seq<Handle>)
    requires Tidy(s) && LocalEngine(o) < |s.marks|
    ensures var p := ComponentOf(s, o, seeds);
      && Closed(Edges(s.pool, s.tab), p) && BackClosed(Edges(s.pool, s.tab), p)
      && forall v :: v in p ==> Mine(s, o, v)
  {
    var p, g := ComponentOf(s, o, seeds), Links(s, o);
    forall v | v in p ensures Mine(s, o, v) { ComponentIsMine(s, o, seeds, v); }
    forall x | x in Edges(s.pool, s.tab) ensures x.0 in p <==> x.1 in p {
      EdgeEnds(s.pool, s.tab, x.0, x.1);
      assert Has(s, LocalEngine(o), x.0) <==> Has(s, LocalEngine(o), x.1);
      if x.0 in p {
        assert x in g;
        LinkedOn(g, Seeds(s, o, seeds), x.0, x.1);
      }
      if x.1 in p {
        assert x == (x.0, x.1) && (x.1, x.0) in g;
        LinkedOn(g, Seeds(s, o, seeds), x.1, x.0);
      }
    }
  }

  lemma LinkedOn(g: Graph, roots: set<nat>, i: nat, j: nat)
    requires ReachedFrom(g, roots, i) && (i, j) in g
    ensures ReachedFrom(g, roots, j)
  {
    var r :| r in roots && Reach(g, r, i);
    ReachEdge(g, i, j);
    ReachTrans(g, r, i, j);
  }

  /** After the owner's sweep, the component of the seeds may leave. */
  lemma FreezeMoves(s: World, o: nat, seeds: seq<Handle>, e: Engine)
    requires Struct(s) && LocalEngine(o) < |s.marks| && Frozen(o) < |s.marks| && Swept(Whole(s, LocalEngine(o)), e)
    ensures var s1 := Became(s, LocalEngine(o), e);
      Struct(s1) && Moved(s1, FrozenAfter(s1, o, seeds), ComponentOf(s1, o, seeds), LocalEngine(o), Frozen(o))
  {
    var k := LocalEngine(o);
    var s1 := Became(s, k, e);
    CollectKeepsStruct(s, k, e);
    var p := ComponentOf(s1, o, seeds);
    ComponentClosed(s1, o, seeds);
    forall i | i in p ensures DetachedCell(s1, k, i) { assert Mine(s1, o, i); }
    RetagMoves(s1, p, Promoting, k, Frozen(o));
  }

  lemma FreezeKeepsInv(s: World, o: nat, seeds: seq<Handle>, e: Engine)
    requires Inv(s) && LocalEngine(o) < |s.marks| && Frozen(o) < |s.marks| && Swept(Whole(s, LocalEngine(o)), e)
    ensures Inv(FrozenAfter(Became(s, LocalEngine(o), e), o, seeds))
  {
    var k := LocalEngine(o);
    var s1 := Became(s, k, e);
    FreezeMoves(s, o, seeds, e);
    CollectKeepsInv(s, k, e);
    OwnExact(s, k, e);
    ExactMoves(s1, FrozenAfter(s1, o, seeds), ComponentOf(s1, o, seeds), k, Frozen(o));
  }

  /** What an exact part gives away was settled. */
  lemma ExactMoves(s: World, s': World, p: set<nat>, k: nat, l: nat)
    requires Inv(s) && Moved(s, s', p, k, l) && (k != 0 || p == {}) && Exact(Own(s, k))
    ensures Inv(s')
  {
    DetachedSettled(s, k, p);
    MoveKeepsInv(s, s', p, k, l);
  }

  /** A sweep by one authority is exact on its own part. */
  lemma OwnExact(s: World, k: nat, e: Engine)
    requires Inv(s) && k < |s.marks| && Swept(Whole(s, k), e)
    ensures Sized(Became(s, k, e)) && Exact(Own(Became(s, k, e), k))
  {
    OwnSwept(s, k, e);
    assert AuthorityOk(s, k);
    SweepExactIff(Own(s, k), Own(Became(s, k, e), k));
  }

  lemma DetachedSettled(s: World, k: nat, p: set<nat>)
    requires Sized(s) && k < |s.marks| && Exact(Own(s, k)) && Detached(s, k, p)
    ensures forall i :: i in p ==> SettledCell(s, k, i)
  {
    forall i | i in p ensures SettledCell(s, k, i) {
      assert DetachedCell(s, k, i);
      assert ExactCell(Own(s, k), i);
    }
  }

  lemma CommitMoves(s: World, o: nat)
    requires Struct(s) && Frozen(o) < |s.marks|
    ensures Moved(s, Retag(s, Home(s, Frozen(o)), Shared), Home(s, Frozen(o)), Frozen(o), 0)
  {
    var k, p := Frozen(o), Home(s, Frozen(o));
    HomeClosed(s, k);
    assert StructOk(s, k);
    forall i | i in p ensures DetachedCell(s, k, i) {}
    RetagMoves(s, p, Shared, k, 0);
  }

  lemma CommitKeepsInv(s: World, o: nat)
    requires Inv(s) && Frozen(o) < |s.marks|
    ensures Inv(Retag(s, Home(s, Frozen(o)), Shared))
  {
    var k, p := Frozen(o), Home(s, Frozen(o));
    CommitMoves(s, o);
    assert AuthorityOk(s, k);
    forall i | i in p ensures SettledCell(s, k, i) { assert CoveredCell(Own(s, k), i); }
    MoveKeepsInv(s, Retag(s, p, Shared), p, k, 0);
  }

  lemma AllocLocalKeeps(s: World, o: nat, i: nat, s': World)
    requires Struct(s) && Acts(s, AllocLocal(o, i), s')
    ensures Struct(s') && (Inv(s) ==> Inv(s'))
  {
    var s1 := Given(s, i, Tag(Local, o));
    GivenKeepsStruct(s, i, Tag(Local, o));
    assert Has(s1, LocalEngine(o), i);
    ApplyKeepsStruct(s1, LocalEngine(o), RootAdd(Current(s.pool, i), 1));
    if Inv(s) { ApplyKeepsInv(s1, LocalEngine(o), RootAdd(Current(s.pool, i), 1)); }
  }

  lemma AllocSharedKeeps(s: World, o: nat, i: nat, s': World)
    requires Struct(s) && Acts(s, AllocShared(o, i), s')
    ensures Struct(s') && (Inv(s) ==> Inv(s'))
  {
    GivenKeepsStruct(s, i, Tag(Shared, o));
    QueueKeeps(Given(s, i, Tag(Shared, o)), RootAdd(Current(s.pool, i), 1));
  }

  lemma LocalOpKeeps(s: World, o: nat, m: Msg, s': World)
    requires Struct(s) && Acts(s, LocalOp(o, m), s')
    ensures Struct(s') && (Inv(s) && DisciplinedAct(s, LocalOp(o, m)) ==> Inv(s'))
  {
    LocalOpAllowed(s, o, m, s');
    ApplyKeepsStruct(s, LocalEngine(o), m);
    if Inv(s) && Disciplined(Own(s, LocalEngine(o)), m) { ApplyKeepsInv(s, LocalEngine(o), m); }
  }

  lemma LocalOpAllowed(s: World, o: nat, m: Msg, s': World)
    requires Struct(s) && Acts(s, LocalOp(o, m), s')
    ensures LocalEngine(o) < |s.marks| && IsEngine(LocalEngine(o)) && Touchable(s, LocalEngine(o), m)
    ensures !Unsettles(Own(s, LocalEngine(o)), m) && s' == Became(s, LocalEngine(o), Process(Whole(s, LocalEngine(o)), m))
  {
  }

  lemma WorkerOpKeeps(s: World, m: Msg, s': World)
    requires Struct(s) && Acts(s, WorkerOp(m), s')
    ensures Struct(s') && (Inv(s) && DisciplinedAct(s, WorkerOp(m)) ==> Inv(s'))
  {
    UnqueueKeeps(s, m);
    var s1 := s.(queue := s.queue - multiset{m});
    assert forall i: nat :: CanTouch(s1, 0, i) == CanTouch(s, 0, i);
    ApplyKeepsStruct(s1, 0, m);
    if Inv(s) && DisciplinedAct(s, WorkerOp(m)) { ApplyKeepsInv(s1, 0, m); }
  }

  lemma SweepByKeeps(s: World, k: nat, s': World)
    requires Struct(s) && Acts(s, SweepBy(k), s')
    ensures Struct(s') && (Inv(s) ==> Inv(s'))
  {
    var e :| SweptBy(s, k, e) && s' == Became(s, k, e);
    CollectKeepsStruct(s, k, e);
    if Inv(s) { CollectKeepsInv(s, k, e); }
  }

  lemma FreezeKeeps(s: World, o: nat, seeds: seq<Handle>, s': World)
    requires Struct(s) && Acts(s, Freeze(o, seeds), s')
    ensures Struct(s') && (Inv(s) ==> Inv(s'))
  {
    var e :| SweptBy(s, LocalEngine(o), e) && s' == FrozenAfter(Became(s, LocalEngine(o), e), o, seeds);
    FreezeMoves(s, o, seeds, e);
    var s1 := Became(s, LocalEngine(o), e);
    MoveKeepsStruct(s1, s', ComponentOf(s1, o, seeds), LocalEngine(o), Frozen(o));
    if Inv(s) { FreezeKeepsInv(s, o, seeds, e); }
  }

  lemma CommitKeeps(s: World, o: nat, s': World)
    requires Struct(s) && Acts(s, Commit(o), s')
    ensures Struct(s') && (Inv(s) ==> Inv(s'))
  {
    CommitMoves(s, o);
    MoveKeepsStruct(s, s', Home(s, Frozen(o)), Frozen(o), 0);
    if Inv(s) { CommitKeepsInv(s, o); }
  }

  /** Every step, disciplined or not, keeps the structure: no edge crosses, every count is exact,
      every authority's candidates are its own, queued messages name SHARED cells.  A disciplined
      step keeps the whole invariant: every authority's candidates cover its garbage as well. */
  lemma ActKeeps(s: World, a: Action, s': World)
    requires Struct(s) && Acts(s, a, s')
    ensures Struct(s') && (Inv(s) && DisciplinedAct(s, a) ==> Inv(s'))
  {
    match a
    case AllocLocal(o, i) => AllocLocalKeeps(s, o, i, s');
    case AllocShared(o, i) => AllocSharedKeeps(s, o, i, s');
    case LocalOp(o, m) => LocalOpKeeps(s, o, m, s');
    case Submit(m) => QueueKeeps(s, m);
    case WorkerOp(m) => WorkerOpKeeps(s, m, s');
    case SweepBy(k) => SweepByKeeps(s, k, s');
    case Freeze(o, seeds) => FreezeKeeps(s, o, seeds, s');
    case Commit(o) => CommitKeeps(s, o, s');
  }

  lemma SameOwn(s: World, s': World)
    requires Struct(s) && s' == s.(queue := s'.queue) && QueueOk(s')
    ensures Struct(s') && (Inv(s) ==> Inv(s'))
  {
    assert forall k: nat, i: nat :: Has(s', k, i) == Has(s, k, i);
    forall k: nat | k < |s'.marks| ensures Own(s', k) == Own(s, k) {
      assert Own(s', k).pool == Own(s, k).pool && Own(s', k).tab == Own(s, k).tab;
    }
    forall k: nat | k < |s'.marks| ensures StructOk(s', k) { assert StructOk(s, k); }
  }

  lemma QueueKeeps(s: World, m: Msg)
    requires Struct(s) && forall h :: h in Handles(m) ==> Valid(s.pool, h) && s.tags[h.index].regime == Shared
    ensures Struct(Queue(s, m)) && (Inv(s) ==> Inv(Queue(s, m)))
  {
    var s' := Queue(s, m);
    forall q, h | q in s'.queue && h in Handles(q) ensures Queued(s', h) {
      if q != m { assert q in s.queue && Queued(s, h); }
      else { assert h == Current(s.pool, h.index); }
    }
    SameOwn(s, s');
  }

  lemma UnqueueKeeps(s: World, m: Msg)
    requires Struct(s) && m in s.queue
    ensures Struct(s.(queue := s.queue - multiset{m})) && (Inv(s) ==> Inv(s.(queue := s.queue - multiset{m})))
    ensures Touchable(s, 0, m)
    ensures Own(s.(queue := s.queue - multiset{m}), 0) == Own(s, 0)
  {
    var s' := s.(queue := s.queue - multiset{m});
    forall q, h | q in s'.queue && h in Handles(q) ensures Queued(s', h) { assert q in s.queue && Queued(s, h); }
    SameOwn(s, s');
    forall h | h in Handles(m) && Valid(s.pool, h) ensures CanTouch(s, 0, h.index) { assert Queued(s, h); }
    assert Own(s', 0).pool == Own(s, 0).pool && Own(s', 0).tab == Own(s, 0).tab;
  }

  // ---- what every run keeps -------------------------------------------------------------------

  /** The engine that writes rows in a step, if any. */
  predicate Writes(a: Action, k: nat) {
    match a
    case AllocLocal(o, _) => k == LocalEngine(o)
    case LocalOp(o, _) => k == LocalEngine(o)
    case WorkerOp(_) => k == 0
    case SweepBy(k') => k == k'
    case Freeze(o, _) => k == LocalEngine(o)
    case AllocShared(_, _) => false
    case Submit(_) => false
    case Commit(_) => false
  }

  /** A step changes the row or the slot of a live cell only if its engine passes the gate for it. */
  lemma ActWritesHome(s: World, a: Action, s': World, i: nat)
    requires Struct(s) && Acts(s, a, s') && LiveAt(s.pool, i)
    requires forall k: nat :: Writes(a, k) ==> !CanTouch(s, k, i)
    ensures i < |s'.tab| && i < |s'.pool| && s'.tab[i] == s.tab[i] && s'.pool[i] == s.pool[i]
  {
    if a.LocalOp? || a.WorkerOp? {
      OpWritesHome(s, a, s', i);
    } else if a.SweepBy? {
      assert Writes(a, a.k);
      SweepAllowed(s, a, s');
      SweepWritesOwn(s, a, s', i);
    } else if a.Freeze? {
      assert Writes(a, LocalEngine(a.o));
      SweepAllowed(s, a, s');
      SweepWritesOwn(s, a, s', i);
    } else {
      GivingWritesHome(s, a, s', i);
    }
  }

  lemma GivingWritesHome(s: World, a: Action, s': World, i: nat)
    requires Struct(s) && Acts(s, a, s') && LiveAt(s.pool, i) && (a.AllocLocal? || a.AllocShared? || a.Submit? || a.Commit?)
    ensures i < |s'.tab| && i < |s'.pool| && s'.tab[i] == s.tab[i] && s'.pool[i] == s.pool[i]
  {
    if a.AllocLocal? { AllocWritesHome(s, a.o, a.i); }
  }

  lemma SweepAllowed(s: World, a: Action, s': World)
    requires Sized(s) && Acts(s, a, s')
    ensures a.SweepBy? ==> IsEngine(a.k) && Sweeps(s, a.k, s')
    ensures a.Freeze? ==> Freezes(s, a.o, a.seeds, s') && IsEngine(LocalEngine(a.o))
  {
  }

  lemma SweepWritesOwn(s: World, a: Action, s': World, i: nat)
    requires Struct(s) && LiveAt(s.pool, i) && (a.SweepBy? || a.Freeze?)
    requires a.SweepBy? ==> Sweeps(s, a.k, s') && !Has(s, a.k, i)
    requires a.Freeze? ==> Freezes(s, a.o, a.seeds, s') && !Has(s, LocalEngine(a.o), i)
    ensures i < |s'.tab| && i < |s'.pool| && s'.tab[i] == s.tab[i] && s'.pool[i] == s.pool[i]
  {
    if a.SweepBy? { CollectWritesHome(s, a.k, s', i); } else { FreezeWritesHome(s, a.o, a.seeds, s', i); }
  }

  lemma OpWritesHome(s: World, a: Action, s': World, i: nat)
    requires Struct(s) && Acts(s, a, s') && LiveAt(s.pool, i) && (a.LocalOp? || a.WorkerOp?)
    requires forall k: nat :: Writes(a, k) ==> !CanTouch(s, k, i)
    ensures i < |s'.tab| && i < |s'.pool| && s'.tab[i] == s.tab[i] && s'.pool[i] == s.pool[i]
  {
    if a.LocalOp? {
      assert Writes(a, LocalEngine(a.o));
      LocalOpWritesHome(s, a.o, a.m, s', i);
    } else {
      assert Writes(a, 0);
      WorkerOpWritesHome(s, a.m, s', i);
    }
  }

  lemma LocalOpWritesHome(s: World, o: nat, m: Msg, s': World, i: nat)
    requires Struct(s) && Acts(s, LocalOp(o, m), s') && LiveAt(s.pool, i) && !Has(s, LocalEngine(o), i)
    ensures i < |s'.tab| && i < |s'.pool| && s'.tab[i] == s.tab[i] && s'.pool[i] == s.pool[i]
  {
    LocalWritesHome(s, o, m);
  }

  lemma WorkerOpWritesHome(s: World, m: Msg, s': World, i: nat)
    requires Struct(s) && Acts(s, WorkerOp(m), s') && LiveAt(s.pool, i) && !Has(s, 0, i)
    ensures i < |s'.tab| && i < |s'.pool| && s'.tab[i] == s.tab[i] && s'.pool[i] == s.pool[i]
  {
    WorkerWritesHome(s, m);
  }

  lemma LocalWritesHome(s: World, o: nat, m: Msg)
    requires Sized(s) && TableOk(s.pool, s.tab) && LocalEngine(o) < |s.marks|
    requires forall h :: h in Handles(m) ==> Valid(s.pool, h) && Mine(s, o, h.index)
    ensures var s' := Applied(s, LocalEngine(o), m);
      && s'.pool == s.pool && |s'.tab| == |s.tab|
      && forall i: nat :: i < |s.tab| && !Has(s, LocalEngine(o), i) ==> s'.tab[i] == s.tab[i]
  {
    ProcessWritesHome(s, LocalEngine(o), m);
  }

  lemma CollectWritesHome(s: World, k: nat, s': World, i: nat)
    requires Struct(s) && Sweeps(s, k, s') && LiveAt(s.pool, i) && !Has(s, k, i)
    ensures i < |s'.tab| && i < |s'.pool| && s'.tab[i] == s.tab[i] && s'.pool[i] == s.pool[i]
  {
    var e :| SweptBy(s, k, e) && s' == Became(s, k, e);
    SweepWritesHome(s, k, e, i);
  }

  lemma FreezeWritesHome(s: World, o: nat, seeds: seq<Handle>, s': World, i: nat)
    requires Struct(s) && Freezes(s, o, seeds, s') && LiveAt(s.pool, i) && !Has(s, LocalEngine(o), i)
    ensures i < |s'.tab| && i < |s'.pool| && s'.tab[i] == s.tab[i] && s'.pool[i] == s.pool[i]
  {
    var k := LocalEngine(o);
    var e :| SweptBy(s, k, e) && s' == FrozenAfter(Became(s, k, e), o, seeds);
    SweepWritesHome(s, k, e, i);
    assert s'.pool == e.pool && s'.tab == e.tab;
  }

  lemma AllocWritesHome(s: World, o: nat, j: nat)
    requires Struct(s) && j < |s.tab| && !LiveAt(s.pool, j) && Current(s.pool, j) !in s.issued
    requires LocalEngine(o) < |s.marks|
    ensures var s' := Applied(Given(s, j, Tag(Local, o)), LocalEngine(o), RootAdd(Current(s.pool, j), 1));
      && |s'.pool| == |s.pool| && |s'.tab| == |s.tab|
      && forall i: nat :: LiveAt(s.pool, i) ==> s'.pool[i] == s.pool[i] && s'.tab[i] == s.tab[i]
  {
  }

  lemma WorkerWritesHome(s: World, m: Msg)
    requires Struct(s) && m in s.queue
    ensures var s' := Applied(s.(queue := s.queue - multiset{m}), 0, m);
      && s'.pool == s.pool && |s'.tab| == |s.tab|
      && forall i: nat :: i < |s.tab| && !Has(s, 0, i) ==> s'.tab[i] == s.tab[i]
  {
    UnqueueKeeps(s, m);
    ProcessWritesHome(s, 0, m);
  }

  /** Tags of live cells only move from LOCAL to PROMOTING to SHARED, and never change owner. */
  function Rank(r: Regime): nat {
    match r case Local => 0 case Promoting => 1 case Shared => 2
  }

  lemma TagsOnlyRise(s: World, a: Action, s': World, h: Handle)
    requires Struct(s) && Acts(s, a, s') && Valid(s.pool, h) && Valid(s'.pool, h) && h.index < |s'.tags|
    ensures s'.tags[h.index].owner == s.tags[h.index].owner
    ensures Rank(s.tags[h.index].regime) <= Rank(s'.tags[h.index].regime)
    ensures s.tags[h.index].regime == Shared ==> s'.tags[h.index].regime == Shared
  {
    match a
    case AllocLocal(o, j) =>
    case AllocShared(o, j) =>
    case LocalOp(o, m) =>
    case Submit(m) =>
    case WorkerOp(m) =>
    case SweepBy(k) =>
    case Freeze(o, seeds) => FrozenTags(s, o, seeds, s', h.index);
    case Commit(o) =>
  }

  lemma FrozenTags(s: World, o: nat, seeds: seq<Handle>, s': World, i: nat)
    requires Struct(s) && Acts(s, Freeze(o, seeds), s') && i < |s.tags|
    ensures |s'.tags| == |s.tags| && s'.tags[i].owner == s.tags[i].owner
    ensures s'.tags[i] != s.tags[i] ==> s.tags[i].regime == Local && s'.tags[i].regime == Promoting
  {
    var e :| SweptBy(s, LocalEngine(o), e) && s' == FrozenAfter(Became(s, LocalEngine(o), e), o, seeds);
    FrozenWasMine(s, Became(s, LocalEngine(o), e), o, seeds, i);
  }

  lemma FrozenWasMine(s: World, s1: World, o: nat, seeds: seq<Handle>, i: nat)
    requires s1.tags == s.tags && |s1.tab| == |s1.tags| && i < |s.tags|
    ensures i in ComponentOf(s1, o, seeds) ==> s.tags[i].regime == Local
  {
    if i in ComponentOf(s1, o, seeds) {
      var g := Links(s1, o);
      var r :| r in Seeds(s1, o, seeds) && Reach(g, r, i);
      if r != i { var w := ReachLastEdge(g, r, i); }
    }
  }

  ghost predicate Start(s: World) {
    && Sized(s) && s.queue == multiset{} && s.issued == {}
    && (forall i :: 0 <= i < |s.pool| ==> !s.pool[i].live && s.tab[i] == EMPTY_ROW)
    && (forall k :: 0 <= k < |s.marks| ==> Unmarked(s.marks[k]))
  }

  ghost predicate Actions(ss: seq<World>, acts: seq<Action>) {
    && |ss| == |acts| + 1 && Start(ss[0])
    && forall n: nat :: n < |acts| ==> ActAt(ss, acts, n)
  }

  ghost predicate ActAt(ss: seq<World>, acts: seq<Action>, n: nat)
    requires n < |acts| && n + 1 < |ss|
  {
    Sized(ss[n]) && Acts(ss[n], acts[n], ss[n + 1])
  }

  lemma StartInv(s: World)
    requires Start(s)
    ensures Inv(s)
  {
    forall k: nat | k < |s.marks| ensures AuthorityOk(s, k) {
      forall u: nat ensures CoveredCell(Own(s, k), u) {}
    }
    forall k: nat | k < |s.marks| ensures StructOk(s, k) && Covered(Own(s, k)) { assert AuthorityOk(s, k); }
  }

  /** Every reachable state of every interleaving of owners, worker and hand-overs, whatever the
      mutators ask for, is in order. */
  lemma {:induction false} AlwaysStruct(ss: seq<World>, acts: seq<Action>, n: nat)
    requires Actions(ss, acts) && n < |ss|
    ensures Struct(ss[n])
  {
    if n == 0 {
      StartInv(ss[0]);
    } else {
      AlwaysStruct(ss, acts, n - 1);
      assert ActAt(ss, acts, n - 1);
      ActKeeps(ss[n - 1], acts[n - 1], ss[n]);
    }
  }

  /** The first `n` steps are disciplined. */
  ghost predicate DisciplinedUpTo(ss: seq<World>, acts: seq<Action>, n: nat)
    requires n <= |acts| && |ss| == |acts| + 1
  {
    forall k: nat :: k < n ==> Sized(ss[k]) && DisciplinedAct(ss[k], acts[k])
  }

  /** After disciplined steps, the candidates of every authority cover its garbage. */
  lemma {:induction false} AlwaysInv(ss: seq<World>, acts: seq<Action>, n: nat)
    requires Actions(ss, acts) && n < |ss| && DisciplinedUpTo(ss, acts, n)
    ensures Inv(ss[n])
  {
    if n == 0 {
      StartInv(ss[0]);
    } else {
      AlwaysInv(ss, acts, n - 1);
      assert ActAt(ss, acts, n - 1);
      ActKeeps(ss[n - 1], acts[n - 1], ss[n]);
    }
  }

  // ---- no handle is handed out twice ----------------------------------------------------------

  /** Every handle given out is of its slot's present or an earlier generation, and of the present one
      only while the slot is live or if that generation is the last. */
  ghost predicate Aged(s: World) {
    forall h :: h in s.issued ==> AgedHandle(s.pool, h)
  }

  ghost predicate AgedHandle(pool: seq<Slot>, h: Handle) {
    && h.index < |pool| && h.gen <= pool[h.index].gen
    && (h.gen == pool[h.index].gen ==> pool[h.index].live || h.gen == MAX_GEN)
  }

  lemma TurnedAged(s: World, s': World)
    requires Aged(s) && s'.issued == s.issued && TurnedOver(s.pool, s'.pool)
    ensures Aged(s')
  {
    forall h | h in s'.issued ensures AgedHandle(s'.pool, h) {
      assert AgedHandle(s.pool, h) && TurnedSlot(s.pool[h.index], s'.pool[h.index]);
    }
  }

  lemma GivenAged(s: World, i: nat, t: Tag)
    requires Aged(s) && |s.pool| == |s.tags| && i < |s.pool|
    ensures Aged(Given(s, i, t))
  {
    var s' := Given(s, i, t);
    forall h | h in s'.issued ensures AgedHandle(s'.pool, h) { assert h in s.issued ==> AgedHandle(s.pool, h); }
  }

  lemma ProcessKeepsPool(e: Engine, m: Msg)
    requires e.Sized()
    ensures Process(e, m).pool == e.pool
  {
  }

  lemma SamePoolAged(s: World, s': World)
    requires Aged(s) && s'.issued == s.issued && s'.pool == s.pool
    ensures Aged(s')
  {
  }

  lemma ActKeepsAged(s: World, a: Action, s': World)
    requires Struct(s) && Acts(s, a, s') && Aged(s)
    ensures Aged(s')
  {
    match a
    case AllocLocal(o, i) =>
      GivenAged(s, i, Tag(Local, o));
      ProcessKeepsPool(Whole(Given(s, i, Tag(Local, o)), LocalEngine(o)), RootAdd(Current(s.pool, i), 1));
    case AllocShared(o, i) => GivenAged(s, i, Tag(Shared, o));
    case LocalOp(o, m) => ProcessKeepsPool(Whole(s, LocalEngine(o)), m);
    case Submit(m) => SamePoolAged(s, s');
    case WorkerOp(m) => ProcessKeepsPool(Whole(s.(queue := s.queue - multiset{m}), 0), m);
    case SweepBy(k) => TurnedAged(s, s');
    case Freeze(o, seeds) => TurnedAged(s, s');
    case Commit(o) => SamePoolAged(s, s');
  }

  lemma {:induction false} AlwaysAged(ss: seq<World>, acts: seq<Action>, n: nat)
    requires Actions(ss, acts) && n < |ss|
    ensures Aged(ss[n])
  {
    if n > 0 {
      AlwaysAged(ss, acts, n - 1);
      AlwaysStruct(ss, acts, n - 1);
      assert ActAt(ss, acts, n - 1);
      ActKeepsAged(ss[n - 1], acts[n - 1], ss[n]);
    }
  }

  /** So the slots that may not be handed out again are the ones freed at their last generation. */
  lemma OnlyRetiredAreRefused(ss: seq<World>, acts: seq<Action>, n: nat, i: nat)
    requires Actions(ss, acts) && n < |ss| && i < |ss[n].pool| && !ss[n].pool[i].live
    ensures Current(ss[n].pool, i) in ss[n].issued ==> ss[n].pool[i].gen == MAX_GEN
  {
    AlwaysAged(ss, acts, n);
    assert Current(ss[n].pool, i) in ss[n].issued ==> AgedHandle(ss[n].pool, Current(ss[n].pool, i));
  }

  /** The whole-pool check of checked builds: equal regimes along every edge, nothing frozen. */
  ghost predicate RegimeInvariantOk(s: World)
    requires Sized(s)
  {
    && (forall i: nat :: LiveAt(s.pool, i) ==> !s.tags[i].regime.Promoting?)
    && (forall x :: x in Edges(s.pool, s.tab) && x.0 < |s.tags| && x.1 < |s.tags| ==>
          s.tags[x.0].regime == s.tags[x.1].regime)
  }

  /** It passes in every reachable state exactly when no hand-over is between freeze and commit, and
      then LOCAL edges join cells of one owner, which it does not look at. */
  lemma RegimeCheckIff(ss: seq<World>, acts: seq<Action>, n: nat)
    requires Actions(ss, acts) && n < |ss|
    ensures Sized(ss[n])
    ensures RegimeInvariantOk(ss[n]) <==> forall o: nat :: Home(ss[n], Frozen(o)) == {}
    ensures forall x | x in Edges(ss[n].pool, ss[n].tab) ::
              x.0 < |ss[n].tags| && x.1 < |ss[n].tags| && AuthorityOf(ss[n].tags[x.0]) == AuthorityOf(ss[n].tags[x.1])
  {
    AlwaysStruct(ss, acts, n);
    var s := ss[n];
    forall x | x in Edges(s.pool, s.tab)
      ensures x.0 < |s.tags| && x.1 < |s.tags| && AuthorityOf(s.tags[x.0]) == AuthorityOf(s.tags[x.1])
    {
      EdgeEnds(s.pool, s.tab, x.0, x.1);
      assert Has(s, AuthorityOf(s.tags[x.0]), x.0);
    }
    if RegimeInvariantOk(s) {
      forall o: nat ensures Home(s, Frozen(o)) == {} {
        forall i | i in Home(s, Frozen(o)) ensures s.tags[i].regime.Promoting? {}
      }
    }
    if forall o: nat :: Home(s, Frozen(o)) == {} {
      forall i: nat | LiveAt(s.pool, i) ensures !s.tags[i].regime.Promoting? {
        assert i !in Home(s, Frozen(s.tags[i].owner));
      }
    }
  }

  /** When an authority has swept, its live cells are those a root reaches in the whole table, plus
      those whose first message is still on its way; cells of the others are as before. */
  lemma SweepIsExactForItsCells(ss: seq<World>, acts: seq<Action>, n: nat, u: nat)
    requires Actions(ss, acts) && n < |acts| && acts[n].SweepBy? && LiveAt(ss[n].pool, u) && DisciplinedUpTo(ss, acts, n)
    ensures var s, s', k := ss[n], ss[n + 1], acts[n].k;
      && Sized(s) && k < |s.marks|
      && (LiveAt(s'.pool, u) <==> !Has(s, k, u) || Reachable(Whole(s, k), u) || Unborn(Own(s, k), u))
  {
    AlwaysInv(ss, acts, n);
    assert ActAt(ss, acts, n);
    SweepByIsExact(ss[n], acts[n].k, ss[n + 1], u);
  }

  lemma SweepByIsExact(s: World, k: nat, s': World, u: nat)
    requires Inv(s) && Acts(s, SweepBy(k), s') && LiveAt(s.pool, u)
    ensures LiveAt(s'.pool, u) <==> !Has(s, k, u) || Reachable(Whole(s, k), u) || Unborn(Own(s, k), u)
  {
    var e :| SweptBy(s, k, e) && s' == Became(s, k, e);
    assert AuthorityOk(s, k);
    if Has(s, k, u) { OwnSweepIsExact(s, k, e, u); } else { SweepWritesHome(s, k, e, u); }
  }

  lemma OwnSweepIsExact(s: World, k: nat, e: Engine, u: nat)
    requires Inv(s) && k < |s.marks| && AuthorityOk(s, k) && Swept(Whole(s, k), e) && Has(s, k, u)
    ensures LiveAt(Became(s, k, e).pool, u) <==> Reachable(Whole(s, k), u) || Unborn(Own(s, k), u)
  {
    var s' := Became(s, k, e);
    OwnSwept(s, k, e);
    SweepKeepsNoCrossing(s, k, e);
    SweptExactly(Own(s, k), Own(s', k), u);
    OwnReachable(s, k, u);
    assert LiveAt(s'.pool, u) <==> Has(s', k, u);
  }

  lemma OwnReachable(s: World, k: nat, u: nat)
    requires Struct(s) && k < |s.marks| && Has(s, k, u)
    ensures Reachable(Own(s, k), u) <==> Reachable(Whole(s, k), u)
  {
    var w, r := Whole(s, k), Own(s, k);
    if Reachable(r, u) {
      var a: nat :| Rooted(r, a) && Reach(r.G(), a, u);
      HomeReach(s, k, a, u);
      ReachableVia(w, a, u);
    }
    if Reachable(w, u) {
      var a: nat :| Rooted(w, a) && Reach(w.G(), a, u);
      HomeClosed(s, k);
      ReachBackIn(w.G(), Home(s, k), a, u);
      HomeReach(s, k, a, u);
      ReachableVia(r, a, u);
    }
  }

  // ---- deciding where an edge operation goes --------------------------------------------------

  datatype Side = MyLocal | SharedWorker | Foreign

  function Classify(t: Tag, me: nat): Side {
    if t.regime == Shared then SharedWorker
    else if t.regime == Local && t.owner == me then MyLocal
    else Foreign
  }

  /** Both ends at one authority this mutator can reach: the operation may go ahead. */
  predicate Ready(src: Tag, dst: Tag, me: nat) {
    Classify(src, me) == Classify(dst, me) && Classify(src, me) != Foreign
  }

  /** Is it the source (rather than the target) that is promoted next? */
  function PicksSource(src: Tag, dst: Tag, me: nat): bool {
    var sa, da := Classify(src, me), Classify(dst, me);
    if da == SharedWorker then true
    else if sa == SharedWorker then false
    else if sa == MyLocal && da == Foreign then false
    else if da == MyLocal then false
    else true
  }

  /** A tag only moves toward SHARED while its cell lives. */
  predicate Rises(t: Tag, t': Tag) {
    t'.owner == t.owner && Rank(t.regime) <= Rank(t'.regime)
  }

  /** The picked end has become SHARED; the other may have moved on as well. */
  predicate PromotedOnce(src: Tag, dst: Tag, me: nat, src': Tag, dst': Tag) {
    && Rises(src, src') && Rises(dst, dst')
    && (if PicksSource(src, dst, me) then src'.regime == Shared else dst'.regime == Shared)
  }

  /** Whatever the two ends are, two promotions settle the operation, well inside the retry bound,
      and no promotion is ever asked for a cell that is SHARED already. */
  lemma TwoPromotionsSettle(src: Tag, dst: Tag, src1: Tag, dst1: Tag, src2: Tag, dst2: Tag, me: nat)
    requires !Ready(src, dst, me) && PromotedOnce(src, dst, me, src1, dst1)
    requires !Ready(src1, dst1, me) ==> PromotedOnce(src1, dst1, me, src2, dst2)
    ensures (if PicksSource(src, dst, me) then src else dst).regime != Shared
    ensures Ready(src1, dst1, me) || Ready(src2, dst2, me)
    ensures !Ready(src1, dst1, me) ==> (if PicksSource(src1, dst1, me) then src1 else dst1).regime != Shared
  {
  }
}
