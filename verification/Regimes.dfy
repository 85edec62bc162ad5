/** Several collection authorities over one pool and one reference table: the worker for SHARED
    cells, one inline engine per owner for its LOCAL cells, and the hand-over between them. */
module Regimes {
  import opened Graphs
  import opened Cells
  import opened EngineState
  import opened Coverage
  import opened Sweeping
  import opened CollectionEngines
  import opened Exactness
  import opened Leaks

  datatype Regime = Local | Promoting | Shared

  datatype Tag = Tag(regime: Regime, owner: nat)

  datatype Marks = Marks(zeroMark: seq<bool>, suspectMark: seq<bool>, zeroStack: seq<nat>, suspectStack: seq<nat>)

  /** `marks[k]` is the candidate scratch of authority `k`; `queue` holds submitted messages the
      worker has not applied; `issued` are the handles given out so far. */
  datatype World = World(
    pool: seq<Slot>, tab: seq<Row>, tags: seq<Tag>, marks: seq<Marks>, queue: multiset<Msg>, issued: set<Handle>)

  /** The worker is authority 0 and the inline engine of owner `o` is `2 * o + 1`.  `2 * o + 2`
      stands for the cells owner `o` has frozen for a hand-over: no engine, so nobody may touch
      them. */
  function AuthorityOf(t: Tag): nat {
    match t.regime
    case Shared => 0
    case Local => LocalEngine(t.owner)
    case Promoting => Frozen(t.owner)
  }

  function LocalEngine(o: nat): nat { 2 * o + 1 }

  function Frozen(o: nat): nat { 2 * o + 2 }

  predicate IsEngine(k: nat) { k == 0 || k % 2 == 1 }

  predicate Has(s: World, k: nat, i: nat) {
    LiveAt(s.pool, i) && i < |s.tags| && AuthorityOf(s.tags[i]) == k
  }

  /** The gate every engine write must pass: a live slot of the engine's own regime and owner. */
  predicate CanTouch(s: World, k: nat, i: nat) {
    IsEngine(k) && Has(s, k, i)
  }

  ghost predicate Sized(s: World) {
    && |s.pool| == |s.tab| == |s.tags| && |s.marks| > 0
    && forall k :: 0 <= k < |s.marks| ==> |s.marks[k].zeroMark| == |s.marks[k].suspectMark| == |s.tab|
  }

  /** No live edge joins two regimes or two owners. */
  ghost predicate NoCrossing(s: World)
    requires Sized(s)
  {
    forall x :: x in Edges(s.pool, s.tab) ==> forall k: nat :: Has(s, k, x.0) <==> Has(s, k, x.1)
  }

  ghost predicate AllOwned(s: World)
    requires Sized(s)
  {
    forall i: nat :: LiveAt(s.pool, i) ==> AuthorityOf(s.tags[i]) < |s.marks|
  }

  ghost function Home(s: World, k: nat): set<nat> {
    set i: nat | i < |s.pool| && Has(s, k, i)
  }

  // ---- the part of the heap one authority sees ------------------------------------------------

  /** Authority `k` working on the whole table. */
  function Whole(s: World, k: nat): Engine
    requires k < |s.marks|
  {
    var e := s.marks[k];
    Engine(s.pool, s.tab, e.zeroMark, e.suspectMark, e.zeroStack, e.suspectStack)
  }

  function MarksOf(e: Engine): Marks {
    Marks(e.zeroMark, e.suspectMark, e.zeroStack, e.suspectStack)
  }

  /** Authority `k` with every slot it may not touch taken away. */
  ghost function Own(s: World, k: nat): (e: Engine)
    requires Sized(s) && k < |s.marks|
    ensures e.Sized() && |e.tab| == |s.tab|
  {
    var e := s.marks[k];
    Engine(OwnPool(s, k), OwnTab(s, k), e.zeroMark, e.suspectMark, e.zeroStack, e.suspectStack)
  }

  const HIDDEN := Slot(0, false)

  ghost function OwnPool(s: World, k: nat): seq<Slot> {
    seq(|s.pool|, i requires 0 <= i < |s.pool| =>
      if Has(s, k, i) then s.pool[i] else HIDDEN)
  }

  ghost function OwnTab(s: World, k: nat): seq<Row> {
    seq(|s.tab|, i requires 0 <= i < |s.tab| => if Has(s, k, i) then s.tab[i] else EMPTY_ROW)
  }

  lemma OwnEdges(s: World, k: nat)
    requires Sized(s) && k < |s.marks| && TableOk(s.pool, s.tab) && NoCrossing(s)
    ensures forall x :: x in Own(s, k).G() <==> x in Edges(s.pool, s.tab) && Has(s, k, x.0)
    ensures forall x :: x in Own(s, k).G() ==> Has(s, k, x.0) && Has(s, k, x.1)
  {
    var r := Own(s, k);
    forall x ensures x in r.G() <==> x in Edges(s.pool, s.tab) && Has(s, k, x.0) {
      if x in r.G() {
        EdgeIff(r.pool, r.tab, x.0, x.1);
        EdgeIff(s.pool, s.tab, x.0, x.1);
      }
      if x in Edges(s.pool, s.tab) && Has(s, k, x.0) {
        EdgeEnds(s.pool, s.tab, x.0, x.1);
        assert Has(s, k, x.1);
        EdgeIff(r.pool, r.tab, x.0, x.1);
      }
    }
  }

  /** What one authority sees is a complete, well-formed table of its own. */
  lemma OwnTable(s: World, k: nat)
    requires Sized(s) && k < |s.marks| && TableOk(s.pool, s.tab) && NoCrossing(s)
    ensures TableOk(Own(s, k).pool, Own(s, k).tab)
  {
    var r := Own(s, k);
    forall i | 0 <= i < |r.pool| && r.pool[i].live ensures RowOk(r.pool, r.tab, i) {
      assert RowOk(s.pool, s.tab, i);
      var h := Current(s.pool, i);
      forall j | 0 <= j < |s.tab| ensures multiset(s.tab[j].outs)[h] == multiset(r.tab[j].outs)[h] {
        EdgeIff(s.pool, s.tab, j, i);
        assert (j, i) in Edges(s.pool, s.tab) ==> Has(s, k, j);
        assert h !in s.tab[j].outs ==> h !in multiset(s.tab[j].outs);
      }
      InSame(s.tab, r.tab, h, |s.tab|);
      forall t | t in r.tab[i].outs ensures Valid(r.pool, t) {
        EdgeIff(s.pool, s.tab, i, t.index);
        assert (i, t.index) in Edges(s.pool, s.tab);
      }
    }
  }

  // ---- the invariant --------------------------------------------------------------------------

  ghost predicate AuthorityOk(s: World, k: nat)
    requires Sized(s) && k < |s.marks|
  {
    StructOk(s, k) && Covered(Own(s, k))
  }

  /** The authority's marks are on its own cells and in step with its stacks. */
  ghost predicate StructOk(s: World, k: nat)
    requires Sized(s) && k < |s.marks|
  {
    Settled(Own(s, k)) && (!IsEngine(k) ==> Unmarked(s.marks[k]))
  }

  predicate Unmarked(m: Marks) {
    && m.zeroStack == [] && m.suspectStack == []
    && (forall i :: 0 <= i < |m.zeroMark| ==> !m.zeroMark[i])
    && (forall i :: 0 <= i < |m.suspectMark| ==> !m.suspectMark[i])
  }

  function Handles(m: Msg): set<Handle> {
    match m
    case RootAdd(b, _) => {b}
    case RootRemove(b, _) => {b}
    case RootCheck(b) => {b}
    case EdgeAdd(a, b) => {a, b}
    case EdgeRemove(a, b) => {a, b}
    case Terminate => {}
  }

  /** Whatever a queued message names is SHARED for as long as it lives. */
  ghost predicate Queued(s: World, h: Handle)
    requires Sized(s)
  {
    h in s.issued && (Valid(s.pool, h) ==> Has(s, 0, h.index))
  }

  ghost predicate QueueOk(s: World)
    requires Sized(s)
  {
    && (forall m, h :: m in s.queue && h in Handles(m) ==> Queued(s, h))
    && (forall i: nat :: LiveAt(s.pool, i) ==> Current(s.pool, i) in s.issued)
  }

  ghost predicate Tidy(s: World) {
    Sized(s) && TableOk(s.pool, s.tab) && NoCrossing(s)
  }

  /** Edge counts are exact, no edge crosses, every live cell has an authority whose marks are in
      order, and queued messages only name SHARED cells. */
  ghost predicate Struct(s: World) {
    && Tidy(s) && AllOwned(s) && QueueOk(s)
    && forall k: nat :: k < |s.marks| ==> StructOk(s, k)
  }

  /** And every authority's candidates cover its garbage. */
  ghost predicate Inv(s: World) {
    Struct(s) && forall k: nat :: k < |s.marks| ==> Covered(Own(s, k))
  }

  // ---- applying a message ---------------------------------------------------------------------

  ghost predicate Touchable(s: World, k: nat, m: Msg) {
    forall h :: h in Handles(m) && Valid(s.pool, h) ==> CanTouch(s, k, h.index)
  }

  /** The world after authority `k` has become `e` on the whole table. */
  function Became(s: World, k: nat, e: Engine): World
    requires k < |s.marks|
  {
    s.(pool := e.pool, tab := e.tab, marks := s.marks[k := MarksOf(e)])
  }

  /** A message changes no row its authority does not own. */
  lemma ProcessWritesHome(s: World, k: nat, m: Msg)
    requires Sized(s) && TableOk(s.pool, s.tab) && k < |s.marks| && Touchable(s, k, m)
    ensures var e := Process(Whole(s, k), m);
      && e.Sized() && e.pool == s.pool && |e.tab| == |s.tab| && TableOk(e.pool, e.tab)
      && forall i: nat :: i < |s.tab| && !Has(s, k, i) ==> e.tab[i] == s.tab[i]
  {
    ProcessKeepsTable(Whole(s, k), m);
    forall i: nat | i < |s.tab| && !Has(s, k, i) ensures Process(Whole(s, k), m).tab[i] == s.tab[i] {
      forall h | h in Handles(m) && Valid(s.pool, h) ensures h.index != i { assert CanTouch(s, k, h.index); }
      RowUnnamed(Whole(s, k), m, i);
    }
  }

  /** A message changes no row it does not name. */
  lemma RowUnnamed(e: Engine, m: Msg, i: nat)
    requires e.Sized() && TableOk(e.pool, e.tab) && i < |e.tab|
    requires forall h :: h in Handles(m) && Valid(e.pool, h) ==> h.index != i
    ensures |Process(e, m).tab| == |e.tab| && Process(e, m).tab[i] == e.tab[i]
  {
    match m
    case RootAdd(b, count) => assert b in Handles(m);
    case RootRemove(b, count) => assert b in Handles(m);
    case RootCheck(b) => assert b in Handles(m);
    case EdgeAdd(a, b) => assert a in Handles(m) && b in Handles(m);
    case EdgeRemove(a, b) =>
      assert a in Handles(m) && b in Handles(m);
      EdgeRemoveRows(e, a, b);
    case Terminate =>
  }

  lemma EdgeRemoveRows(e: Engine, a: Handle, b: Handle)
    requires e.Sized() && TableOk(e.pool, e.tab)
    ensures var e' := Process(e, EdgeRemove(a, b));
      && |e'.tab| == |e.tab|
      && (forall i: nat :: i < |e.tab| && e'.tab[i] != e.tab[i] ==>
            (Valid(e.pool, a) && i == a.index) || (Valid(e.pool, b) && i == b.index))
  {
    if Valid(e.pool, a) && b in e.tab[a.index].outs {
      EdgeRemoveShape(e, a, b);
      ReconsiderFrame(Unlinked(e, a.index, b), b.index);
    } else {
      assert Process(e, EdgeRemove(a, b)) == e;
    }
  }

  lemma OwnValid(s: World, k: nat, h: Handle)
    requires Sized(s) && k < |s.marks|
    requires Valid(s.pool, h) ==> Has(s, k, h.index)
    ensures Valid(OwnPool(s, k), h) <==> Valid(s.pool, h)
  {
  }

  lemma OwnIsPart(s: World, k: nat)
    requires Sized(s) && k < |s.marks|
    ensures PartOf(Whole(s, k), Own(s, k), Home(s, k))
  {
  }

  lemma PartIsOwn(s: World, k: nat, e: Engine, r: Engine)
    requires Sized(s) && k < |s.marks| && PartOf(e, r, Home(s, k))
    requires e.pool == s.pool && r.pool == OwnPool(s, k)
    ensures Sized(Became(s, k, e)) && Own(Became(s, k, e), k) == r
  {
    var s' := Became(s, k, e);
    assert Own(s', k).pool == r.pool;
    forall i: nat | i < |s.tab| ensures Own(s', k).tab[i] == r.tab[i] { assert PartRow(e, r, Home(s, k), i); }
  }

  /** What the engine does to the whole table is what it would do to its own part alone. */
  lemma OwnProcess(s: World, k: nat, m: Msg)
    requires Sized(s) && TableOk(s.pool, s.tab) && NoCrossing(s) && k < |s.marks| && Touchable(s, k, m)
    ensures Sized(Became(s, k, Process(Whole(s, k), m)))
    ensures Own(Became(s, k, Process(Whole(s, k), m)), k) == Process(Own(s, k), m)
  {
    var w, r := Whole(s, k), Own(s, k);
    assert TableOk(r.pool, r.tab) by { OwnTable(s, k); }
    forall h | h in Handles(m)
      ensures Valid(r.pool, h) <==> Valid(w.pool, h)
      ensures Valid(w.pool, h) ==> h.index in Home(s, k)
    {
      OwnValid(s, k, h);
    }
    OwnIsPart(s, k);
    PartProcess(w, r, Home(s, k), m);
    assert Process(w, m).pool == s.pool && Process(r, m).pool == r.pool by {
      ProcessKeepsTable(w, m);
      ProcessKeepsTable(r, m);
    }
    PartIsOwn(s, k, Process(w, m), Process(r, m));
  }

  /** `r` is `w` with nothing outside `c`. */
  ghost predicate PartOf(w: Engine, r: Engine, c: set<nat>) {
    && w.Sized() && r.Sized() && |w.tab| == |r.tab|
    && MarksOf(w) == MarksOf(r)
    && forall i: nat :: i < |w.tab| ==> PartRow(w, r, c, i)
  }

  ghost predicate PartRow(w: Engine, r: Engine, c: set<nat>, i: nat)
    requires i < |w.tab| && i < |r.tab|
  {
    r.tab[i] == if i in c then w.tab[i] else EMPTY_ROW
  }

  lemma PartReconsider(w: Engine, r: Engine, c: set<nat>, i: nat)
    requires PartOf(w, r, c) && i in c && i < |w.tab|
    ensures PartOf(Reconsider(w, i), Reconsider(r, i), c)
  {
    assert PartRow(w, r, c, i);
    var w', r' := Reconsider(w, i), Reconsider(r, i);
    forall j: nat | j < |w'.tab| ensures PartRow(w', r', c, j) { assert PartRow(w, r, c, j); }
  }

  lemma PartSetRow(w: Engine, r: Engine, c: set<nat>, i: nat, row: Row)
    requires PartOf(w, r, c) && i in c && i < |w.tab|
    ensures PartOf(w.(tab := w.tab[i := row]), r.(tab := r.tab[i := row]), c)
  {
    var w', r' := w.(tab := w.tab[i := row]), r.(tab := r.tab[i := row]);
    forall j: nat | j < |w'.tab| ensures PartRow(w', r', c, j) { assert PartRow(w, r, c, j); }
  }

  lemma PartEdgeAdd(w: Engine, r: Engine, c: set<nat>, a: Handle, b: Handle)
    requires PartOf(w, r, c) && Valid(w.pool, a) && Valid(w.pool, b) && Valid(r.pool, a) && Valid(r.pool, b)
    requires a.index in c && b.index in c
    ensures PartOf(Process(w, EdgeAdd(a, b)), Process(r, EdgeAdd(a, b)), c)
  {
    assert PartRow(w, r, c, b.index);
    PartSetRow(w, r, c, b.index, w.tab[b.index].(edge := w.tab[b.index].edge + 1));
    var w1, r1 := AddEdgeTo(w, b.index), AddEdgeTo(r, b.index);
    assert PartRow(w1, r1, c, a.index);
    PartSetRow(w1, r1, c, a.index, w1.tab[a.index].(outs := [b] + w1.tab[a.index].outs));
  }

  lemma PartUnlinked(w: Engine, r: Engine, c: set<nat>, a: nat, b: Handle)
    requires PartOf(w, r, c) && a in c && b.index in c && a < |w.tab| && b.index < |w.tab|
    requires b in w.tab[a].outs && b in r.tab[a].outs
    ensures PartOf(Unlinked(w, a, b), Unlinked(r, a, b), c)
  {
    assert PartRow(w, r, c, a);
    var outs := Erase(w.tab[a].outs, FirstIndex(w.tab[a].outs, b));
    PartSetRow(w, r, c, a, w.tab[a].(outs := outs));
    var w1, r1 := SetOuts(w, a, outs), SetOuts(r, a, outs);
    assert PartRow(w1, r1, c, b.index);
    PartSetRow(w1, r1, c, b.index, w1.tab[b.index].(edge := w1.tab[b.index].edge - 1));
  }

  lemma PartProcess(w: Engine, r: Engine, c: set<nat>, m: Msg)
    requires PartOf(w, r, c) && TableOk(w.pool, w.tab) && TableOk(r.pool, r.tab)
    requires forall h :: h in Handles(m) ==> (Valid(r.pool, h) <==> Valid(w.pool, h))
    requires forall h :: h in Handles(m) && Valid(w.pool, h) ==> h.index in c
    ensures PartOf(Process(w, m), Process(r, m), c)
  {
    if !m.Terminate? && Valid(w.pool, m.b) { assert m.b in Handles(m) && PartRow(w, r, c, m.b.index); }
    match m
    case RootAdd(b, count) =>
      if Valid(w.pool, b) {
        PartSetRow(w, r, c, b.index, w.tab[b.index].(root := w.tab[b.index].root + count));
      }
    case RootRemove(b, count) => if Valid(w.pool, b) { PartRootRemove(w, r, c, b, count); }
    case RootCheck(b) => if Valid(w.pool, b) { PartReconsider(w, r, c, b.index); }
    case EdgeAdd(a, b) =>
      assert a in Handles(m);
      if Valid(w.pool, a) && Valid(w.pool, b) { PartEdgeAdd(w, r, c, a, b); }
    case EdgeRemove(a, b) =>
      assert a in Handles(m) && b in Handles(m);
      PartEdgeRemove(w, r, c, a, b);
    case Terminate =>
  }

  lemma PartRootRemove(w: Engine, r: Engine, c: set<nat>, b: Handle, count: nat)
    requires PartOf(w, r, c) && Valid(w.pool, b) && Valid(r.pool, b) && b.index in c
    ensures PartOf(Process(w, RootRemove(b, count)), Process(r, RootRemove(b, count)), c)
  {
    var n := w.tab[b.index].root;
    assert PartRow(w, r, c, b.index);
    if n < count {
      PartSetRow(w, r, c, b.index, w.tab[b.index].(root := 0));
    } else {
      PartSetRow(w, r, c, b.index, w.tab[b.index].(root := n - count));
      PartReconsider(SetRoot(w, b.index, n - count), SetRoot(r, b.index, n - count), c, b.index);
    }
  }

  lemma PartEdgeRemove(w: Engine, r: Engine, c: set<nat>, a: Handle, b: Handle)
    requires PartOf(w, r, c) && TableOk(w.pool, w.tab) && TableOk(r.pool, r.tab)
    requires (Valid(r.pool, a) <==> Valid(w.pool, a)) && (Valid(r.pool, b) <==> Valid(w.pool, b))
    requires (Valid(w.pool, a) ==> a.index in c) && (Valid(w.pool, b) ==> b.index in c)
    ensures PartOf(Process(w, EdgeRemove(a, b)), Process(r, EdgeRemove(a, b)), c)
  {
    if Valid(w.pool, a) && b in w.tab[a.index].outs {
      assert PartRow(w, r, c, a.index);
      EdgeRemoveShape(w, a, b);
      EdgeRemoveShape(r, a, b);
      PartUnlinked(w, r, c, a.index, b);
      PartReconsider(Unlinked(w, a.index, b), Unlinked(r, a.index, b), c, b.index);
    } else {
      assert Valid(w.pool, a) ==> PartRow(w, r, c, a.index);
      assert Process(w, EdgeRemove(a, b)) == w && Process(r, EdgeRemove(a, b)) == r;
    }
  }

  /** The other authorities do not notice. */
  lemma OthersUnchanged(s: World, k: nat, m: Msg, l: nat)
    requires Sized(s) && TableOk(s.pool, s.tab) && k < |s.marks| && Touchable(s, k, m)
    requires l < |s.marks| && l != k
    ensures var s' := Became(s, k, Process(Whole(s, k), m));
      Sized(s') && Own(s', l) == Own(s, l)
  {
    ProcessWritesHome(s, k, m);
    var s' := Became(s, k, Process(Whole(s, k), m));
    assert Own(s', l).pool == Own(s, l).pool;
    assert Own(s', l).tab == Own(s, l).tab;
  }

  lemma ProcessGraph(e: Engine, m: Msg)
    requires e.Sized() && TableOk(e.pool, e.tab)
    ensures forall x :: x in Process(e, m).G() && x !in e.G() ==>
      m.EdgeAdd? && Valid(e.pool, m.a) && Valid(e.pool, m.b) && x == (m.a.index, m.b.index)
  {
    match m
    case RootAdd(b, count) => SameOutsSameEdges(e.pool, e.tab, Process(e, m).tab);
    case RootRemove(b, count) => SameOutsSameEdges(e.pool, e.tab, Process(e, m).tab);
    case RootCheck(b) =>
    case EdgeAdd(a, b) =>
      if Valid(e.pool, a) && Valid(e.pool, b) { EdgeAddGraph(e, a, b); }
    case EdgeRemove(a, b) =>
      if Valid(e.pool, a) && b in e.tab[a.index].outs {
        EdgeRemoveShape(e, a, b);
        UnlinkedGraph(e, a.index, b);
        ReconsiderFrame(Unlinked(e, a.index, b), b.index);
      } else {
        assert Process(e, EdgeRemove(a, b)) == e;
      }
    case Terminate =>
  }

  lemma ProcessKeepsNoCrossing(s: World, k: nat, m: Msg)
    requires Sized(s) && TableOk(s.pool, s.tab) && NoCrossing(s) && k < |s.marks| && Touchable(s, k, m)
    ensures var s' := Became(s, k, Process(Whole(s, k), m));
      Sized(s') && TableOk(s'.pool, s'.tab) && NoCrossing(s')
  {
    ProcessWritesHome(s, k, m);
    var w := Whole(s, k);
    var s' := Became(s, k, Process(w, m));
    ProcessGraph(w, m);
    forall x | x in Edges(s'.pool, s'.tab) ensures forall j: nat :: Has(s', j, x.0) <==> Has(s', j, x.1) {
      if x in w.G() {
        assert forall j: nat :: Has(s, j, x.0) <==> Has(s, j, x.1);
        assert s'.pool == s.pool && s'.tags == s.tags;
        forall j: nat ensures Has(s', j, x.0) <==> Has(s', j, x.1) { assert Has(s, j, x.0) <==> Has(s, j, x.1); }
      } else {
        assert x in Process(w, m).G();
        assert m.a in Handles(m) && m.b in Handles(m);
        assert Has(s, k, x.0) && Has(s, k, x.1);
      }
    }
  }

  /** A message from an authority to its own cells, disciplined or not, keeps the structure, unless
      it puts the authority's own marks out of step. */
  lemma ApplyKeepsStruct(s: World, k: nat, m: Msg)
    requires Struct(s) && k < |s.marks| && IsEngine(k) && Touchable(s, k, m) && !Unsettles(Own(s, k), m)
    ensures Struct(Became(s, k, Process(Whole(s, k), m)))
  {
    var s' := Became(s, k, Process(Whole(s, k), m));
    ProcessWritesHome(s, k, m);
    ProcessKeepsNoCrossing(s, k, m);
    forall l: nat | l < |s'.marks| ensures StructOk(s', l) {
      assert StructOk(s, l);
      if l == k {
        OwnProcess(s, k, m);
        SettledIff(Own(s, k), m);
      } else {
        OthersUnchanged(s, k, m, l);
      }
    }
    forall q, h | q in s'.queue && h in Handles(q) ensures Queued(s', h) { assert Queued(s, h); }
  }

  /** A disciplined message from an authority to its own cells keeps the whole invariant. */
  lemma ApplyKeepsInv(s: World, k: nat, m: Msg)
    requires Inv(s) && k < |s.marks| && IsEngine(k) && Touchable(s, k, m) && Disciplined(Own(s, k), m)
    ensures Inv(Became(s, k, Process(Whole(s, k), m)))
  {
    var s' := Became(s, k, Process(Whole(s, k), m));
    ApplyKeepsStruct(s, k, m);
    forall l: nat | l < |s'.marks| ensures Covered(Own(s', l)) {
      assert AuthorityOk(s, l);
      if l == k {
        OwnProcess(s, k, m);
        ProcessKeepsCovered(Own(s, k), m);
      } else {
        OthersUnchanged(s, k, m, l);
      }
    }
  }

  // ---- a sweep by one authority ---------------------------------------------------------------

  lemma WholeSettled(s: World, k: nat)
    requires Struct(s) && k < |s.marks|
    ensures Settled(Whole(s, k))
  {
    var w, r := Whole(s, k), Own(s, k);
    assert StructOk(s, k);
    forall i: nat | i < |s.tab| && r.pool[i].live ensures w.pool[i].live && w.tab[i] == r.tab[i] {
      assert Has(s, k, i);
    }
  }

  lemma HomeClosed(s: World, k: nat)
    requires Tidy(s) && k < |s.marks|
    ensures Closed(Edges(s.pool, s.tab), Home(s, k)) && BackClosed(Edges(s.pool, s.tab), Home(s, k))
  {
    forall x | x in Edges(s.pool, s.tab) ensures x.0 in Home(s, k) <==> x.1 in Home(s, k) {
      EdgeEnds(s.pool, s.tab, x.0, x.1);
      assert Has(s, k, x.0) <==> Has(s, k, x.1);
    }
  }

  /** Walks between cells of one authority are the same in its own view and in the whole table. */
  lemma HomeReach(s: World, k: nat, a: nat, u: nat)
    requires Tidy(s) && k < |s.marks| && (Has(s, k, a) || Has(s, k, u))
    ensures Reach(Own(s, k).G(), a, u) <==> Has(s, k, a) && Has(s, k, u) && Reach(Edges(s.pool, s.tab), a, u)
  {
    var g, g' := Edges(s.pool, s.tab), Own(s, k).G();
    HomeClosed(s, k);
    OwnEdges(s, k);
    if Reach(g', a, u) {
      ReachMonotone(g', g, a, u);
      if Has(s, k, a) {
        ReachStaysIn(g, Home(s, k), a, u);
      } else {
        ReachBackIn(g, Home(s, k), a, u);
      }
    }
    if Has(s, k, a) && Reach(g, a, u) {
      ReachInside(g, g', Home(s, k), a, u);
    }
  }

  lemma HomePending(s: World, k: nat, u: nat)
    requires Struct(s) && k < |s.marks| && LiveAt(s.pool, u)
    ensures Pending(Whole(s, k), u) <==> Has(s, k, u) && Pending(Own(s, k), u)
  {
    var w, r := Whole(s, k), Own(s, k);
    if m: nat :| Candidate(w, m) && Reach(w.G(), m, u) { PendingAtHome(s, k, m, u); }
    if Has(s, k, u) && Pending(r, u) {
      var m: nat :| Candidate(r, m) && Reach(r.G(), m, u);
      HomeReach(s, k, m, u);
      assert Candidate(w, m);
      PendingVia(w, m, u);
    }
  }

  lemma PendingAtHome(s: World, k: nat, m: nat, u: nat)
    requires Struct(s) && k < |s.marks| && Candidate(Whole(s, k), m) && Reach(Whole(s, k).G(), m, u)
    ensures Has(s, k, u) && Pending(Own(s, k), u)
  {
    assert StructOk(s, k);
    assert Has(s, k, m);
    HomeClosed(s, k);
    ReachStaysIn(Whole(s, k).G(), Home(s, k), m, u);
    HomeReach(s, k, m, u);
    assert Candidate(Own(s, k), m);
    PendingVia(Own(s, k), m, u);
  }

  lemma HomeAnchor(s: World, k: nat, a: nat)
    requires Struct(s) && k < |s.marks| && Has(s, k, a)
    ensures Anchor(Whole(s, k), a) <==> Anchor(Own(s, k), a)
  {
    HomePending(s, k, a);
  }

  /** A sweep keeps every cell of another authority, and of its own what it would keep alone. */
  lemma HomeKept(s: World, k: nat, u: nat)
    requires Struct(s) && k < |s.marks| && LiveAt(s.pool, u)
    ensures u in Kept(Whole(s, k)) <==> !Has(s, k, u) || u in Kept(Own(s, k))
  {
    var w, r := Whole(s, k), Own(s, k);
    if !Has(s, k, u) {
      HomePending(s, k, u);
      ReachRefl(w.G(), u);
      AnchoredIsKept(w, u, u);
    } else {
      if u in Kept(w) {
        var a: nat :| Anchor(w, a) && Reach(w.G(), a, u);
        HomeClosed(s, k);
        ReachBackIn(w.G(), Home(s, k), a, u);
        HomeAnchor(s, k, a);
        HomeReach(s, k, a, u);
        AnchoredIsKept(r, a, u);
      }
      if u in Kept(r) {
        var a: nat :| Anchor(r, a) && Reach(r.G(), a, u);
        HomeAnchor(s, k, a);
        HomeReach(s, k, a, u);
        AnchoredIsKept(w, a, u);
      }
    }
  }

  /** A sweep by authority `k` writes no row and no slot of another authority. */
  lemma SweepWritesHome(s: World, k: nat, e: Engine, i: nat)
    requires Struct(s) && k < |s.marks| && Swept(Whole(s, k), e) && LiveAt(s.pool, i) && !Has(s, k, i)
    ensures e.pool[i] == s.pool[i] && e.tab[i] == s.tab[i]
  {
    var w := Whole(s, k);
    HomeKept(s, k, i);
    assert e.Live(i) && Survives(w, e, i);
    var h := Current(s.pool, i);
    forall j: nat | j < |s.tab| ensures multiset(s.tab[j].outs)[h] == multiset(e.tab[j].outs)[h] {
      assert Survives(w, e, j);
      if !e.Live(j) { SweptNamesHome(s, k, e, i, j); }
    }
    InSame(s.tab, e.tab, h, |s.tab|);
    assert RowOk(s.pool, s.tab, i) && RowOk(e.pool, e.tab, i);
  }

  lemma SweptNamesHome(s: World, k: nat, e: Engine, i: nat, j: nat)
    requires Struct(s) && k < |s.marks| && Swept(Whole(s, k), e) && LiveAt(s.pool, i) && !Has(s, k, i)
    requires j < |s.tab| && !e.Live(j)
    ensures multiset(s.tab[j].outs)[Current(s.pool, i)] == 0 == multiset(e.tab[j].outs)[Current(s.pool, i)]
  {
    if LiveAt(s.pool, j) {
      HomeKept(s, k, j);
      EdgeIff(s.pool, s.tab, j, i);
      assert (j, i) in Edges(s.pool, s.tab) ==> (Has(s, k, j) <==> Has(s, k, i));
      assert Current(s.pool, i) !in s.tab[j].outs;
      assert Current(s.pool, i) !in multiset(s.tab[j].outs);
    }
  }

  lemma SweepKeepsNoCrossing(s: World, k: nat, e: Engine)
    requires Struct(s) && k < |s.marks| && Swept(Whole(s, k), e)
    ensures Sized(Became(s, k, e)) && NoCrossing(Became(s, k, e))
    ensures TableOk(e.pool, e.tab)
    ensures forall l: nat, i: nat :: Has(Became(s, k, e), l, i) <==> Has(s, l, i) && e.Live(i)
  {
    var w := Whole(s, k);
    var s' := Became(s, k, e);
    forall l: nat, i: nat ensures Has(s', l, i) <==> Has(s, l, i) && e.Live(i) {
      if i < |s.tab| { assert Survives(w, e, i); }
    }
    SweptGraph(w, e);
    forall x | x in Edges(s'.pool, s'.tab) ensures forall j: nat :: Has(s', j, x.0) <==> Has(s', j, x.1) {
      EdgeEnds(e.pool, e.tab, x.0, x.1);
      assert x in Edges(s.pool, s.tab);
      forall j: nat ensures Has(s', j, x.0) <==> Has(s', j, x.1) { assert Has(s, j, x.0) <==> Has(s, j, x.1); }
    }
  }

  /** On its own part the sweep is an ordinary sweep. */
  lemma OwnSwept(s: World, k: nat, e: Engine)
    requires Struct(s) && k < |s.marks| && Swept(Whole(s, k), e)
    ensures Sized(Became(s, k, e)) && Swept(Own(s, k), Own(Became(s, k, e), k))
  {
    var s' := Became(s, k, e);
    var w, r := Whole(s, k), Own(s, k);
    SweepKeepsNoCrossing(s, k, e);
    var r' := Own(s', k);
    OwnTable(s', k);
    forall i: nat | i < |r.tab| ensures Survives(r, r', i) { assert Survives(w, e, i); }
    forall u: nat ensures r'.Live(u) <==> u in Kept(r) {
      if LiveAt(s.pool, u) {
        HomeKept(s, k, u);
      } else {
        assert !e.Live(u);
      }
    }
  }

  lemma OthersUnswept(s: World, k: nat, e: Engine, l: nat)
    requires Struct(s) && k < |s.marks| && Swept(Whole(s, k), e) && l < |s.marks| && l != k
    ensures Sized(Became(s, k, e)) && Own(Became(s, k, e), l) == Own(s, l)
  {
    var s' := Became(s, k, e);
    SweepKeepsNoCrossing(s, k, e);
    forall i: nat | i < |s.tab|
      ensures Own(s', l).pool[i] == Own(s, l).pool[i] && Own(s', l).tab[i] == Own(s, l).tab[i]
    {
      if Has(s, l, i) { SweepWritesHome(s, k, e, i); }
    }
    assert Own(s', l).pool == Own(s, l).pool && Own(s', l).tab == Own(s, l).tab;
  }

  lemma CollectKeepsStruct(s: World, k: nat, e: Engine)
    requires Struct(s) && k < |s.marks| && IsEngine(k) && Swept(Whole(s, k), e)
    ensures Struct(Became(s, k, e))
  {
    var s' := Became(s, k, e);
    var w := Whole(s, k);
    SweepKeepsNoCrossing(s, k, e);
    forall l: nat | l < |s'.marks| ensures StructOk(s', l) {
      assert StructOk(s, l);
      if l == k { OwnSwept(s, k, e); } else { OthersUnswept(s, k, e, l); }
    }
    forall i: nat | LiveAt(s'.pool, i)
      ensures LiveAt(s.pool, i) && s'.pool[i] == s.pool[i]
    {
      assert Survives(w, e, i);
    }
    forall q, h | q in s'.queue && h in Handles(q) ensures Queued(s', h) { assert Queued(s, h); }
  }

  lemma CollectKeepsInv(s: World, k: nat, e: Engine)
    requires Inv(s) && k < |s.marks| && IsEngine(k) && Swept(Whole(s, k), e)
    ensures Inv(Became(s, k, e))
  {
    var s' := Became(s, k, e);
    CollectKeepsStruct(s, k, e);
    forall l: nat | l < |s'.marks| ensures Covered(Own(s', l)) {
      assert AuthorityOk(s, l);
      if l == k {
        OwnSwept(s, k, e);
        StepKeeps(Own(s, k), Collect, Own(s', k));
      } else {
        OthersUnswept(s, k, e, l);
      }
    }
  }
}
