/** Nothing is lost and nothing is counted twice: over whole runs the table is the sum of what was
    said. */
module Ledgers {
  import opened Cells
  import opened EngineState
  import opened Coverage
  import opened CollectionEngines
  import opened Logs
  import X = Exactness
  import R = Regimes
  import P = Promotion
  import C = CutProtocol
  import CR = CutRounds
  import CT = CutTheorems
  import M = Mirror

  // ---- one message ----------------------------------------------------------------------------

  function Floor(v: int): int { if v < 0 then 0 else v }

  /** A message changes the root count of a live cell by what it says, but never below zero. */
  lemma ProcessRoots(e: Engine, m: Msg, h: Handle)
    requires e.Sized() && TableOk(e.pool, e.tab) && Valid(e.pool, h)
    ensures Process(e, m).Sized() && |Process(e, m).tab| == |e.tab| && Process(e, m).pool == e.pool
    ensures Process(e, m).tab[h.index].root == Floor(e.tab[h.index].root + RootDelta(m, h))
  {
    ProcessKeepsTable(e, m);
    match m
    case RootAdd(b, count) => TotalsNonNegative(e, h.index);
    case RootRemove(b, count) => RemovedRoots(e, b, count, h);
    case RootCheck(b) =>
      TotalsNonNegative(e, h.index);
      if Valid(e.pool, b) { ReconsiderFrame(e, b.index); }
    case EdgeAdd(a, b) =>
      TotalsNonNegative(e, h.index);
      if Valid(e.pool, a) && Valid(e.pool, b) { EdgeAddCounts(e, a, b); }
    case EdgeRemove(a, b) => KeptRoots(e, a, b, h);
    case Terminate => TotalsNonNegative(e, h.index);
  }

  lemma RemovedRoots(e: Engine, b: Handle, count: nat, h: Handle)
    requires e.Sized() && TableOk(e.pool, e.tab) && Valid(e.pool, h)
    ensures h.index < |Process(e, RootRemove(b, count)).tab|
    ensures Process(e, RootRemove(b, count)).tab[h.index].root == Floor(e.tab[h.index].root + RootDelta(RootRemove(b, count), h))
  {
    TotalsNonNegative(e, h.index);
    if Valid(e.pool, b) && e.tab[b.index].root >= count {
      ReconsiderFrame(SetRoot(e, b.index, e.tab[b.index].root - count), b.index);
    }
  }

  lemma KeptRoots(e: Engine, a: Handle, b: Handle, h: Handle)
    requires e.Sized() && TableOk(e.pool, e.tab) && Valid(e.pool, h)
    ensures h.index < |Process(e, EdgeRemove(a, b)).tab|
    ensures Process(e, EdgeRemove(a, b)).tab[h.index].root == Floor(e.tab[h.index].root)
  {
    TotalsNonNegative(e, h.index);
    if Valid(e.pool, a) && b in e.tab[a.index].outs {
      EdgeRemoveShape(e, a, b);
      ReconsiderFrame(Unlinked(e, a.index, b), b.index);
    }
  }

  /** And the records between two live cells likewise. */
  lemma ProcessRecords(e: Engine, m: Msg, a: Handle, b: Handle)
    requires e.Sized() && TableOk(e.pool, e.tab) && Valid(e.pool, a) && Valid(e.pool, b)
    ensures |Process(e, m).tab| == |e.tab|
    ensures multiset(Process(e, m).tab[a.index].outs)[b] == Floor(multiset(e.tab[a.index].outs)[b] + EdgeDelta(m, a, b))
  {
    ProcessKeepsTable(e, m);
    if m.EdgeAdd? && Valid(e.pool, m.a) && Valid(e.pool, m.b) {
      EdgeAddCounts(e, m.a, m.b);
      if m.a.index == a.index {
        assert multiset([m.b] + e.tab[a.index].outs) == multiset{m.b} + multiset(e.tab[a.index].outs);
      }
    } else if m.EdgeRemove? && Valid(e.pool, m.a) {
      RemovedRecords(e, m.a, m.b, a, b);
    }
  }

  lemma RemovedRecords(e: Engine, x: Handle, y: Handle, a: Handle, b: Handle)
    requires e.Sized() && TableOk(e.pool, e.tab) && Valid(e.pool, a) && Valid(e.pool, b) && Valid(e.pool, x)
    ensures |Process(e, EdgeRemove(x, y)).tab| == |e.tab|
    ensures multiset(Process(e, EdgeRemove(x, y)).tab[a.index].outs)[b] ==
            Floor(multiset(e.tab[a.index].outs)[b] + EdgeDelta(EdgeRemove(x, y), a, b))
  {
    if y in e.tab[x.index].outs {
      EdgeRemoveShape(e, x, y);
      ReconsiderFrame(Unlinked(e, x.index, y), y.index);
      UnlinkedRecords(e, x, y, a, b);
    } else {
      assert Process(e, EdgeRemove(x, y)) == e;
      assert a == x && b == y ==> b !in multiset(e.tab[a.index].outs);
    }
  }

  lemma UnlinkedRecords(e: Engine, x: Handle, y: Handle, a: Handle, b: Handle)
    requires e.Sized() && Valid(e.pool, a) && Valid(e.pool, x) && Valid(e.pool, y) && y in e.tab[x.index].outs
    requires e.tab[y.index].edge > 0
    ensures a.index < |Unlinked(e, x.index, y).tab|
    ensures multiset(Unlinked(e, x.index, y).tab[a.index].outs)[b] ==
            Floor(multiset(e.tab[a.index].outs)[b] + EdgeDelta(EdgeRemove(x, y), a, b))
  {
    EraseMultiset(e.tab[x.index].outs, FirstIndex(e.tab[x.index].outs, y));
    assert Unlinked(e, x.index, y).tab[a.index].outs ==
           if a.index == x.index then Erase(e.tab[x.index].outs, FirstIndex(e.tab[x.index].outs, y)) else e.tab[a.index].outs;
  }

  // ---- one step of a run ----------------------------------------------------------------------

  /** What a step says about the table: one message, or nothing. */
  datatype Line = Said(m: Msg) | Silent

  function RootSaid(l: Line, h: Handle): int { if l.Said? then RootDelta(l.m, h) else 0 }

  function EdgeSaid(l: Line, a: Handle, b: Handle): int { if l.Said? then EdgeDelta(l.m, a, b) else 0 }

  /** The roots on `h`, none if its cell is not alive. */
  function RootsOn(e: Heap, h: Handle): int
    requires |e.pool| == |e.tab|
  {
    if Valid(e.pool, h) then e.tab[h.index].root else 0
  }

  function RecordsOf(e: Heap, a: Handle, b: Handle): nat
    requires |e.pool| == |e.tab|
  {
    if Valid(e.pool, a) && Valid(e.pool, b) then multiset(e.tab[a.index].outs)[b] else 0
  }

  /** A step changes the roots of every cell that lives after it, and the records between any two such
      cells, by what it says and by nothing else. */
  ghost predicate Booked(e: Heap, l: Line, e': Heap) {
    && |e.pool| == |e.tab| && |e'.pool| == |e'.tab|
    && (forall h :: Valid(e'.pool, h) ==> RootBooked(e, l, e', h))
    && (forall a, b :: Valid(e'.pool, a) && Valid(e'.pool, b) ==> EdgeBooked(e, l, e', a, b))
  }

  ghost predicate RootBooked(e: Heap, l: Line, e': Heap, h: Handle)
    requires |e.pool| == |e.tab| && |e'.pool| == |e'.tab|
  {
    RootsOn(e', h) == Floor(RootsOn(e, h) + RootSaid(l, h))
  }

  ghost predicate EdgeBooked(e: Heap, l: Line, e': Heap, a: Handle, b: Handle)
    requires |e.pool| == |e.tab| && |e'.pool| == |e'.tab|
  {
    RecordsOf(e', a, b) == Floor(RecordsOf(e, a, b) + EdgeSaid(l, a, b))
  }

  function HeapOf(e: Engine): Heap { Heap(e.pool, e.tab) }

  lemma ProcessBooked(e: Engine, m: Msg)
    requires e.Sized() && TableOk(e.pool, e.tab)
    ensures Booked(HeapOf(e), Said(m), HeapOf(Process(e, m)))
  {
    ProcessKeepsTable(e, m);
    var e' := Process(e, m);
    forall h | Valid(e'.pool, h) ensures RootBooked(HeapOf(e), Said(m), HeapOf(e'), h) { ProcessRoots(e, m, h); }
    forall a, b | Valid(e'.pool, a) && Valid(e'.pool, b) ensures EdgeBooked(HeapOf(e), Said(m), HeapOf(e'), a, b) {
      ProcessRecords(e, m, a, b);
    }
  }

  /** A slot that is handed out has an empty row, and nothing records it. */
  lemma ActivateBooked(e: Engine, i: nat)
    requires e.Sized() && TableOk(e.pool, e.tab) && i < |e.tab| && !e.Live(i)
    ensures Booked(HeapOf(e), Silent, HeapOf(Activate(e, i)))
  {
    var e' := Activate(e, i);
    forall h | Valid(e'.pool, h) ensures RootBooked(HeapOf(e), Silent, HeapOf(e'), h) { NonNegative(e, h); }
    forall a, b | Valid(e'.pool, a) && Valid(e'.pool, b) ensures EdgeBooked(HeapOf(e), Silent, HeapOf(e'), a, b) {
      if Valid(e.pool, a) && !Valid(e.pool, b) { assert RowOk(e.pool, e.tab, a.index); }
    }
  }

  lemma NonNegative(e: Engine, h: Handle)
    requires e.Sized() && TableOk(e.pool, e.tab)
    ensures RootsOn(HeapOf(e), h) >= 0
  {
    if Valid(e.pool, h) { TotalsNonNegative(e, h.index); }
  }

  lemma SweptBooked(e: Engine, e': Engine)
    requires e.Sized() && TableOk(e.pool, e.tab) && Shrunk(e, e')
    ensures Booked(HeapOf(e), Silent, HeapOf(e'))
  {
    forall h | Valid(e'.pool, h) ensures RootBooked(HeapOf(e), Silent, HeapOf(e'), h) {
      assert Survives(e, e', h.index);
      NonNegative(e, h);
    }
    forall a, b | Valid(e'.pool, a) && Valid(e'.pool, b) ensures EdgeBooked(HeapOf(e), Silent, HeapOf(e'), a, b) {
      assert Survives(e, e', a.index) && Survives(e, e', b.index);
    }
  }

  /** Two steps of which only the second says something. */
  lemma BookedTwice(e: Heap, e1: Heap, l: Line, e2: Heap)
    requires Booked(e, Silent, e1) && Booked(e1, l, e2) && e2.pool == e1.pool && forall h :: RootsOn(e, h) >= 0
    ensures Booked(e, l, e2)
  {
    forall h | Valid(e2.pool, h) ensures RootBooked(e, l, e2, h) {
      assert RootBooked(e, Silent, e1, h) && RootBooked(e1, l, e2, h);
    }
    forall a, b | Valid(e2.pool, a) && Valid(e2.pool, b) ensures EdgeBooked(e, l, e2, a, b) {
      assert EdgeBooked(e, Silent, e1, a, b) && EdgeBooked(e1, l, e2, a, b);
    }
  }

  // ---- whole runs -----------------------------------------------------------------------------

  /** Pool and table after each step, and what each step said. */
  ghost predicate Books(hs: seq<Heap>, ls: seq<Line>) {
    && |hs| == |ls| + 1 && |hs[0].pool| == |hs[0].tab| && (forall i :: 0 <= i < |hs[0].pool| ==> !hs[0].pool[i].live)
    && forall k: nat :: k < |ls| ==> BookedAt(hs, ls, k)
  }

  ghost predicate BookedAt(hs: seq<Heap>, ls: seq<Line>, k: nat)
    requires k < |ls| && k + 1 < |hs|
  {
    Booked(hs[k], ls[k], hs[k + 1])
  }

  /** What the first `k` steps have said about roots on `h` since its cell came to life. */
  ghost function RootBalance(hs: seq<Heap>, ls: seq<Line>, k: nat, h: Handle): int
    requires k < |hs| == |ls| + 1
  {
    if k == 0 || !Valid(hs[k].pool, h) then 0 else Floor(RootBalance(hs, ls, k - 1, h) + RootSaid(ls[k - 1], h))
  }

  ghost function EdgeBalance(hs: seq<Heap>, ls: seq<Line>, k: nat, a: Handle, b: Handle): int
    requires k < |hs| == |ls| + 1
  {
    if k == 0 || !Valid(hs[k].pool, a) || !Valid(hs[k].pool, b) then 0
    else Floor(EdgeBalance(hs, ls, k - 1, a, b) + EdgeSaid(ls[k - 1], a, b))
  }

  /** At every point of a run the table is the balance of what has been said. */
  ghost predicate Balanced(hs: seq<Heap>, ls: seq<Line>, k: nat)
    requires k < |hs| == |ls| + 1
  {
    && |hs[k].pool| == |hs[k].tab|
    && (forall h :: RootsOn(hs[k], h) == RootBalance(hs, ls, k, h))
    && (forall a, b :: RecordsOf(hs[k], a, b) == EdgeBalance(hs, ls, k, a, b))
  }

  lemma {:induction false} BooksBalance(hs: seq<Heap>, ls: seq<Line>, k: nat)
    requires Books(hs, ls) && k < |hs|
    ensures Balanced(hs, ls, k)
    decreases k
  {
    if k > 0 {
      BooksBalance(hs, ls, k - 1);
      assert BookedAt(hs, ls, k - 1);
      NextBalance(hs, ls, k - 1, k);
    }
  }

  lemma NextBalance(hs: seq<Heap>, ls: seq<Line>, k: nat, k': nat)
    requires k' == k + 1 < |hs| == |ls| + 1 && Balanced(hs, ls, k) && Booked(hs[k], ls[k], hs[k'])
    ensures Balanced(hs, ls, k')
  {
    forall h ensures RootsOn(hs[k'], h) == RootBalance(hs, ls, k', h) {
      if Valid(hs[k'].pool, h) { assert RootBooked(hs[k], ls[k], hs[k'], h); }
    }
    forall a, b ensures RecordsOf(hs[k'], a, b) == EdgeBalance(hs, ls, k', a, b) {
      if Valid(hs[k'].pool, a) && Valid(hs[k'].pool, b) { assert EdgeBooked(hs[k], ls[k], hs[k'], a, b); }
    }
  }

  // ---- one engine -----------------------------------------------------------------------------

  function SaidBy(e: Engine, s: X.Step): Line {
    match s
    case Apply(m) => Said(m)
    case AllocateRooted(i) => if i < |e.pool| then Said(RootAdd(Current(e.pool, i), 1)) else Silent
    case _ => Silent
  }

  lemma StepBooked(e: Engine, s: X.Step, e': Engine)
    requires Settled(e) && X.Taken(e, s, e')
    ensures Booked(HeapOf(e), SaidBy(e, s), HeapOf(e'))
  {
    match s
    case Allocate(i) => ActivateBooked(e, i);
    case AllocateRooted(i) =>
      ActivateBooked(e, i);
      ActivateKeepsSettled(e, i);
      ProcessBooked(Activate(e, i), RootAdd(Current(e.pool, i), 1));
      ProcessKeepsTable(Activate(e, i), RootAdd(Current(e.pool, i), 1));
      forall h ensures RootsOn(HeapOf(e), h) >= 0 { NonNegative(e, h); }
      BookedTwice(HeapOf(e), HeapOf(Activate(e, i)), SaidBy(e, s), HeapOf(e'));
    case Apply(m) => ProcessBooked(e, m);
    case Collect => SweptBooked(e, e');
  }

  ghost function EngineHeaps(es: seq<Engine>): (hs: seq<Heap>)
    ensures |hs| == |es|
  {
    seq(|es|, k requires 0 <= k < |es| => HeapOf(es[k]))
  }

  ghost function EngineLines(es: seq<Engine>, ss: seq<X.Step>): (ls: seq<Line>)
    requires |es| == |ss| + 1
    ensures |ls| == |ss|
  {
    seq(|ss|, k requires 0 <= k < |ss| => SaidBy(es[k], ss[k]))
  }

  /** In every run of one engine, at every point, roots and records are the balance of the messages
      applied: collections change neither. */
  lemma RunBalanced(capacity: nat, es: seq<Engine>, ss: seq<X.Step>, k: nat)
    requires X.Run(capacity, es, ss) && k < |es|
    ensures Balanced(EngineHeaps(es), EngineLines(es, ss), k)
  {
    var hs, ls := EngineHeaps(es), EngineLines(es, ss);
    forall j: nat | j < |ls| ensures BookedAt(hs, ls, j) {
      X.RunKeeps(capacity, es, ss, j);
      assert X.StepAt(es, ss, j);
      StepBooked(es[j], ss[j], es[j + 1]);
    }
    BooksBalance(hs, ls, k);
  }

  // ---- several authorities --------------------------------------------------------------------

  function SaidIn(s: R.World, a: P.Action): Line {
    match a
    case AllocLocal(o, i) => if i < |s.pool| then Said(RootAdd(Current(s.pool, i), 1)) else Silent
    case LocalOp(_, m) => Said(m)
    case WorkerOp(m) => Said(m)
    case _ => Silent
  }

  function WorldHeap(s: R.World): Heap { Heap(s.pool, s.tab) }

  lemma SameBooked(e: Heap)
    requires |e.pool| == |e.tab| && forall h :: RootsOn(e, h) >= 0
    ensures Booked(e, Silent, e)
  {
    forall h | Valid(e.pool, h) ensures RootBooked(e, Silent, e, h) {}
    forall a, b | Valid(e.pool, a) && Valid(e.pool, b) ensures EdgeBooked(e, Silent, e, a, b) {}
  }

  lemma GivenBooked(s: R.World, i: nat, t: R.Tag)
    requires R.Sized(s) && TableOk(s.pool, s.tab) && i < |s.tab| && !LiveAt(s.pool, i)
    ensures Booked(WorldHeap(s), Silent, WorldHeap(P.Given(s, i, t)))
    ensures R.Sized(P.Given(s, i, t)) && TableOk(P.Given(s, i, t).pool, P.Given(s, i, t).tab)
  {
    var e := Engine(s.pool, s.tab, seq(|s.tab|, _ => false), seq(|s.tab|, _ => false), [], []);
    ActivateBooked(e, i);
    BareSettled(e);
    ActivateKeepsSettled(e, i);
  }

  lemma BareSettled(e: Engine)
    requires e.Sized() && TableOk(e.pool, e.tab) && e.zeroStack == [] && e.suspectStack == []
    requires forall i :: 0 <= i < |e.tab| ==> !e.zeroMark[i] && !e.suspectMark[i]
    ensures Settled(e)
  {
  }

  lemma RootsNonNegative(s: R.World)
    requires R.Tidy(s)
    ensures forall h :: RootsOn(WorldHeap(s), h) >= 0
  {
    forall h ensures RootsOn(WorldHeap(s), h) >= 0 {
      if Valid(s.pool, h) { assert RowOk(s.pool, s.tab, h.index); }
    }
  }

  lemma AppliedBooked(s: R.World, k: nat, m: Msg)
    requires R.Sized(s) && TableOk(s.pool, s.tab) && k < |s.marks|
    ensures Booked(WorldHeap(s), Said(m), WorldHeap(P.Applied(s, k, m)))
  {
    ProcessBooked(R.Whole(s, k), m);
  }

  lemma CollectedBooked(s: R.World, k: nat, e: Engine)
    requires R.Sized(s) && TableOk(s.pool, s.tab) && k < |s.marks| && Swept(R.Whole(s, k), e)
    ensures Booked(WorldHeap(s), Silent, WorldHeap(R.Became(s, k, e)))
  {
    SweptBooked(R.Whole(s, k), e);
  }

  lemma AllocLocalBooked(s: R.World, o: nat, i: nat, s': R.World)
    requires R.Struct(s) && P.Acts(s, P.AllocLocal(o, i), s')
    ensures Booked(WorldHeap(s), SaidIn(s, P.AllocLocal(o, i)), WorldHeap(s'))
  {
    var s1, m := P.Given(s, i, R.Tag(R.Local, o)), RootAdd(Current(s.pool, i), 1);
    GivenBooked(s, i, R.Tag(R.Local, o));
    AppliedBooked(s1, R.LocalEngine(o), m);
    ProcessKeepsTable(R.Whole(s1, R.LocalEngine(o)), m);
    RootsNonNegative(s);
    BookedTwice(WorldHeap(s), WorldHeap(s1), Said(m), WorldHeap(s'));
  }

  lemma ActBooked(s: R.World, a: P.Action, s': R.World)
    requires R.Struct(s) && P.Acts(s, a, s')
    ensures Booked(WorldHeap(s), SaidIn(s, a), WorldHeap(s'))
  {
    RootsNonNegative(s);
    match a
    case AllocLocal(o, i) => AllocLocalBooked(s, o, i, s');
    case AllocShared(o, i) => GivenBooked(s, i, R.Tag(R.Shared, o));
    case LocalOp(o, m) => AppliedBooked(s, R.LocalEngine(o), m);
    case Submit(m) => SameBooked(WorldHeap(s));
    case WorkerOp(m) => AppliedBooked(s.(queue := s.queue - multiset{m}), 0, m);
    case SweepBy(k) =>
      var e :| P.SweptBy(s, k, e) && s' == R.Became(s, k, e);
      CollectedBooked(s, k, e);
    case Freeze(o, seeds) =>
      var k := R.LocalEngine(o);
      var e :| P.SweptBy(s, k, e) && s' == P.FrozenAfter(R.Became(s, k, e), o, seeds);
      CollectedBooked(s, k, e);
    case Commit(o) => SameBooked(WorldHeap(s));
  }

  ghost function WorldHeaps(ss: seq<R.World>): (hs: seq<Heap>)
    ensures |hs| == |ss|
  {
    seq(|ss|, k requires 0 <= k < |ss| => WorldHeap(ss[k]))
  }

  ghost function WorldLines(ss: seq<R.World>, acts: seq<P.Action>): (ls: seq<Line>)
    requires |ss| == |acts| + 1
    ensures |ls| == |acts|
  {
    seq(|acts|, k requires 0 <= k < |acts| => SaidIn(ss[k], acts[k]))
  }

  /** In every run of the adaptive runtime the shared table is, at every point, the balance of what the
      owners' engines and the worker have applied: sweeps and hand-overs change no count and no record
      of a survivor. */
  lemma AdaptiveBalanced(ss: seq<R.World>, acts: seq<P.Action>, k: nat)
    requires P.Actions(ss, acts) && k < |ss|
    ensures Balanced(WorldHeaps(ss), WorldLines(ss, acts), k)
  {
    var hs, ls := WorldHeaps(ss), WorldLines(ss, acts);
    forall j: nat | j < |ls| ensures BookedAt(hs, ls, j) {
      ActBookedAt(ss, acts, j);
    }
    P.AlwaysStruct(ss, acts, 0);
    BooksBalance(hs, ls, k);
  }

  lemma ActBookedAt(ss: seq<R.World>, acts: seq<P.Action>, j: nat)
    requires P.Actions(ss, acts) && j < |acts|
    ensures Booked(WorldHeap(ss[j]), SaidIn(ss[j], acts[j]), WorldHeap(ss[j + 1]))
  {
    P.AlwaysStruct(ss, acts, j);
    assert P.ActAt(ss, acts, j);
    ActBooked(ss[j], acts[j], ss[j + 1]);
  }

  // ---- messages to the worker -----------------------------------------------------------------

  /** What a step hands to the worker, and what the worker takes. */
  function Sent(s: R.World, a: P.Action): multiset<Msg> {
    match a
    case Submit(m) => multiset{m}
    case AllocShared(_, i) => if i < |s.pool| then multiset{RootAdd(Current(s.pool, i), 1)} else multiset{}
    case _ => multiset{}
  }

  function Received(a: P.Action): multiset<Msg> {
    if a.WorkerOp? then multiset{a.m} else multiset{}
  }

  ghost function AllSent(ss: seq<R.World>, acts: seq<P.Action>, k: nat): multiset<Msg>
    requires k <= |acts| && |ss| == |acts| + 1
  {
    if k == 0 then multiset{} else AllSent(ss, acts, k - 1) + Sent(ss[k - 1], acts[k - 1])
  }

  ghost function AllReceived(acts: seq<P.Action>, k: nat): multiset<Msg>
    requires k <= |acts|
  {
    if k == 0 then multiset{} else AllReceived(acts, k - 1) + Received(acts[k - 1])
  }

  lemma QueueStep(s: R.World, a: P.Action, s': R.World)
    requires R.Sized(s) && P.Acts(s, a, s')
    ensures s'.queue + Received(a) == s.queue + Sent(s, a)
  {
  }

  /** No message is lost, made up or applied twice: what has been sent is what the worker has applied and
      what still waits. */
  ghost predicate Conserved(ss: seq<R.World>, acts: seq<P.Action>, k: nat)
    requires k < |ss| == |acts| + 1
  {
    AllSent(ss, acts, k) == AllReceived(acts, k) + ss[k].queue
  }

  lemma MessagesConserved(ss: seq<R.World>, acts: seq<P.Action>, k: nat)
    requires P.Actions(ss, acts) && k < |ss|
    ensures Conserved(ss, acts, k)
  {
    forall j: nat | j < |acts| ensures FlowsAt(ss, acts, j) { QueueAt(ss, acts, j); }
    FlowConserves(ss, acts, k);
  }

  ghost predicate FlowsAt(ss: seq<R.World>, acts: seq<P.Action>, k: nat)
    requires k < |acts| && |ss| == |acts| + 1
  {
    ss[k + 1].queue + Received(acts[k]) == ss[k].queue + Sent(ss[k], acts[k])
  }

  lemma {:induction false} FlowConserves(ss: seq<R.World>, acts: seq<P.Action>, k: nat)
    requires |ss| == |acts| + 1 && k < |ss| && ss[0].queue == multiset{} && forall j: nat :: j < |acts| ==> FlowsAt(ss, acts, j)
    ensures Conserved(ss, acts, k)
  {
    if k == 0 {
      NothingSent(ss, acts, k);
    } else {
      FlowConserves(ss, acts, k - 1);
      assert FlowsAt(ss, acts, k - 1);
      StaysConserved(ss, acts, k - 1, k);
    }
  }

  lemma NothingSent(ss: seq<R.World>, acts: seq<P.Action>, k: nat)
    requires |ss| == |acts| + 1 && k == 0 && ss[k].queue == multiset{}
    ensures Conserved(ss, acts, k)
  {
  }

  lemma StaysConserved(ss: seq<R.World>, acts: seq<P.Action>, k: nat, k': nat)
    requires k' == k + 1 < |ss| == |acts| + 1 && Conserved(ss, acts, k)
    requires ss[k'].queue + Received(acts[k]) == ss[k].queue + Sent(ss[k], acts[k])
    ensures Conserved(ss, acts, k')
  {
    Carried(AllSent(ss, acts, k), AllReceived(acts, k), ss[k].queue, ss[k'].queue, Sent(ss[k], acts[k]), Received(acts[k]));
  }

  lemma QueueAt(ss: seq<R.World>, acts: seq<P.Action>, k: nat)
    requires P.Actions(ss, acts) && k < |acts|
    ensures ss[k + 1].queue + Received(acts[k]) == ss[k].queue + Sent(ss[k], acts[k])
  {
    assert P.ActAt(ss, acts, k);
    QueueStep(ss[k], acts[k], ss[k + 1]);
  }

  lemma Carried(sent: multiset<Msg>, received: multiset<Msg>, q: multiset<Msg>, q': multiset<Msg>, s: multiset<Msg>, r: multiset<Msg>)
    requires sent == received + q && q' + r == q + s
    ensures sent + s == received + r + q'
  {
    assert sent + s == received + (q + s) == received + (q' + r);
  }

  // ---- several producers ----------------------------------------------------------------------

  /** The messages the first `n` steps have staged. */
  ghost function StagedBy(acts: seq<C.Act>, n: nat): seq<Msg>
    requires n <= |acts|
  {
    if n == 0 then [] else if acts[n - 1].Stage? then StagedBy(acts, n - 1) + [acts[n - 1].m] else StagedBy(acts, n - 1)
  }

  ghost function Joins(acts: seq<C.Act>, n: nat): nat
    requires n <= |acts|
  {
    if n == 0 then 0 else Joins(acts, n - 1) + if acts[n - 1].Join? then 1 else 0
  }

  /** The logs hold what has been staged, roots and records alike. */
  ghost predicate LogsHold(s: C.World, ms: seq<Msg>) {
    && (forall h :: SumRoot(C.Full(s), h) == NetRoot(ms, h))
    && (forall a, b :: SumEdge(C.Full(s), a, b) == NetEdge(ms, a, b))
  }

  lemma StageHolds(s: C.World, p: nat, m: Msg, s': C.World, ms: seq<Msg>)
    requires LogsHold(s, ms) && C.StageStep(s, p, m, s')
    ensures LogsHold(s', ms + [m])
  {
    assert C.Full(s') == C.Full(s)[p := C.Full(s)[p] + [m]];
    NetAppend(ms, m);
    forall h ensures SumRoot(C.Full(s'), h) == NetRoot(ms + [m], h) { SumRootAppend(C.Full(s), p, m, h); }
    forall a, b ensures SumEdge(C.Full(s'), a, b) == NetEdge(ms + [m], a, b) { SumEdgeAppend(C.Full(s), p, m, a, b); }
  }

  lemma FoldHolds(s: C.World, p: nat, s': C.World, ms: seq<Msg>)
    requires C.Queues(s) && LogsHold(s, ms) && C.FoldStep(s, p, s')
    ensures LogsHold(s', ms)
  {
    assert C.Full(s') == C.Full(s)[p := s'.ps[p].log];
    C.FoldSums(s, p, s');
  }

  lemma JoinHolds(s: C.World, s': C.World, ms: seq<Msg>)
    requires LogsHold(s, ms) && C.JoinStep(s, s')
    ensures LogsHold(s', ms)
  {
    assert C.Full(s') == C.Full(s) + [[]];
    SumNewLog(C.Full(s));
  }

  lemma OtherHolds(s: C.World, a: C.Act, s': C.World, ms: seq<Msg>)
    requires LogsHold(s, ms) && C.Next(s, a, s') && !a.Stage? && !a.FoldBatch? && !a.Join?
    ensures LogsHold(s', ms)
  {
    assert C.Full(s') == C.Full(s);
  }

  /** In every run the logs are the sum of what has been staged, and there are as many producers as have
      joined. */
  lemma {:induction false} StagedIsLogged(capacity: nat, ss: seq<C.World>, acts: seq<C.Act>, k: nat)
    requires CT.Run(capacity, ss, acts) && k < |ss|
    ensures LogsHold(ss[k], StagedBy(acts, k)) && |ss[k].ps| == Joins(acts, k)
  {
    if k > 0 {
      StagedIsLogged(capacity, ss, acts, k - 1);
      HoldsOn(capacity, ss, acts, k - 1, StagedBy(acts, k - 1));
    } else {
      assert C.Full(ss[0]) == [];
    }
  }

  lemma HoldsOn(capacity: nat, ss: seq<C.World>, acts: seq<C.Act>, k: nat, ms: seq<Msg>)
    requires CT.Run(capacity, ss, acts) && k < |acts| && LogsHold(ss[k], ms)
    ensures LogsHold(ss[k + 1], if acts[k].Stage? then ms + [acts[k].m] else ms)
    ensures |ss[k + 1].ps| == |ss[k].ps| + if acts[k].Join? then 1 else 0
  {
    var j := CT.RunKeeps(capacity, ss, acts, k, false);
    assert CT.StepAt(ss, acts, k);
    StepHolds(ss[k], acts[k], ss[k + 1], ms);
  }

  lemma StepHolds(s: C.World, a: C.Act, s': C.World, ms: seq<Msg>)
    requires C.Queues(s) && LogsHold(s, ms) && C.Next(s, a, s')
    ensures LogsHold(s', if a.Stage? then ms + [a.m] else ms) && |s'.ps| == |s.ps| + if a.Join? then 1 else 0
  {
    match a
    case Stage(p, m) => StageHolds(s, p, m, s', ms);
    case FoldBatch(p) => FoldHolds(s, p, s', ms);
    case Join => JoinHolds(s, s', ms);
    case _ => OtherHolds(s, a, s', ms);
  }

  lemma DrainedTaken(s: C.World)
    requires C.Queues(s) && C.AllDrained(s.ps)
    ensures C.Taken(s) == C.Full(s)
  {
    forall p | 0 <= p < |s.ps| ensures C.Taken(s)[p] == C.Full(s)[p] {
      assert C.QueueOk(s.ps[p]) && s.ps[p].head == |s.ps[p].log|;
    }
  }

  /** When everything submitted has been applied, the table holds exactly the roots and records that the
      producers have staged, folded or not. */
  lemma DrainedTable(capacity: nat, ss: seq<C.World>, acts: seq<C.Act>, k: nat)
    requires CT.Run(capacity, ss, acts) && k < |ss| && C.AllDrained(ss[k].ps)
    ensures var e := ss[k].eng; e.Sized() && (forall i: nat :: e.Live(i) ==> e.tab[i].root == NetRoot(StagedBy(acts, k), Current(e.pool, i)))
    ensures var e := ss[k].eng; forall i: nat, j: nat :: e.Live(i) && e.Live(j) ==>
              multiset(e.tab[i].outs)[Current(e.pool, j)] == NetEdge(StagedBy(acts, k), Current(e.pool, i), Current(e.pool, j))
  {
    var c := CT.RunKeeps(capacity, ss, acts, k, false);
    StagedIsLogged(capacity, ss, acts, k);
    DrainedTaken(ss[k]);
    forall i: nat, j: nat | ss[k].eng.Live(i) && ss[k].eng.Live(j)
      ensures multiset(ss[k].eng.tab[i].outs)[Current(ss[k].eng.pool, j)] ==
              NetEdge(StagedBy(acts, k), Current(ss[k].eng.pool, i), Current(ss[k].eng.pool, j))
    {
      assert M.SameRecords(ss[k].eng, C.Taken(ss[k]), i, j);
    }
  }
}
