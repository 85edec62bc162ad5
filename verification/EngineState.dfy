/** The collection engine as a value: pool, reference table, marks and candidate stacks, and the
    step that one message makes. */
module EngineState {
  import opened Graphs
  import opened Cells

  datatype Msg =
    | RootAdd(b: Handle, count: nat)
    | RootRemove(b: Handle, count: nat)
    | RootCheck(b: Handle)
    | EdgeAdd(a: Handle, b: Handle)
    | EdgeRemove(a: Handle, b: Handle)
    | Terminate

  datatype Engine = Engine(
    pool: seq<Slot>,
    tab: seq<Row>,
    zeroMark: seq<bool>,
    suspectMark: seq<bool>,
    zeroStack: seq<nat>,
    suspectStack: seq<nat>)
  {
    predicate Sized() {
      |pool| == |tab| == |zeroMark| == |suspectMark|
    }

    predicate Live(i: nat) { LiveAt(pool, i) }

    function TotalOf(i: nat): int
      requires i < |tab|
    {
      tab[i].root + tab[i].edge
    }

    ghost function G(): Graph { Edges(pool, tab) }
  }

  /** An engine over `capacity` free slots. */
  function Init(capacity: nat): Engine {
    Engine(seq(capacity, _ => Slot(1, false)), seq(capacity, _ => EMPTY_ROW),
           seq(capacity, _ => false), seq(capacity, _ => false), [], [])
  }

  // ---- marks ----------------------------------------------------------------------------------

  function MarkZero(e: Engine, i: nat): Engine
    requires e.Sized() && i < |e.tab|
  {
    if e.zeroMark[i] then e
    else e.(zeroMark := e.zeroMark[i := true], zeroStack := e.zeroStack + [i])
  }

  function SetSuspect(e: Engine, i: nat): Engine
    requires e.Sized() && i < |e.tab|
  {
    if e.suspectMark[i] then e
    else e.(suspectMark := e.suspectMark[i := true], suspectStack := e.suspectStack + [i])
  }

  function ClearSuspect(e: Engine, i: nat): Engine
    requires e.Sized() && i < |e.tab|
  {
    e.(suspectMark := e.suspectMark[i := false])
  }

  /** After a count of `i` went down: a zero total is a zero candidate, a cell that still has
      references and points somewhere may have lost its last reference from outside a cycle. */
  function Reconsider(e: Engine, i: nat): Engine
    requires e.Sized() && i < |e.tab|
  {
    if e.TotalOf(i) == 0 then MarkZero(e, i)
    else if e.tab[i].outs != [] then SetSuspect(e, i)
    else e
  }

  // ---- table updates --------------------------------------------------------------------------

  function AddRoot(e: Engine, i: nat, n: nat): Engine
    requires e.Sized() && i < |e.tab|
  {
    e.(tab := e.tab[i := e.tab[i].(root := e.tab[i].root + n)])
  }

  function SetRoot(e: Engine, i: nat, r: int): Engine
    requires e.Sized() && i < |e.tab|
  {
    e.(tab := e.tab[i := e.tab[i].(root := r)])
  }

  function AddEdgeTo(e: Engine, i: nat): Engine
    requires e.Sized() && i < |e.tab|
  {
    e.(tab := e.tab[i := e.tab[i].(edge := e.tab[i].edge + 1)])
  }

  function SubEdgeTo(e: Engine, i: nat): Engine
    requires e.Sized() && i < |e.tab|
  {
    if e.tab[i].edge <= 0 then e
    else e.(tab := e.tab[i := e.tab[i].(edge := e.tab[i].edge - 1)])
  }

  function SetOuts(e: Engine, i: nat, outs: seq<Handle>): Engine
    requires e.Sized() && i < |e.tab|
  {
    e.(tab := e.tab[i := e.tab[i].(outs := outs)])
  }

  /** The position of the first record equal to `h`, or the length when there is none. */
  function FirstIndex(s: seq<Handle>, h: Handle): (k: nat)
    ensures k <= |s|
    ensures k < |s| ==> s[k] == h
    ensures k == |s| <==> h !in s
  {
    if s == [] then 0 else if s[0] == h then 0 else 1 + FirstIndex(s[1..], h)
  }

  function Erase(s: seq<Handle>, k: nat): seq<Handle>
    requires k < |s|
  {
    s[..k] + s[k + 1..]
  }

  lemma EraseMultiset(s: seq<Handle>, k: nat)
    requires k < |s|
    ensures multiset(s) == multiset(Erase(s, k)) + multiset{s[k]}
  {
    assert s == s[..k] + [s[k]] + s[k + 1..];
  }

  /** One message, applied by the engine that owns the rows. */
  function Process(e: Engine, m: Msg): Engine
    requires e.Sized()
  {
    match m
    case RootAdd(b, count) =>
      if Valid(e.pool, b) then AddRoot(e, b.index, count) else e
    case RootRemove(b, count) =>
      if !Valid(e.pool, b) then e
      else if e.tab[b.index].root < count then SetRoot(e, b.index, 0)
      else Reconsider(SetRoot(e, b.index, e.tab[b.index].root - count), b.index)
    case RootCheck(b) =>
      if Valid(e.pool, b) then Reconsider(e, b.index) else e
    case EdgeAdd(a, b) =>
      if !Valid(e.pool, a) || !Valid(e.pool, b) then e
      else
        var e1 := AddEdgeTo(e, b.index);
        SetOuts(e1, a.index, [b] + e1.tab[a.index].outs)
    case EdgeRemove(a, b) =>
      if !Valid(e.pool, a) then e
      else
        var outs := e.tab[a.index].outs;
        var k := FirstIndex(outs, b);
        if k == |outs| then e
        else
          var e1 := SetOuts(e, a.index, Erase(outs, k));
          if !Valid(e.pool, b) then e1
          else if e1.tab[b.index].edge <= 0 then e1
          else Reconsider(SubEdgeTo(e1, b.index), b.index)
    case Terminate => e
  }

  /** A free slot is handed out: the cell is live, nothing refers to it yet. */
  function Activate(e: Engine, i: nat): Engine
    requires e.Sized() && i < |e.tab| && !e.Live(i)
  {
    e.(pool := e.pool[i := e.pool[i].(live := true)])
  }

  // ---- invariants -----------------------------------------------------------------------------

  /** The zero mark and the zero stack agree; only live cells carry marks. */
  ghost predicate ZeroMarksOk(e: Engine)
    requires e.Sized()
  {
    && (forall i :: 0 <= i < |e.tab| ==> (e.zeroMark[i] <==> i in e.zeroStack))
    && (forall k :: 0 <= k < |e.zeroStack| ==> e.zeroStack[k] < |e.tab|)
    && (forall j, k :: 0 <= j < k < |e.zeroStack| ==> e.zeroStack[j] != e.zeroStack[k])
    && (forall i :: 0 <= i < |e.tab| && e.zeroMark[i] ==> e.pool[i].live)
  }

  /** Between sweeps every suspect is on the lazy stack.  Within a sweep a suspect whose total fell
      to zero may have been dropped from it, and is then a zero candidate. */
  ghost predicate SuspectMarksOk(e: Engine)
    requires e.Sized()
  {
    && (forall k :: 0 <= k < |e.suspectStack| ==> e.suspectStack[k] < |e.tab|)
    && (forall i :: 0 <= i < |e.tab| && e.suspectMark[i] ==> e.pool[i].live)
    && (forall i :: 0 <= i < |e.tab| && e.suspectMark[i] && e.TotalOf(i) == 0 ==> e.zeroMark[i])
    && (forall i :: 0 <= i < |e.tab| && e.suspectMark[i] && e.TotalOf(i) > 0 ==>
          i in e.suspectStack)
  }

  ghost predicate Consistent(e: Engine) {
    && e.Sized()
    && TableOk(e.pool, e.tab)
    && ZeroMarksOk(e)
    && SuspectMarksOk(e)
  }

  /** The invariant between messages and sweeps. */
  ghost predicate Settled(e: Engine) {
    && Consistent(e)
    && forall i :: 0 <= i < |e.tab| && e.suspectMark[i] ==> i in e.suspectStack
  }

  lemma InitSettled(capacity: nat)
    ensures Settled(Init(capacity))
  {
  }

  lemma TotalsNonNegative(e: Engine, i: nat)
    requires e.Sized() && TableOk(e.pool, e.tab) && i < |e.tab|
    ensures e.TotalOf(i) >= 0 && e.tab[i].edge >= 0 && e.tab[i].root >= 0
  {
    if e.pool[i].live {
      assert RowOk(e.pool, e.tab, i);
    }
  }

  // ---- what one message keeps -----------------------------------------------------------------

  lemma ReconsiderFrame(e: Engine, i: nat)
    requires e.Sized() && i < |e.tab|
    ensures Reconsider(e, i).Sized()
    ensures Reconsider(e, i).pool == e.pool && Reconsider(e, i).tab == e.tab
  {
  }

  /** Every message, stale or not, keeps the edge counts exact and leaves no dangling record. */
  lemma ProcessKeepsTable(e: Engine, m: Msg)
    requires e.Sized() && TableOk(e.pool, e.tab)
    ensures Process(e, m).Sized() && TableOk(Process(e, m).pool, Process(e, m).tab)
    ensures Process(e, m).pool == e.pool
  {
    match m
    case RootAdd(b, count) =>
      if Valid(e.pool, b) {
        RootChangeKeepsTable(e, b.index, e.tab[b.index].root + count);
      }
    case RootRemove(b, count) => RootRemoveKeepsTable(e, b, count);
    case RootCheck(b) => if Valid(e.pool, b) { ReconsiderFrame(e, b.index); }
    case EdgeAdd(a, b) =>
      if Valid(e.pool, a) && Valid(e.pool, b) {
        EdgeAddKeepsTable(e, a, b);
      }
    case EdgeRemove(a, b) =>
      if Valid(e.pool, a) && b in e.tab[a.index].outs {
        EdgeRemoveShape(e, a, b);
        UnlinkedKeepsTable(e, a.index, b);
        ReconsiderFrame(Unlinked(e, a.index, b), b.index);
      }
    case Terminate =>
  }

  lemma RootRemoveKeepsTable(e: Engine, b: Handle, count: nat)
    requires e.Sized() && TableOk(e.pool, e.tab)
    ensures Process(e, RootRemove(b, count)).Sized()
    ensures TableOk(e.pool, Process(e, RootRemove(b, count)).tab)
    ensures Process(e, RootRemove(b, count)).pool == e.pool
  {
    if Valid(e.pool, b) {
      var r := e.tab[b.index].root;
      RootChangeKeepsTable(e, b.index, if r < count then 0 else r - count);
      ReconsiderFrame(SetRoot(e, b.index, r - count), b.index);
    }
  }

  lemma RootChangeKeepsTable(e: Engine, i: nat, r: nat)
    requires e.Sized() && TableOk(e.pool, e.tab) && e.Live(i)
    ensures TableOk(e.pool, SetRoot(e, i, r).tab)
  {
    var tab' := SetRoot(e, i, r).tab;
    forall j | 0 <= j < |e.pool| && e.pool[j].live
      ensures RowOk(e.pool, tab', j)
    {
      assert RowOk(e.pool, e.tab, j);
      InSame(e.tab, tab', Current(e.pool, j), |e.tab|);
    }
  }

  lemma EdgeAddKeepsTable(e: Engine, a: Handle, b: Handle)
    requires e.Sized() && TableOk(e.pool, e.tab) && Valid(e.pool, a) && Valid(e.pool, b)
    ensures TableOk(e.pool, Process(e, EdgeAdd(a, b)).tab)
  {
    var tab' := Process(e, EdgeAdd(a, b)).tab;
    assert tab'[a.index].outs == [b] + e.tab[a.index].outs;
    assert multiset(tab'[a.index].outs) == multiset(e.tab[a.index].outs) + multiset{b};
    forall j | 0 <= j < |e.pool| && e.pool[j].live
      ensures RowOk(e.pool, tab', j)
    {
      assert RowOk(e.pool, e.tab, j);
      InUpdate(e.tab, tab', Current(e.pool, j), |e.tab|, a.index);
      assert multiset(tab'[a.index].outs)[Current(e.pool, j)] ==
             multiset(e.tab[a.index].outs)[Current(e.pool, j)] + (if Current(e.pool, j) == b then 1 else 0);
    }
  }

  /** The table change of removing one record from `a` to `b`. */
  function Unlinked(e: Engine, a: nat, b: Handle): Engine
    requires e.Sized() && a < |e.tab| && b in e.tab[a].outs && b.index < |e.tab|
  {
    SubEdgeTo(SetOuts(e, a, Erase(e.tab[a].outs, FirstIndex(e.tab[a].outs, b))), b.index)
  }

  /** A recorded edge has a live target with a positive count, so removing it always reaches the
      re-evaluation of the target. */
  lemma EdgeRemoveShape(e: Engine, a: Handle, b: Handle)
    requires e.Sized() && TableOk(e.pool, e.tab) && Valid(e.pool, a)
    requires b in e.tab[a.index].outs
    ensures Valid(e.pool, b) && e.tab[b.index].edge > 0
    ensures Process(e, EdgeRemove(a, b)) == Reconsider(Unlinked(e, a.index, b), b.index)
  {
    assert RowOk(e.pool, e.tab, a.index);
    assert RowOk(e.pool, e.tab, b.index);
    InAtLeast(e.tab, b, |e.tab|, a.index);
  }

  lemma UnlinkedKeepsTable(e: Engine, a: nat, b: Handle)
    requires e.Sized() && TableOk(e.pool, e.tab) && e.Live(a) && Valid(e.pool, b)
    requires b in e.tab[a].outs && e.tab[b.index].edge > 0
    ensures TableOk(e.pool, Unlinked(e, a, b).tab)
  {
    var outs := e.tab[a].outs;
    var k := FirstIndex(outs, b);
    EraseMultiset(outs, k);
    var tab' := Unlinked(e, a, b).tab;
    assert tab'[a].outs == Erase(outs, k);
    assert forall j :: 0 <= j < |tab'| && j != a ==> tab'[j].outs == e.tab[j].outs;
    forall j | 0 <= j < |e.pool| && e.pool[j].live
      ensures RowOk(e.pool, tab', j)
    {
      UnlinkedRow(e, tab', a, b, j);
    }
  }

  lemma UnlinkedRow(e: Engine, tab': seq<Row>, a: nat, b: Handle, j: nat)
    requires e.Sized() && e.Live(j) && RowOk(e.pool, e.tab, j) && a < |e.tab| && Valid(e.pool, b) && |tab'| == |e.tab|
    requires b in e.tab[a].outs && multiset(e.tab[a].outs) == multiset(tab'[a].outs) + multiset{b}
    requires forall i :: 0 <= i < |tab'| && i != a ==> tab'[i].outs == e.tab[i].outs
    requires tab'[j].root == e.tab[j].root
    requires tab'[j].edge == if j == b.index then e.tab[j].edge - 1 else e.tab[j].edge
    ensures RowOk(e.pool, tab', j)
  {
    InUpdate(e.tab, tab', Current(e.pool, j), |e.tab|, a);
    forall t | t in tab'[j].outs ensures Valid(e.pool, t) {
      if j == a {
        assert t in multiset(tab'[a].outs);
        assert t in multiset(e.tab[a].outs);
      }
      assert t in e.tab[j].outs;
    }
  }

  /** A root removal that asks for more than a positive root count clears the count without
      marking the cell. */
  predicate PartialUnderflow(e: Engine, m: Msg)
    requires e.Sized()
  {
    m.RootRemove? && Valid(e.pool, m.b) && 0 < e.tab[m.b.index].root < m.count
  }

  lemma ReconsiderSettled(e: Engine, i: nat)
    requires e.Sized() && TableOk(e.pool, e.tab) && ZeroMarksOk(e) && e.Live(i)
    requires forall k :: 0 <= k < |e.suspectStack| ==> e.suspectStack[k] < |e.tab|
    requires forall j :: 0 <= j < |e.tab| && e.suspectMark[j] ==> e.pool[j].live
    requires forall j :: 0 <= j < |e.tab| && j != i && e.suspectMark[j] && e.TotalOf(j) == 0 ==>
                           e.zeroMark[j]
    requires forall j :: 0 <= j < |e.tab| && e.suspectMark[j] ==> j in e.suspectStack
    ensures Settled(Reconsider(e, i))
  {
    TotalsNonNegative(e, i);
    ReconsiderZeroMarks(e, i);
    var e' := Reconsider(e, i);
    forall j | 0 <= j < |e.tab| ensures e'.suspectMark[j] ==> j in e'.suspectStack {}
  }

  lemma ReconsiderZeroMarks(e: Engine, i: nat)
    requires e.Sized() && ZeroMarksOk(e) && i < |e.tab| && e.Live(i)
    ensures ZeroMarksOk(Reconsider(e, i))
  {
    var e' := Reconsider(e, i);
    forall j | 0 <= j < |e.tab| ensures e'.zeroMark[j] <==> j in e'.zeroStack {
      assert e.zeroMark[j] <==> j in e.zeroStack;
    }
  }

  /** Every message keeps marks and stacks in step, except a partial underflow. */
  lemma ProcessKeepsSettled(e: Engine, m: Msg)
    requires Settled(e) && !PartialUnderflow(e, m)
    ensures Settled(Process(e, m))
  {
    match m
    case RootAdd(b, count) => RootAddKeepsSettled(e, b, count);
    case RootRemove(b, count) => RootRemoveKeepsSettled(e, b, count);
    case RootCheck(b) => if Valid(e.pool, b) { ReconsiderSettled(e, b.index); }
    case EdgeAdd(a, b) => EdgeAddKeepsSettled(e, a, b);
    case EdgeRemove(a, b) => EdgeRemoveKeepsSettled(e, a, b);
    case Terminate =>
  }

  lemma EdgeRemoveKeepsSettled(e: Engine, a: Handle, b: Handle)
    requires Settled(e)
    ensures Settled(Process(e, EdgeRemove(a, b)))
  {
    if Valid(e.pool, a) && b in e.tab[a.index].outs {
      EdgeRemoveShape(e, a, b);
      UnlinkedKeepsSettled(e, a.index, b);
    } else {
      assert Process(e, EdgeRemove(a, b)) == e;
    }
  }

  lemma UnlinkedKeepsSettled(e: Engine, a: nat, b: Handle)
    requires Settled(e) && e.Live(a) && Valid(e.pool, b)
    requires b in e.tab[a].outs && e.tab[b.index].edge > 0
    ensures Settled(Reconsider(Unlinked(e, a, b), b.index))
  {
    UnlinkedKeepsTable(e, a, b);
    UnlinkedTotals(e, a, b);
    ReconsiderSettled(Unlinked(e, a, b), b.index);
  }

  lemma UnlinkedTotals(e: Engine, a: nat, b: Handle)
    requires e.Sized() && a < |e.tab| && b in e.tab[a].outs && b.index < |e.tab|
    ensures Unlinked(e, a, b).Sized()
    ensures forall j :: 0 <= j < |e.tab| && j != b.index ==>
                          Unlinked(e, a, b).TotalOf(j) == e.TotalOf(j)
  {
  }

  lemma RootAddKeepsSettled(e: Engine, b: Handle, count: nat)
    requires Settled(e)
    ensures Settled(Process(e, RootAdd(b, count)))
  {
    ProcessKeepsTable(e, RootAdd(b, count));
    if Valid(e.pool, b) { TotalsNonNegative(e, b.index); }
  }

  lemma EdgeAddKeepsSettled(e: Engine, a: Handle, b: Handle)
    requires Settled(e)
    ensures Settled(Process(e, EdgeAdd(a, b)))
  {
    ProcessKeepsTable(e, EdgeAdd(a, b));
    if Valid(e.pool, a) && Valid(e.pool, b) {
      TotalsNonNegative(e, b.index);
      var e' := Process(e, EdgeAdd(a, b));
      assert forall j :: 0 <= j < |e.tab| ==>
        e'.TotalOf(j) == if j == b.index then e.TotalOf(j) + 1 else e.TotalOf(j);
    }
  }

  lemma RootRemoveKeepsSettled(e: Engine, b: Handle, count: nat)
    requires Settled(e) && !PartialUnderflow(e, RootRemove(b, count))
    ensures Settled(Process(e, RootRemove(b, count)))
  {
    if Valid(e.pool, b) {
      TotalsNonNegative(e, b.index);
      if e.tab[b.index].root < count { NothingRemoved(e, b, count); } else { LoweredSettled(e, b, count); }
    }
  }

  lemma LoweredSettled(e: Engine, b: Handle, count: nat)
    requires Settled(e) && Valid(e.pool, b) && count <= e.tab[b.index].root
    ensures Settled(Process(e, RootRemove(b, count)))
  {
    var r := e.tab[b.index].root - count;
    LowerRootSettled(e, b.index, r);
    assert Process(e, RootRemove(b, count)) == Reconsider(SetRoot(e, b.index, r), b.index);
  }

  lemma LowerRootSettled(e: Engine, i: nat, r: nat)
    requires Settled(e) && e.Live(i) && r <= e.tab[i].root
    ensures Reconsider(SetRoot(e, i, r), i).Sized() && Settled(Reconsider(SetRoot(e, i, r), i))
  {
    RootChangeKeepsTable(e, i, r);
    ReconsiderSettled(SetRoot(e, i, r), i);
  }

  lemma NothingRemoved(e: Engine, b: Handle, count: nat)
    requires e.Sized() && Valid(e.pool, b) && e.tab[b.index].root == 0 < count
    ensures Process(e, RootRemove(b, count)) == e
  {
    assert SetRoot(e, b.index, 0).tab == e.tab;
  }

  lemma NoRecordOfDead(e: Engine, i: nat)
    requires e.Sized() && TableOk(e.pool, e.tab) && i < |e.tab| && !e.Live(i)
    ensures In(e.tab, Current(e.pool, i), |e.tab|) == 0
  {
    var h := Current(e.pool, i);
    if In(e.tab, h, |e.tab|) > 0 {
      var k := InPositive(e.tab, h, |e.tab|);
    }
  }

  lemma ActivateKeepsSettled(e: Engine, i: nat)
    requires Settled(e) && i < |e.tab| && !e.Live(i)
    ensures Settled(Activate(e, i)) && Activate(e, i).G() == e.G()
  {
    var e' := Activate(e, i);
    forall j | 0 <= j < |e.pool| && e'.pool[j].live
      ensures RowOk(e'.pool, e'.tab, j)
    {
      if j != i {
        assert RowOk(e.pool, e.tab, j);
      } else {
        NoRecordOfDead(e, i);
      }
    }
    forall u: nat, v: nat
      ensures (u, v) in e'.G() <==> (u, v) in e.G()
    {
      if u < |e.tab| && v < |e.tab| {
        EdgeIff(e.pool, e.tab, u, v);
        EdgeIff(e'.pool, e'.tab, u, v);
        assert e.pool[u].live ==> RowOk(e.pool, e.tab, u);
      }
    }
  }
}
