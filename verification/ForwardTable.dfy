/** The plain outgoing-multiset table, and the bidirectional table as a refinement of it. */
module ForwardTables {
  import opened Cells
  import opened EngineState
  import opened Chains
  import opened EdgeStore
  import opened RefTables

  datatype Op =
    | AddRoot(i: nat, n: nat)
    | SubRoot(i: nat, n: nat)
    | AddEdgeTo(i: nat)
    | SubEdgeTo(i: nat)
    | AddOut(a: Handle, b: Handle)
    | RemoveOut(a: Handle, b: Handle)
    | ClearOuts(i: nat)
    | ResetSlot(i: nat)

  predicate InRange(op: Op, capacity: nat) {
    match op
    case AddOut(a, b) => a.index < capacity && b.index < capacity
    case RemoveOut(a, b) => a.index < capacity
    case _ => op.i < capacity
  }

  // ---- counts, the same in both tables --------------------------------------------------------

  function RootAfter(root: int, op: Op): int {
    match op
    case AddRoot(_, n) => root + n
    case SubRoot(_, n) => if root < n then 0 else root - n
    case ResetSlot(_) => 0
    case _ => root
  }

  function EdgeAfter(edge: int, op: Op): int {
    match op
    case AddEdgeTo(_) => edge + 1
    case SubEdgeTo(_) => if edge <= 0 then edge else edge - 1
    case ResetSlot(_) => 0
    case _ => edge
  }

  predicate CountOk(root: int, edge: int, op: Op) {
    match op
    case SubRoot(_, n) => root >= n
    case SubEdgeTo(_) => edge > 0
    case _ => true
  }

  // ---- the forward table ----------------------------------------------------------------------

  datatype Forward = Forward(rows: seq<Row>, liveEdges: int)

  /** New records go to the back; a removal takes the oldest match. */
  function ForwardStep(f: Forward, op: Op): (r: (Forward, bool))
    requires InRange(op, |f.rows|)
  {
    match op
    case AddOut(a, b) =>
      var row := f.rows[a.index];
      (Forward(f.rows[a.index := row.(outs := row.outs + [b])], f.liveEdges + 1), true)
    case RemoveOut(a, b) =>
      var row := f.rows[a.index];
      var k := FirstIndex(row.outs, b);
      if k == |row.outs| then (f, false)
      else (Forward(f.rows[a.index := row.(outs := Erase(row.outs, k))], f.liveEdges - 1), true)
    case ClearOuts(i) =>
      var row := f.rows[i];
      (Forward(f.rows[i := row.(outs := [])], f.liveEdges - |row.outs|), true)
    case ResetSlot(i) => (Forward(f.rows[i := EMPTY_ROW], f.liveEdges - |f.rows[i].outs|), true)
    case _ =>
      var row := f.rows[op.i];
      (f.(rows := f.rows[op.i := Row(RootAfter(row.root, op), EdgeAfter(row.edge, op), row.outs)]),
       CountOk(row.root, row.edge, op))
  }

  // ---- the bidirectional table, as its operations promise -------------------------------------

  datatype Reverse = Reverse(root: seq<int>, edge: seq<int>, outs: seq<seq<Edge>>)

  predicate SizedReverse(v: Reverse) { |v.root| == |v.edge| == |v.outs| }

  /** New records go to the front; a removal takes the newest match. */
  function ReverseStep(v: Reverse, op: Op): (r: (Reverse, bool))
    requires SizedReverse(v) && InRange(op, |v.outs|)
    ensures SizedReverse(r.0) && |r.0.outs| == |v.outs|
  {
    match op
    case AddOut(a, b) => (v.(outs := v.outs[a.index := [Edge(a, b)] + v.outs[a.index]]), true)
    case RemoveOut(a, b) =>
      var k := FirstEdge(v.outs[a.index], Edge(a, b));
      if k == |v.outs[a.index]| then (v, false)
      else (v.(outs := v.outs[a.index := EraseAt(v.outs[a.index], k)]), true)
    case ClearOuts(i) => (v.(outs := v.outs[i := []]), true)
    case ResetSlot(i) => (Reverse(v.root[i := 0], v.edge[i := 0], v.outs[i := []]), true)
    case _ =>
      (v.(root := v.root[op.i := RootAfter(v.root[op.i], op)], edge := v.edge[op.i := EdgeAfter(v.edge[op.i], op)]),
       CountOk(v.root[op.i], v.edge[op.i], op))
  }

  // ---- agreement ------------------------------------------------------------------------------

  function TargetsOf(l: seq<Edge>): seq<Handle> {
    seq(|l|, k requires 0 <= k < |l| => l[k].dst)
  }

  ghost predicate SameRow(v: Reverse, f: Forward, i: nat)
    requires SizedReverse(v) && |f.rows| == |v.outs| && i < |v.outs|
  {
    && f.rows[i].root == v.root[i] && f.rows[i].edge == v.edge[i]
    && multiset(f.rows[i].outs) == multiset(TargetsOf(v.outs[i]))
  }

  function Records(v: Reverse, n: nat): nat
    requires n <= |v.outs|
  {
    if n == 0 then 0 else Records(v, n - 1) + |v.outs[n - 1]|
  }

  ghost predicate Agree(v: Reverse, f: Forward) {
    && SizedReverse(v) && |f.rows| == |v.outs|
    && (forall i: nat :: i < |v.outs| ==> SameRow(v, f, i))
    && f.liveEdges == Records(v, |v.outs|)
  }

  /** The bidirectional table compares sources too: a removal must name the source handle under
      which the row's records were added. */
  ghost predicate OwnRow(v: Reverse, op: Op)
    requires InRange(op, |v.outs|)
  {
    op.RemoveOut? ==> forall e :: e in v.outs[op.a.index] ==> e.src == op.a
  }

  lemma {:induction false} RecordsUpdate(v: Reverse, v': Reverse, r: nat, n: nat)
    requires r < n <= |v.outs| == |v'.outs| && forall j :: 0 <= j < n && j != r ==> v'.outs[j] == v.outs[j]
    ensures Records(v', n) == Records(v, n) - |v.outs[r]| + |v'.outs[r]|
  {
    if r < n - 1 {
      RecordsUpdate(v, v', r, n - 1);
    } else {
      RecordsSame(v, v', n - 1);
    }
  }

  lemma {:induction false} RecordsSame(v: Reverse, v': Reverse, n: nat)
    requires n <= |v.outs| == |v'.outs| && forall j :: 0 <= j < n ==> v'.outs[j] == v.outs[j]
    ensures Records(v', n) == Records(v, n)
  {
    if n > 0 { RecordsSame(v, v', n - 1); }
  }

  lemma SameSize(a: seq<Handle>, b: seq<Handle>)
    requires multiset(a) == multiset(b)
    ensures |a| == |b|
  {
    assert |multiset(a)| == |a| && |multiset(b)| == |b|;
  }

  lemma RowAgrees(v: Reverse, f: Forward, v': Reverse, f': Forward, r: nat)
    requires Agree(v, f) && r < |v.outs| && SizedReverse(v') && |v'.outs| == |v.outs| == |f'.rows|
    requires forall j: nat :: j < |v.outs| && j != r ==>
               v'.root[j] == v.root[j] && v'.edge[j] == v.edge[j] && v'.outs[j] == v.outs[j] && f'.rows[j] == f.rows[j]
    requires SameRow(v', f', r) && f'.liveEdges - f.liveEdges == |f'.rows[r].outs| - |f.rows[r].outs|
    ensures Agree(v', f')
  {
    RecordsUpdate(v, v', r, |v.outs|);
    assert SameRow(v, f, r);
    SameSize(f.rows[r].outs, TargetsOf(v.outs[r]));
    SameSize(f'.rows[r].outs, TargetsOf(v'.outs[r]));
    forall i: nat | i < |v'.outs| ensures SameRow(v', f', i) { assert SameRow(v, f, i); }
  }

  lemma TargetsAdd(l: seq<Edge>, outs: seq<Handle>, a: Handle, b: Handle)
    requires multiset(outs) == multiset(TargetsOf(l))
    ensures multiset(outs + [b]) == multiset(TargetsOf([Edge(a, b)] + l))
  {
    assert TargetsOf([Edge(a, b)] + l) == [b] + TargetsOf(l);
  }

  lemma TargetsErase(l: seq<Edge>, k: nat)
    requires k < |l|
    ensures multiset(TargetsOf(EraseAt(l, k))) == multiset(TargetsOf(l)) - multiset{l[k].dst}
  {
    EraseMultiset(TargetsOf(l), k);
    TargetsWithout(l, k);
  }

  lemma TargetsWithout(l: seq<Edge>, k: nat)
    requires k < |l|
    ensures TargetsOf(EraseAt(l, k)) == Erase(TargetsOf(l), k)
  {
  }

  lemma SameMember(l: seq<Edge>, outs: seq<Handle>, a: Handle, b: Handle)
    requires multiset(outs) == multiset(TargetsOf(l)) && forall e :: e in l ==> e.src == a
    ensures Edge(a, b) in l <==> b in outs
  {
    assert b in outs <==> b in multiset(outs);
    assert b in TargetsOf(l) <==> b in multiset(TargetsOf(l));
    if b in TargetsOf(l) {
      var k :| 0 <= k < |l| && TargetsOf(l)[k] == b;
      assert l[k] in l;
    }
    if Edge(a, b) in l {
      var k :| 0 <= k < |l| && l[k] == Edge(a, b);
      assert TargetsOf(l)[k] == b;
    }
  }

  lemma RemoveAgrees(v: Reverse, f: Forward, a: Handle, b: Handle)
    requires Agree(v, f) && InRange(RemoveOut(a, b), |v.outs|) && OwnRow(v, RemoveOut(a, b))
    ensures Agree(ReverseStep(v, RemoveOut(a, b)).0, ForwardStep(f, RemoveOut(a, b)).0)
    ensures ReverseStep(v, RemoveOut(a, b)).1 == ForwardStep(f, RemoveOut(a, b)).1
  {
    var l, outs := v.outs[a.index], f.rows[a.index].outs;
    assert SameRow(v, f, a.index);
    SameMember(l, outs, a, b);
    if b in outs {
      TargetsErase(l, FirstEdge(l, Edge(a, b)));
      EraseMultiset(outs, FirstIndex(outs, b));
      RowAgrees(v, f, ReverseStep(v, RemoveOut(a, b)).0, ForwardStep(f, RemoveOut(a, b)).0, a.index);
    }
  }

  /** Any one operation gives the same answer and leaves the tables in agreement. */
  lemma StepAgrees(v: Reverse, f: Forward, op: Op)
    requires Agree(v, f) && InRange(op, |v.outs|) && OwnRow(v, op)
    ensures Agree(ReverseStep(v, op).0, ForwardStep(f, op).0)
    ensures ReverseStep(v, op).1 == ForwardStep(f, op).1
  {
    if op.RemoveOut? {
      RemoveAgrees(v, f, op.a, op.b);
    } else {
      var r := if op.AddOut? then op.a.index else op.i;
      assert SameRow(v, f, r);
      if op.AddOut? { TargetsAdd(v.outs[r], f.rows[r].outs, op.a, op.b); }
      RowAgrees(v, f, ReverseStep(v, op).0, ForwardStep(f, op).0, r);
    }
  }

  /** On rows, newest first, a removal is the erasure the collection engine performs. */
  lemma RemoveIsErase(l: seq<Edge>, a: Handle, b: Handle)
    requires (forall e :: e in l ==> e.src == a) && Edge(a, b) in l
    ensures b in TargetsOf(l) && FirstIndex(TargetsOf(l), b) == FirstEdge(l, Edge(a, b))
    ensures TargetsOf(EraseAt(l, FirstEdge(l, Edge(a, b)))) == Erase(TargetsOf(l), FirstIndex(TargetsOf(l), b))
  {
    SameFirst(l, a, b);
    TargetsWithout(l, FirstEdge(l, Edge(a, b)));
  }

  lemma {:induction false} SameFirst(l: seq<Edge>, a: Handle, b: Handle)
    requires (forall e :: e in l ==> e.src == a) && Edge(a, b) in l
    ensures b in TargetsOf(l) && FirstIndex(TargetsOf(l), b) == FirstEdge(l, Edge(a, b))
  {
    assert l[0] in l && TargetsOf(l)[1..] == TargetsOf(l[1..]);
    if l[0] != Edge(a, b) {
      assert l == [l[0]] + l[1..];
      SameFirst(l[1..], a, b);
    }
    assert TargetsOf(l)[FirstEdge(l, Edge(a, b))] == b;
  }

  // ---- every sequence of operations -----------------------------------------------------------

  function ForwardRun(f: Forward, ops: seq<Op>): (r: (Forward, seq<bool>))
    requires forall k :: 0 <= k < |ops| ==> InRange(ops[k], |f.rows|)
    ensures |r.0.rows| == |f.rows| && |r.1| == |ops|
  {
    if ops == [] then (f, [])
    else
      var n := |ops| - 1;
      var p := ForwardRun(f, ops[..n]);
      var q := ForwardStep(p.0, ops[n]);
      (q.0, p.1 + [q.1])
  }

  function ReverseRun(v: Reverse, ops: seq<Op>): (r: (Reverse, seq<bool>))
    requires SizedReverse(v) && forall k :: 0 <= k < |ops| ==> InRange(ops[k], |v.outs|)
    ensures SizedReverse(r.0) && |r.0.outs| == |v.outs| && |r.1| == |ops|
  {
    if ops == [] then (v, [])
    else
      var n := |ops| - 1;
      var p := ReverseRun(v, ops[..n]);
      var q := ReverseStep(p.0, ops[n]);
      (q.0, p.1 + [q.1])
  }

  ghost predicate OwnRows(v: Reverse, ops: seq<Op>)
    requires SizedReverse(v) && forall k :: 0 <= k < |ops| ==> InRange(ops[k], |v.outs|)
  {
    forall k: nat :: k < |ops| ==> OwnRowAt(v, ops, k)
  }

  ghost predicate OwnRowAt(v: Reverse, ops: seq<Op>, k: nat)
    requires SizedReverse(v) && (forall k :: 0 <= k < |ops| ==> InRange(ops[k], |v.outs|)) && k < |ops|
  {
    OwnRow(ReverseRun(v, ops[..k]).0, ops[k])
  }

  /** Under every sequence of operations the two tables give the same answers and hold the same
      counts, the same outgoing multisets and the same number of records. */
  lemma {:induction false} RunAgrees(v: Reverse, f: Forward, ops: seq<Op>)
    requires Agree(v, f) && (forall k :: 0 <= k < |ops| ==> InRange(ops[k], |v.outs|)) && OwnRows(v, ops)
    ensures Agree(ReverseRun(v, ops).0, ForwardRun(f, ops).0)
    ensures ReverseRun(v, ops).1 == ForwardRun(f, ops).1
    decreases |ops|
  {
    if ops != [] {
      var n := |ops| - 1;
      var init := ops[..n];
      forall k: nat | k < |init| ensures OwnRowAt(v, init, k) {
        assert OwnRowAt(v, ops, k);
        assert init[..k] == ops[..k];
      }
      RunAgrees(v, f, init);
      assert OwnRowAt(v, ops, n);
      StepAgrees(ReverseRun(v, init).0, ForwardRun(f, init).0, ops[n]);
    }
  }

  // ---- the class does what ReverseStep says ---------------------------------------------------

  ghost function Abs(s: Store, t: Lists): Reverse {
    Reverse(s.root, s.edge, OutRecs(s, t))
  }

  /** A row is reset only when no record of another row targets it. */
  ghost predicate Resettable(v: Reverse, op: Op) {
    op.ResetSlot? ==> forall r: nat, e :: r < |v.outs| && e in v.outs[r] && e.dst.index == op.i ==> r == op.i
  }

  lemma OnlyOwnIncoming(s: Store, t: Lists, i: nat)
    requires Shape(s, t, {}) && i < |s.root| && Resettable(Abs(s, t), ResetSlot(i))
    ensures |InRecs(s, t)| == |s.root| && forall e :: e in InRecs(s, t)[i] ==> e.src.index == i
  {
    HeadAt(s, t, i);
    forall e | e in InRecs(s, t)[i] ensures e.src.index == i {
      var p :| 0 <= p < |t.ins[i]| && Recs(s, t.ins[i])[p] == e;
      var id := t.ins[i][p];
      assert id in t.ins[i] && AllLive(s.live, t.ins[i]) && Keyed(Keys(s.dst), t.ins[i], i);
      assert Listed(s, t, id);
      var o := t.outs[e.src.index];
      var q :| 0 <= q < |o| && o[q] == id;
      assert OutRecs(s, t)[e.src.index][q] == e;
    }
  }

  lemma SameCount(v: Reverse, i: nat)
    requires SizedReverse(v) && i < |v.root|
    ensures v.root[i := v.root[i]] == v.root && v.edge[i := v.edge[i]] == v.edge
  {
  }

  method PerformRoot(table: RefTable, op: Op) returns (ok: bool)
    requires table.Valid() && InRange(op, |table.store.root|) && (op.AddRoot? || op.SubRoot?)
    modifies table
    ensures table.Valid() && |table.store.root| == |old(table.store).root|
    ensures SizedReverse(old(Abs(table.store, table.lists))) && InRange(op, |old(Abs(table.store, table.lists)).outs|)
    ensures (Abs(table.store, table.lists), ok) == ReverseStep(old(Abs(table.store, table.lists)), op)
  {
    HeadAt(table.store, table.lists, op.i);
    SameCount(Abs(table.store, table.lists), op.i);
    if op.AddRoot? {
      table.AddRoot(op.i, op.n);
      ok := true;
    } else {
      ok := table.SubRoot(op.i, op.n);
    }
  }

  method PerformEdgeCount(table: RefTable, op: Op) returns (ok: bool)
    requires table.Valid() && InRange(op, |table.store.root|) && (op.AddEdgeTo? || op.SubEdgeTo?)
    modifies table
    ensures table.Valid() && |table.store.root| == |old(table.store).root|
    ensures SizedReverse(old(Abs(table.store, table.lists))) && InRange(op, |old(Abs(table.store, table.lists)).outs|)
    ensures (Abs(table.store, table.lists), ok) == ReverseStep(old(Abs(table.store, table.lists)), op)
  {
    HeadAt(table.store, table.lists, op.i);
    SameCount(Abs(table.store, table.lists), op.i);
    if op.AddEdgeTo? {
      table.AddEdgeTo(op.i);
      ok := true;
    } else {
      ok := table.SubEdgeTo(op.i);
    }
  }

  /** Every operation of the bidirectional table is its abstract step, unless the record arena is
      exhausted, which refuses an addition and changes nothing. */
  method Perform(table: RefTable, op: Op) returns (exhausted: bool, ok: bool)
    requires table.Valid() && InRange(op, |table.store.root|) && Resettable(Abs(table.store, table.lists), op)
    modifies table
    ensures table.Valid() && |table.store.root| == |old(table.store).root|
    ensures exhausted <==> op.AddOut? && old(table.store).freeHead == NO_EDGE && |old(table.store).live| == NO_EDGE
    ensures exhausted ==> table.store == old(table.store) && table.Outs() == old(table.Outs())
    ensures SizedReverse(old(Abs(table.store, table.lists))) && InRange(op, |old(Abs(table.store, table.lists)).outs|)
    ensures !exhausted ==>
      (Abs(table.store, table.lists), ok) == ReverseStep(old(Abs(table.store, table.lists)), op)
  {
    HeadAt(table.store, table.lists, if op.AddOut? || op.RemoveOut? then op.a.index else op.i);
    exhausted, ok := false, true;
    match op
    case AddOut(a, b) =>
      ok := table.AddOut(a, b);
      exhausted := !ok;
    case RemoveOut(a, b) => ok := table.RemoveOut(a, b);
    case ClearOuts(i) => table.ClearOuts(i);
    case ResetSlot(i) =>
      OnlyOwnIncoming(table.store, table.lists, i);
      table.ResetSlot(i);
    case AddRoot(_, _) => ok := PerformRoot(table, op);
    case SubRoot(_, _) => ok := PerformRoot(table, op);
    case AddEdgeTo(_) => ok := PerformEdgeCount(table, op);
    case SubEdgeTo(_) => ok := PerformEdgeCount(table, op);
  }
}
