/** The bidirectional reference table, and why it is the plain outgoing-multiset table with an exact
    transpose on the side. */
module RefTables {
  import opened Cells
  import opened Chains
  import opened EdgeStore
  import opened EngineState

  datatype Edge = Edge(src: Handle, dst: Handle)

  function EdgeOf(s: Store, id: nat): Edge {
    if id < |s.src| && id < |s.dst| then Edge(s.src[id], s.dst[id]) else Edge(NULL, NULL)
  }

  function Recs(s: Store, l: seq<nat>): seq<Edge> {
    seq(|l|, p requires 0 <= p < |l| => EdgeOf(s, l[p]))
  }

  /** The records of every row, newest first. */
  function RowRecs(s: Store, lists: seq<seq<nat>>): seq<seq<Edge>> {
    seq(|lists|, r requires 0 <= r < |lists| => Recs(s, lists[r]))
  }

  function OutRecs(s: Store, t: Lists): seq<seq<Edge>> { RowRecs(s, t.outs) }

  function InRecs(s: Store, t: Lists): seq<seq<Edge>> { RowRecs(s, t.ins) }

  function EraseAt(l: seq<Edge>, p: nat): seq<Edge>
    requires p < |l|
  {
    l[..p] + l[p + 1..]
  }

  // ---- the abstract lists under each change ---------------------------------------------------

  lemma RecsFrame(s: Store, s': Store, lists: seq<seq<nat>>, r: nat)
    requires r < |lists| && forall x :: x in lists[r] ==> EdgeOf(s', x) == EdgeOf(s, x)
    ensures Recs(s', lists[r]) == Recs(s, lists[r])
  {
  }

  lemma TakeRecs(s: Store, t: Lists)
    requires Shape(s, t, {}) && s.freeHead < |s.live| && !s.live[s.freeHead] && t.free != []
    ensures OutRecs(Take(s), t.(free := t.free[1..])) == OutRecs(s, t)
    ensures InRecs(Take(s), t.(free := t.free[1..])) == InRecs(s, t)
  {
    NotLiveInNoList(s.live, t.outs, s.freeHead);
    NotLiveInNoList(s.live, t.ins, s.freeHead);
    forall r: nat | r < |t.outs| ensures Recs(Take(s), t.outs[r]) == Recs(s, t.outs[r]) { RecsFrame(s, Take(s), t.outs, r); }
    forall r: nat | r < |t.ins| ensures Recs(Take(s), t.ins[r]) == Recs(s, t.ins[r]) { RecsFrame(s, Take(s), t.ins, r); }
  }

  lemma GrowRecs(s: Store, t: Lists)
    requires Shape(s, t, {})
    ensures OutRecs(Grow(s), t) == OutRecs(s, t) && InRecs(Grow(s), t) == InRecs(s, t)
  {
    forall r: nat | r < |t.outs| ensures Recs(Grow(s), t.outs[r]) == Recs(s, t.outs[r]) {
      assert AllLive(s.live, t.outs[r]);
      RecsFrame(s, Grow(s), t.outs, r);
    }
    forall r: nat | r < |t.ins| ensures Recs(Grow(s), t.ins[r]) == Recs(s, t.ins[r]) {
      assert AllLive(s.live, t.ins[r]);
      RecsFrame(s, Grow(s), t.ins, r);
    }
  }

  lemma PushRecs(s: Store, s': Store, lists: seq<seq<nat>>, id: nat, a: nat, r: nat)
    requires a < |lists| && r < |lists| && InNoList(lists, id)
    requires forall x: nat :: x != id ==> EdgeOf(s', x) == EdgeOf(s, x)
    ensures Recs(s', lists[a := [id] + lists[a]][r]) ==
            if r == a then [EdgeOf(s', id)] + Recs(s, lists[a]) else Recs(s, lists[r])
  {
    assert id !in lists[r];
    forall p | 0 <= p < |lists[r]| ensures EdgeOf(s', lists[r][p]) == EdgeOf(s, lists[r][p]) {
      assert lists[r][p] in lists[r];
    }
  }

  lemma LinkRecs(s: Store, t: Lists, id: nat, a: Handle, b: Handle)
    requires Shape(s, t, {id}) && a.index < |s.root| && b.index < |s.root| && id < |s.live|
    requires s.outs.head[a.index] == NO_EDGE || s.outs.head[a.index] < |s.live|
    requires s.ins.head[b.index] == NO_EDGE || s.ins.head[b.index] < |s.live|
    ensures var s', t' := Link(s, id, a, b), LinkLists(t, id, a.index, b.index);
      && OutRecs(s', t') == OutRecs(s, t)[a.index := [Edge(a, b)] + OutRecs(s, t)[a.index]]
      && InRecs(s', t') == InRecs(s, t)[b.index := [Edge(a, b)] + InRecs(s, t)[b.index]]
  {
    NotLiveInNoList(s.live, t.outs, id);
    NotLiveInNoList(s.live, t.ins, id);
    var s' := Link(s, id, a, b);
    assert EdgeOf(s', id) == Edge(a, b);
    assert forall x: nat :: x != id ==> EdgeOf(s', x) == EdgeOf(s, x);
    var o := OutRecs(s, t)[a.index := [Edge(a, b)] + OutRecs(s, t)[a.index]];
    forall r: nat | r < |t.outs| ensures OutRecs(s', LinkLists(t, id, a.index, b.index))[r] == o[r] {
      PushRecs(s, s', t.outs, id, a.index, r);
    }
    var i := InRecs(s, t)[b.index := [Edge(a, b)] + InRecs(s, t)[b.index]];
    forall r: nat | r < |t.ins| ensures InRecs(s', LinkLists(t, id, a.index, b.index))[r] == i[r] {
      PushRecs(s, s', t.ins, id, b.index, r);
    }
  }

  lemma UnlinkRecs(s: Store, t: Lists, id: nat, p: nat, q: nat)
    requires Unlinkable(s, id)
    requires AtPlace(s, t, id, p, q)
    ensures var a, b := s.src[id].index, s.dst[id].index;
      var s', t' := Unlink(s, id), UnlinkLists(t, id, a, p, b, q);
      && OutRecs(s', t') == OutRecs(s, t)[a := EraseAt(OutRecs(s, t)[a], p)]
      && InRecs(s', t') == InRecs(s, t)[b := EraseAt(InRecs(s, t)[b], q)]
  {
    var a, b := s.src[id].index, s.dst[id].index;
    var s', t' := Unlink(s, id), UnlinkLists(t, id, a, p, b, q);
    EraseRecs(s, s', t.outs, a, p);
    EraseRecs(s, s', t.ins, b, q);
  }

  lemma EraseRecs(s: Store, s': Store, lists: seq<seq<nat>>, a: nat, p: nat)
    requires s'.src == s.src && s'.dst == s.dst && a < |lists| && p < |lists[a]|
    ensures RowRecs(s', lists[a := Without(lists[a], p)]) == RowRecs(s, lists)[a := EraseAt(Recs(s, lists[a]), p)]
  {
    SameRecs(s, s', Without(lists[a], p));
    assert Recs(s, Without(lists[a], p)) == EraseAt(Recs(s, lists[a]), p);
    forall r: nat | r < |lists| ensures Recs(s', lists[r]) == Recs(s, lists[r]) { SameRecs(s, s', lists[r]); }
  }

  lemma SameRecs(s: Store, s': Store, l: seq<nat>)
    requires s'.src == s.src && s'.dst == s.dst
    ensures Recs(s', l) == Recs(s, l)
  {
    assert forall id: nat :: EdgeOf(s', id) == EdgeOf(s, id);
  }

  // ---- the transpose --------------------------------------------------------------------------

  ghost function IdsOf(s: Store, l: seq<nat>, e: Edge): set<nat> {
    set id | id in l && EdgeOf(s, id) == e
  }

  lemma {:induction false} CountIsIds(s: Store, l: seq<nat>, e: Edge)
    requires Unique(l)
    ensures multiset(Recs(s, l))[e] == |IdsOf(s, l, e)|
  {
    if l == [] {
      assert IdsOf(s, l, e) == {};
    } else {
      var n := |l| - 1;
      var k := l[..n];
      CountIsIds(s, k, e);
      assert Recs(s, l) == Recs(s, k) + [EdgeOf(s, l[n])];
      assert l[n] !in k;
      assert l == k + [l[n]];
      if EdgeOf(s, l[n]) == e {
        assert IdsOf(s, l, e) == IdsOf(s, k, e) + {l[n]};
      } else {
        assert IdsOf(s, l, e) == IdsOf(s, k, e);
      }
    }
  }

  /** The incoming lists hold exactly the outgoing records, regrouped by target. */
  lemma Transposed(s: Store, t: Lists, e: Edge)
    requires Shape(s, t, {}) && e.src.index < |s.root| && e.dst.index < |s.root|
    ensures |t.outs| == |t.ins| == |s.root|
    ensures multiset(OutRecs(s, t)[e.src.index])[e] == multiset(InRecs(s, t)[e.dst.index])[e]
    ensures forall r: nat :: r < |s.root| && e in OutRecs(s, t)[r] ==> r == e.src.index
    ensures forall r: nat :: r < |s.root| && e in InRecs(s, t)[r] ==> r == e.dst.index
  {
    var o, i := t.outs[e.src.index], t.ins[e.dst.index];
    assert ListAt(s.outs, o, e.src.index) && ListAt(s.ins, i, e.dst.index);
    CountIsIds(s, o, e);
    CountIsIds(s, i, e);
    SameIds(s, t, e);
    RowsKeyed(s, t, e);
  }

  lemma RowsKeyed(s: Store, t: Lists, e: Edge)
    requires Shape(s, t, {})
    ensures |t.outs| == |t.ins| == |s.root|
    ensures forall r: nat :: r < |s.root| && e in OutRecs(s, t)[r] ==> r == e.src.index
    ensures forall r: nat :: r < |s.root| && e in InRecs(s, t)[r] ==> r == e.dst.index
  {
    forall r: nat | r < |s.root| && e in OutRecs(s, t)[r] ensures r == e.src.index {
      var p :| 0 <= p < |t.outs[r]| && Recs(s, t.outs[r])[p] == e;
      var id := t.outs[r][p];
      assert Keyed(Keys(s.src), t.outs[r], r) && id in t.outs[r];
    }
    forall r: nat | r < |s.root| && e in InRecs(s, t)[r] ensures r == e.dst.index {
      var p :| 0 <= p < |t.ins[r]| && Recs(s, t.ins[r])[p] == e;
      var id := t.ins[r][p];
      assert Keyed(Keys(s.dst), t.ins[r], r) && id in t.ins[r];
    }
  }

  lemma SameIds(s: Store, t: Lists, e: Edge)
    requires Shape(s, t, {}) && e.src.index < |t.outs| && e.dst.index < |t.ins|
    ensures IdsOf(s, t.outs[e.src.index], e) == IdsOf(s, t.ins[e.dst.index], e)
  {
    var o, i := t.outs[e.src.index], t.ins[e.dst.index];
    assert AllLive(s.live, o) && AllLive(s.live, i);
    forall id | id in IdsOf(s, o, e) ensures id in i { assert Listed(s, t, id); }
    forall id | id in IdsOf(s, i, e) ensures id in o { assert Listed(s, t, id); }
  }

  // ---- the number of live records -------------------------------------------------------------

  ghost function Lengths(lists: seq<seq<nat>>, n: nat): nat
    requires n <= |lists|
  {
    if n == 0 then 0 else Lengths(lists, n - 1) + |lists[n - 1]|
  }

  ghost function LiveFrom(s: Store, n: nat): set<nat>
    requires SizedStore(s)
  {
    set id: nat | id < |s.live| && s.live[id] && s.src[id].index < n
  }

  ghost function Elements(l: seq<nat>): set<nat> {
    set x | x in l
  }

  lemma {:induction false} UniqueSize(l: seq<nat>)
    requires Unique(l)
    ensures |Elements(l)| == |l|
  {
    if l == [] {
      assert Elements(l) == {};
    } else {
      var n := |l| - 1;
      var k := l[..n];
      UniqueSize(k);
      assert l == k + [l[n]] && l[n] !in k;
      assert Elements(l) == Elements(k) + {l[n]};
    }
  }

  lemma NoneBelow(s: Store, n: nat)
    requires SizedStore(s) && n == 0
    ensures |LiveFrom(s, n)| == 0
  {
    assert LiveFrom(s, n) == {};
  }

  ghost predicate RowLive(s: Store, lists: seq<seq<nat>>, r: nat)
    requires SizedStore(s) && r < |lists|
  {
    |LiveFrom(s, r + 1)| == |LiveFrom(s, r)| + |lists[r]|
  }

  lemma {:induction false} LengthsAreLive(s: Store, lists: seq<seq<nat>>, n: nat)
    requires SizedStore(s) && n <= |lists| && forall r: nat :: r < |lists| ==> RowLive(s, lists, r)
    ensures Lengths(lists, n) == |LiveFrom(s, n)|
  {
    if n == 0 {
      NoneBelow(s, n);
    } else {
      LengthsAreLive(s, lists, n - 1);
      assert RowLive(s, lists, n - 1);
    }
  }

  lemma RowIsLive(s: Store, t: Lists, r: nat)
    requires Shape(s, t, {}) && r < |t.outs|
    ensures RowLive(s, t.outs, r)
  {
    var l := t.outs[r];
    RowIff(s, t, r);
    UniqueSize(l);
    assert LiveFrom(s, r + 1) == LiveFrom(s, r) + Elements(l);
    assert LiveFrom(s, r) !! Elements(l);
  }

  lemma RowIff(s: Store, t: Lists, r: nat)
    requires Shape(s, t, {}) && r < |t.outs|
    ensures Unique(t.outs[r])
    ensures forall id: nat :: id in t.outs[r] <==> id < |s.live| && s.live[id] && s.src[id].index == r
  {
    var l := t.outs[r];
    assert ListAt(s.outs, l, r) && AllLive(s.live, l) && Keyed(Keys(s.src), l, r);
    forall id: nat | id < |s.live| && s.live[id] && s.src[id].index == r ensures id in l { assert Listed(s, t, id); }
  }

  ghost function LiveIds(live: seq<bool>): set<nat> {
    set i: nat | i < |live| && live[i]
  }

  lemma {:induction false} CountIsSize(live: seq<bool>)
    ensures CountLive(live) == |LiveIds(live)|
  {
    if live == [] {
      assert LiveIds(live) == {};
    } else {
      var n := |live| - 1;
      CountIsSize(live[..n]);
      assert LiveIds(live) == LiveIds(live[..n]) + if live[n] then {n} else {};
    }
  }

  /** `liveEdges` is the number of outgoing records over all rows. */
  lemma LiveEdgesCounted(s: Store, t: Lists)
    requires Shape(s, t, {})
    ensures s.liveEdges == Lengths(t.outs, |t.outs|)
  {
    forall r: nat | r < |t.outs| ensures RowLive(s, t.outs, r) { RowIsLive(s, t, r); }
    LengthsAreLive(s, t.outs, |t.outs|);
    CountIsSize(s.live);
    assert LiveFrom(s, |t.outs|) == LiveIds(s.live) by {
      forall id: nat | id < |s.live| && s.live[id] ensures s.src[id].index < |t.outs| { assert Listed(s, t, id); }
    }
  }

  // ---- erasing and filtering abstract lists ---------------------------------------------------

  /** The position of the first record equal to `e`, or the length when there is none. */
  function FirstEdge(l: seq<Edge>, e: Edge): (k: nat)
    ensures k <= |l| && (k < |l| <==> e in l)
    ensures k < |l| ==> l[k] == e
    ensures forall j :: 0 <= j < k ==> l[j] != e
  {
    if l == [] then 0 else if l[0] == e then 0 else 1 + FirstEdge(l[1..], e)
  }

  /** The records of `l` whose source is not row `i`. */
  function Dropping(l: seq<Edge>, i: nat): seq<Edge> {
    if l == [] then []
    else if l[0].src.index == i then Dropping(l[1..], i)
    else [l[0]] + Dropping(l[1..], i)
  }

  lemma {:induction false} DroppingIff(l: seq<Edge>, i: nat, e: Edge)
    ensures e in Dropping(l, i) <==> e in l && e.src.index != i
  {
    if l != [] {
      DroppingIff(l[1..], i, e);
      assert l == [l[0]] + l[1..];
    }
  }

  lemma {:induction false} DroppingErased(l: seq<Edge>, p: nat, i: nat)
    requires p < |l| && l[p].src.index == i
    ensures Dropping(EraseAt(l, p), i) == Dropping(l, i)
  {
    if p == 0 {
      assert EraseAt(l, p) == l[1..];
    } else {
      DroppingErased(l[1..], p - 1, i);
      assert EraseAt(l, p) == [l[0]] + EraseAt(l[1..], p - 1);
      assert EraseAt(l, p)[1..] == EraseAt(l[1..], p - 1);
    }
  }

  lemma {:induction false} DroppingNone(l: seq<Edge>, i: nat)
    requires forall e :: e in l ==> e.src.index != i
    ensures Dropping(l, i) == l
  {
    if l != [] {
      assert l[0] in l;
      DroppingNone(l[1..], i);
    }
  }

  lemma DroppingAll(l: seq<Edge>, i: nat)
    requires forall e :: e in l ==> e.src.index == i
    ensures Dropping(l, i) == []
  {
    var d := Dropping(l, i);
    if d != [] { DroppingIff(l, i, d[0]); }
  }

  lemma EraseEdge(l: seq<Edge>, p: nat)
    requires p < |l|
    ensures multiset(EraseAt(l, p)) == multiset(l) - multiset{l[p]}
  {
    assert l == l[..p] + [l[p]] + l[p + 1..];
  }

  /** `now` is `was` with one record `e` gone from row `r`. */
  ghost predicate OneLess(was: seq<seq<Edge>>, now: seq<seq<Edge>>, r: nat, e: Edge) {
    && |now| == |was| && r < |was|
    && e in was[r] && multiset(now[r]) == multiset(was[r]) - multiset{e}
    && forall j :: 0 <= j < |was| && j != r ==> now[j] == was[j]
  }

  /** A record is where its list says. */
  lemma RecordAt(s: Store, t: Lists, i: nat, k: nat)
    requires Shape(s, t, {}) && i < |s.root| && k < |t.outs[i]|
    ensures var id := t.outs[i][k];
      && id < |s.live| && s.live[id] && s.src[id].index == i && Unique(t.outs[i])
      && s.outs.next[id] == At(t.outs[i], k + 1)
      && OutRecs(s, t)[i][k] == Edge(s.src[id], s.dst[id])
  {
    var l := t.outs[i];
    assert ListAt(s.outs, l, i) && AllLive(s.live, l) && Keyed(Keys(s.src), l, i);
    RecordNode(s, l, i, k);
  }

  lemma RecordNode(s: Store, l: seq<nat>, i: nat, k: nat)
    requires SizedStore(s) && i < |s.root| && k < |l| && ListAt(s.outs, l, i) && AllLive(s.live, l) && Keyed(Keys(s.src), l, i)
    ensures var id := l[k];
      && id < |s.live| && s.live[id] && s.src[id].index == i && Unique(l) && s.outs.next[id] == At(l, k + 1)
  {
    assert l[k] in l && Node(s.outs, l, k);
  }

  lemma HeadAt(s: Store, t: Lists, i: nat)
    requires Shape(s, t, {}) && i < |s.root|
    ensures |t.outs| == |t.ins| == |s.root|
    ensures s.outs.head[i] == At(t.outs[i], 0)
    ensures forall k: nat :: k <= |t.outs[i]| ==> (At(t.outs[i], k) == NO_EDGE <==> k == |t.outs[i]|)
  {
    var l := t.outs[i];
    assert ListAt(s.outs, l, i);
    forall k: nat | k < |l| ensures l[k] != NO_EDGE { RecordAt(s, t, i, k); }
  }

  /** Record `k` of a row, whose list is `l` and whose edges are `row`. */
  ghost predicate Stop(s: Store, l: seq<nat>, row: seq<Edge>, k: nat)
    requires k < |l| == |row|
  {
    var id := l[k];
    && id < |s.src| && id < |s.dst| && id < |s.outs.next| && id != NO_EDGE
    && s.outs.next[id] == At(l, k + 1) && row[k] == Edge(s.src[id], s.dst[id])
  }

  ghost predicate Walkable(s: Store, l: seq<nat>, row: seq<Edge>) {
    |l| == |row| && forall k: nat :: k < |l| ==> Stop(s, l, row, k)
  }

  lemma RowWalkable(s: Store, t: Lists, i: nat)
    requires Shape(s, t, {}) && i < |s.root|
    ensures |t.outs| == |OutRecs(s, t)| == |s.root| && i < |s.outs.head| && s.outs.head[i] == At(t.outs[i], 0)
    ensures Walkable(s, t.outs[i], OutRecs(s, t)[i])
  {
    HeadAt(s, t, i);
    forall k: nat | k < |t.outs[i]| ensures Stop(s, t.outs[i], OutRecs(s, t)[i], k) { RecordAt(s, t, i, k); }
  }

  /** Walk a row's list up to the first record of the edge. */
  method Search(s: Store, ghost l: seq<nat>, ghost row: seq<Edge>, a: Handle, b: Handle) returns (id: nat, ghost k: nat)
    requires Walkable(s, l, row) && a.index < |s.outs.head| && s.outs.head[a.index] == At(l, 0)
    ensures k <= |l| == |row| && id == At(l, k) && NotAmong(row, k, Edge(a, b))
    ensures id == NO_EDGE <==> k == |l|
    ensures id != NO_EDGE ==> row[k] == Edge(a, b)
  {
    id, k := s.outs.head[a.index], 0;
    while id != NO_EDGE
      invariant k <= |l| && id == At(l, k) && NotAmong(row, k, Edge(a, b))
      decreases |l| - k
    {
      assert Stop(s, l, row, k);
      if s.src[id] == a && s.dst[id] == b { return; }
      id, k := s.outs.next[id], k + 1;
    }
    assert k < |l| ==> Stop(s, l, row, k);
  }

  lemma MatchUnlinked(s: Store, t: Lists, id: nat, p: nat, q: nat, k: nat, e: Edge)
    requires Unlinkable(s, id) && AtPlace(s, t, id, p, q) && EdgeOf(s, id) == e
    requires k < |t.outs[e.src.index]| && t.outs[e.src.index][k] == id && Unique(t.outs[e.src.index])
    requires forall j :: 0 <= j < k ==> OutRecs(s, t)[e.src.index][j] != e
    ensures var s', t' := Unlink(s, id), UnlinkLists(t, id, s.src[id].index, p, s.dst[id].index, q);
      var o := OutRecs(s, t)[e.src.index];
      && e in o && OutRecs(s', t') == OutRecs(s, t)[e.src.index := EraseAt(o, FirstEdge(o, e))]
      && OneLess(InRecs(s, t), InRecs(s', t'), e.dst.index, e)
  {
    UnlinkRecs(s, t, id, p, q);
    SamePlace(t.outs[e.src.index], p, k);
    EraseEdge(InRecs(s, t)[e.dst.index], q);
    var o := OutRecs(s, t)[e.src.index];
    assert o[k] == e;
    assert FirstEdge(o, e) == k;
    assert InRecs(s, t)[e.dst.index][q] == e;
  }

  lemma FirstUnlinked(s: Store, t: Lists, id: nat, p: nat, q: nat, i: nat)
    requires Unlinkable(s, id) && AtPlace(s, t, id, p, q) && s.src[id].index == i
    requires t.outs[i][0] == id && Unique(t.outs[i])
    ensures var s', t' := Unlink(s, id), UnlinkLists(t, id, i, p, s.dst[id].index, q);
      && t'.outs[i] == t.outs[i][1..]
      && OutRecs(s', t') == OutRecs(s, t)[i := OutRecs(s, t)[i][1..]]
      && |InRecs(s', t')| == |InRecs(s, t)|
      && forall r :: 0 <= r < |t.ins| ==> Dropping(InRecs(s', t')[r], i) == Dropping(InRecs(s, t)[r], i)
  {
    UnlinkRecs(s, t, id, p, q);
    SamePlace(t.outs[i], p, 0);
    assert EraseAt(OutRecs(s, t)[i], 0) == OutRecs(s, t)[i][1..];
    assert InRecs(s, t)[s.dst[id].index][q] == EdgeOf(s, id);
    DroppingErased(InRecs(s, t)[s.dst[id].index], q, i);
  }

  class RefTable {
    var store: Store
    ghost var lists: Lists

    ghost predicate Valid()
      reads this
    {
      Shape(store, lists, {})
    }

    ghost function Outs(): (o: seq<seq<Edge>>)
      reads this
    {
      OutRecs(store, lists)
    }

    ghost function Ins(): (i: seq<seq<Edge>>)
      reads this
    {
      InRecs(store, lists)
    }

    constructor (capacity: nat)
      ensures Valid() && store.root == store.edge == seq(capacity, _ => 0)
      ensures Outs() == Ins() == seq(capacity, _ => []) && store.liveEdges == 0
    {
      store := EmptyStore(capacity);
      lists := Lists(seq(capacity, _ => []), seq(capacity, _ => []), []);
    }

    method AddRoot(i: nat, n: nat)
      requires Valid() && i < |store.root|
      modifies this
      ensures Valid() && store == old(store).(root := old(store).root[i := old(store).root[i] + n])
      ensures Outs() == old(Outs()) && Ins() == old(Ins())
    {
      Recount(store, lists, store.root[i := store.root[i] + n], store.edge);
      store := store.(root := store.root[i := store.root[i] + n]);
    }

    /** Never drives the count negative: an underflow clears it and is reported. */
    method SubRoot(i: nat, n: nat) returns (ok: bool)
      requires Valid() && i < |store.root|
      modifies this
      ensures Valid() && ok == (old(store).root[i] >= n)
      ensures store == old(store).(root := old(store).root[i := if ok then old(store).root[i] - n else 0])
      ensures Outs() == old(Outs()) && Ins() == old(Ins())
    {
      ok := store.root[i] >= n;
      var left := if ok then store.root[i] - n else 0;
      Recount(store, lists, store.root[i := left], store.edge);
      store := store.(root := store.root[i := left]);
    }

    method AddEdgeTo(i: nat)
      requires Valid() && i < |store.root|
      modifies this
      ensures Valid() && |old(store).edge| == |old(store).root|
      ensures store == old(store).(edge := old(store).edge[i := old(store).edge[i] + 1])
      ensures Outs() == old(Outs()) && Ins() == old(Ins())
    {
      Recount(store, lists, store.root, store.edge[i := store.edge[i] + 1]);
      store := store.(edge := store.edge[i := store.edge[i] + 1]);
    }

    method SubEdgeTo(i: nat) returns (ok: bool)
      requires Valid() && i < |store.root|
      modifies this
      ensures Valid() && |old(store).edge| == |old(store).root| && ok == (old(store).edge[i] > 0)
      ensures store == if ok then old(store).(edge := old(store).edge[i := old(store).edge[i] - 1]) else old(store)
      ensures Outs() == old(Outs()) && Ins() == old(Ins())
    {
      ok := store.edge[i] > 0;
      if ok {
        Recount(store, lists, store.root, store.edge[i := store.edge[i] - 1]);
        store := store.(edge := store.edge[i := store.edge[i] - 1]);
      }
    }

    /** A recycled record if there is one, otherwise a new one; its links are blank. */
    method AllocateEdge() returns (ok: bool, id: nat)
      requires Valid()
      modifies this
      ensures SameRows(store, old(store)) && Outs() == old(Outs()) && Ins() == old(Ins())
      ensures ok <==> old(store).freeHead != NO_EDGE || |old(store).live| < NO_EDGE
      ensures !ok ==> store == old(store) && lists == old(lists)
      ensures ok ==> Shape(store, lists, {id}) && id < |store.live| && store.outs.prev[id] == store.ins.prev[id] == NO_EDGE
    {
      if store.freeHead != NO_EDGE {
        id := PopFree();
        ok := true;
      } else if |store.live| == NO_EDGE {
        ok, id := false, 0;
      } else {
        id := Extend();
        ok := true;
      }
    }

    method PopFree() returns (id: nat)
      requires Valid() && store.freeHead != NO_EDGE
      modifies this
      ensures SameRows(store, old(store)) && Outs() == old(Outs()) && Ins() == old(Ins())
      ensures Shape(store, lists, {id}) && id < |store.live| && store.outs.prev[id] == store.ins.prev[id] == NO_EDGE
    {
      TakeShape(store, lists);
      TakeRecs(store, lists);
      id := store.freeHead;
      store, lists := Take(store), lists.(free := lists.free[1..]);
    }

    method Extend() returns (id: nat)
      requires Valid() && |store.live| < NO_EDGE
      modifies this
      ensures SameRows(store, old(store)) && Outs() == old(Outs()) && Ins() == old(Ins())
      ensures Shape(store, lists, {id}) && id < |store.live| && store.outs.prev[id] == store.ins.prev[id] == NO_EDGE
    {
      GrowShape(store, lists);
      GrowRecs(store, lists);
      id := |store.live|;
      store := Grow(store);
    }

    /** One more record, at the front of the source's outgoing and the target's incoming list. */
    method AddOut(a: Handle, b: Handle) returns (ok: bool)
      requires Valid() && a.index < |store.root| && b.index < |store.root|
      modifies this
      ensures Valid() && SameRows(store, old(store))
      ensures ok <==> old(store).freeHead != NO_EDGE || |old(store).live| < NO_EDGE
      ensures !ok ==> store == old(store) && Outs() == old(Outs()) && Ins() == old(Ins())
      ensures |old(Outs())| == |old(Ins())| == |store.root|
      ensures ok ==> Outs() == old(Outs())[a.index := [Edge(a, b)] + old(Outs())[a.index]]
      ensures ok ==> Ins() == old(Ins())[b.index := [Edge(a, b)] + old(Ins())[b.index]]
    {
      HeadAt(store, lists, a.index);
      var id;
      ok, id := AllocateEdge();
      if ok {
        LinkShape(store, lists, id, a, b);
        LinkRecs(store, lists, id, a, b);
        store, lists := Link(store, id, a, b), LinkLists(lists, id, a.index, b.index);
      }
    }

    /** Take a live record out of both its lists and put it on the free list. */
    method UnlinkEdge(id: nat) returns (ghost p: nat, ghost q: nat)
      requires Valid() && id < |store.live| && store.live[id]
      modifies this
      ensures Valid() && SameRows(store, old(store))
      ensures Unlinkable(old(store), id) && AtPlace(old(store), old(lists), id, p, q)
      ensures store == Unlink(old(store), id)
      ensures lists == UnlinkLists(old(lists), id, old(store).src[id].index, p, old(store).dst[id].index, q)
    {
      p, q := WhereIs(store, lists, id);
      UnlinkShape(store, lists, id, p, q);
      lists := UnlinkLists(lists, id, store.src[id].index, p, store.dst[id].index, q);
      store := Unlink(store, id);
    }

    /** Walk the outgoing list of `a` up to the first record from `a` to `b`. */
    method FindOut(a: Handle, b: Handle) returns (id: nat, ghost k: nat)
      requires Valid() && a.index < |store.root|
      ensures |lists.outs| == |Outs()| == |store.root| && k <= |lists.outs[a.index]|
      ensures id == NO_EDGE <==> Edge(a, b) !in Outs()[a.index]
      ensures forall j :: 0 <= j < k ==> Outs()[a.index][j] != Edge(a, b)
      ensures id != NO_EDGE ==>
        && id < |store.live| && store.live[id] && EdgeOf(store, id) == Edge(a, b) && Unique(lists.outs[a.index])
        && k < |lists.outs[a.index]| && lists.outs[a.index][k] == id
    {
      HeadAt(store, lists, a.index);
      RowWalkable(store, lists, a.index);
      id, k := Search(store, lists.outs[a.index], Outs()[a.index], a, b);
      if id != NO_EDGE { RecordAt(store, lists, a.index, k); }
    }

    /** Remove the newest record from `a` to `b`, if there is one. */
    method RemoveOut(a: Handle, b: Handle) returns (found: bool)
      requires Valid() && a.index < |store.root|
      modifies this
      ensures Valid() && SameRows(store, old(store)) && |old(Outs())| == |store.root|
      ensures found <==> Edge(a, b) in old(Outs())[a.index]
      ensures !found ==> store == old(store) && Outs() == old(Outs()) && Ins() == old(Ins())
      ensures found ==> Outs() == old(Outs())[a.index := EraseAt(old(Outs())[a.index], FirstEdge(old(Outs())[a.index], Edge(a, b)))]
      ensures found ==> OneLess(old(Ins()), Ins(), b.index, Edge(a, b))
    {
      var id, k := FindOut(a, b);
      found := id != NO_EDGE;
      if found {
        ghost var p, q := UnlinkEdge(id);
        MatchUnlinked(old(store), old(lists), id, p, q, k, Edge(a, b));
      }
    }

    /** Unlink the first record of row `i`. */
    method UnlinkFirst(id: nat, i: nat)
      requires Valid() && i < |store.root| && id != NO_EDGE && id == store.outs.head[i]
      modifies this
      ensures Valid() && SameRows(store, old(store))
      ensures |old(Outs())| == |old(Ins())| == |Ins()| == |store.root|
      ensures id < |old(store).outs.next| && store.outs.head[i] == old(store).outs.next[id]
      ensures |old(Outs())[i]| > 0 && Outs() == old(Outs())[i := old(Outs())[i][1..]]
      ensures forall r :: 0 <= r < |store.root| ==> Dropping(Ins()[r], i) == Dropping(old(Ins())[r], i)
    {
      HeadAt(store, lists, i);
      RecordAt(store, lists, i, 0);
      ghost var p, q := UnlinkEdge(id);
      FirstUnlinked(old(store), old(lists), id, p, q, i);
      HeadAt(store, lists, i);
    }

    /** Remove every outgoing record of row `i`: its targets lose exactly those. */
    method ClearOuts(i: nat)
      requires Valid() && i < |store.root|
      modifies this
      ensures Valid() && SameRows(store, old(store))
      ensures |old(Outs())| == |old(Ins())| == |store.root|
      ensures Outs() == old(Outs())[i := []]
      ensures |Ins()| == |store.root| && forall r :: 0 <= r < |store.root| ==> Ins()[r] == Dropping(old(Ins())[r], i)
    {
      ghost var outs, ins := Outs(), Ins();
      HeadAt(store, lists, i);
      var id := store.outs.head[i];
      while id != NO_EDGE
        invariant Valid() && SameRows(store, old(store)) && id == store.outs.head[i] && Clearing(i, outs, ins)
        decreases |Outs()[i]|
      {
        id := ClearFirst(id, i, outs, ins);
      }
      HeadAt(store, lists, i);
      ClearedIns(store, lists, i, ins);
    }

    /** Row `i` has lost its first records, and the incoming lists the same ones. */
    ghost predicate Clearing(i: nat, outs: seq<seq<Edge>>, ins: seq<seq<Edge>>)
      requires Valid()
      reads this
    {
      && i < |store.root| && |Outs()| == |Ins()| == |outs| == |ins| == |store.root|
      && Outs() == outs[i := Outs()[i]]
      && forall r :: 0 <= r < |ins| ==> Dropping(Ins()[r], i) == Dropping(ins[r], i)
    }

    method ClearFirst(id: nat, i: nat, ghost outs: seq<seq<Edge>>, ghost ins: seq<seq<Edge>>) returns (next: nat)
      requires Valid() && Clearing(i, outs, ins) && id == store.outs.head[i] != NO_EDGE
      modifies this
      ensures Valid() && SameRows(store, old(store)) && next == store.outs.head[i] && Clearing(i, outs, ins)
      ensures |Outs()[i]| < |old(Outs())[i]|
    {
      HeadAt(store, lists, i);
      RecordAt(store, lists, i, 0);
      next := store.outs.next[id];
      UnlinkFirst(id, i);
    }

    /** Empty row `i`.  Nothing but its own records may still target it. */
    method ResetSlot(i: nat)
      requires Valid() && i < |store.root|
      requires |Ins()| == |store.root| && forall e :: e in Ins()[i] ==> e.src.index == i
      modifies this
      ensures Valid() && |old(Outs())| == |old(Ins())| == |store.root|
      ensures store.root == old(store).root[i := 0] && store.edge == old(store).edge[i := 0]
      ensures Outs() == old(Outs())[i := []] && |Ins()| == |store.root| && Ins()[i] == []
      ensures forall r :: 0 <= r < |store.root| ==> Ins()[r] == Dropping(old(Ins())[r], i)
    {
      DroppingAll(Ins()[i], i);
      ClearOuts(i);
      assert lists.ins[i] == [] by { assert |InRecs(store, lists)[i]| == 0; }
      assert lists.outs[i] == [] by { assert |OutRecs(store, lists)[i]| == 0; }
      ClearedRow(store, lists, i);
      store := Cleared(store, i);
    }
  }

  function EmptyStore(capacity: nat): Store {
    var none := Chain(seq(capacity, _ => NO_EDGE), seq(capacity, _ => 0), [], []);
    Store(seq(capacity, _ => 0), seq(capacity, _ => 0), [], [], [], [], none, none, NO_EDGE, 0)
  }

  ghost predicate NotAmong(l: seq<Edge>, k: nat, e: Edge) {
    k <= |l| && forall j :: 0 <= j < k ==> l[j] != e
  }

  predicate SameRows(s: Store, s': Store) {
    s.root == s'.root && s.edge == s'.edge
  }

  /** The counts are apart from the lists. */
  lemma Recount(s: Store, t: Lists, root: seq<int>, edge: seq<int>)
    requires Shape(s, t, {}) && |root| == |edge| == |s.root|
    ensures var s' := s.(root := root, edge := edge);
      Shape(s', t, {}) && OutRecs(s', t) == OutRecs(s, t) && InRecs(s', t) == InRecs(s, t)
  {
    var s' := s.(root := root, edge := edge);
    forall id: nat | id < |s.live| && s.live[id] ensures Listed(s', t, id) { assert Listed(s, t, id); }
    assert forall l :: Recs(s', l) == Recs(s, l);
  }

  /** Row `i` set back to its initial value. */
  function Cleared(s: Store, i: nat): Store
    requires SizedStore(s) && i < |s.root|
  {
    s.(root := s.root[i := 0], edge := s.edge[i := 0],
       outs := s.outs.(head := s.outs.head[i := NO_EDGE], count := s.outs.count[i := 0]),
       ins := s.ins.(head := s.ins.head[i := NO_EDGE], count := s.ins.count[i := 0]))
  }

  lemma ClearedRow(s: Store, t: Lists, i: nat)
    requires Shape(s, t, {}) && i < |s.root| && i < |t.outs| && i < |t.ins| && t.outs[i] == [] && t.ins[i] == []
    ensures Shape(Cleared(s, i), t, {})
    ensures OutRecs(Cleared(s, i), t) == OutRecs(s, t) && InRecs(Cleared(s, i), t) == InRecs(s, t)
  {
    assert ListAt(s.outs, t.outs[i], i) && ListAt(s.ins, t.ins[i], i);
    assert Cleared(s, i).outs == s.outs;
    assert Cleared(s, i).ins == s.ins;
    var s' := Cleared(s, i);
    forall id: nat | id < |s.live| && s.live[id] ensures Listed(s', t, id) { assert Listed(s, t, id); }
    assert forall l :: Recs(s', l) == Recs(s, l);
  }

  lemma ClearedIns(s: Store, t: Lists, i: nat, was: seq<seq<Edge>>)
    requires Shape(s, t, {}) && i < |t.outs| && t.outs[i] == [] && |was| == |t.ins|
    requires forall r :: 0 <= r < |was| ==> Dropping(InRecs(s, t)[r], i) == Dropping(was[r], i)
    ensures forall r :: 0 <= r < |was| ==> InRecs(s, t)[r] == Dropping(was[r], i)
  {
    forall r | 0 <= r < |was| ensures InRecs(s, t)[r] == Dropping(was[r], i) {
      NoneFrom(s, t, i, r);
      DroppingNone(InRecs(s, t)[r], i);
    }
  }

  lemma SamePlace(l: seq<nat>, p: nat, k: nat)
    requires Unique(l) && p < |l| && k < |l| && l[p] == l[k]
    ensures p == k
  {
  }

  lemma NoneFrom(s: Store, t: Lists, i: nat, r: nat)
    requires Shape(s, t, {}) && i < |t.outs| && t.outs[i] == [] && r < |t.ins|
    ensures forall e :: e in InRecs(s, t)[r] ==> e.src.index != i
  {
    forall e | e in InRecs(s, t)[r] ensures e.src.index != i {
      var p :| 0 <= p < |t.ins[r]| && Recs(s, t.ins[r])[p] == e;
      var id := t.ins[r][p];
      assert id in t.ins[r] && AllLive(s.live, t.ins[r]);
      assert Listed(s, t, id);
    }
  }
}
