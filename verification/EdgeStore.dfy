/** The reference table's storage: rows, the arena of edge records, one outgoing and one incoming
    list per row, and the list of free records. */
module EdgeStore {
  import opened Cells
  import opened Chains

  datatype Store = Store(
    root: seq<int>,
    edge: seq<int>,
    src: seq<Handle>,
    dst: seq<Handle>,
    live: seq<bool>,
    nextFree: seq<nat>,
    outs: Chain,
    ins: Chain,
    freeHead: nat,
    liveEdges: int)

  /** The lists the links spell out. */
  datatype Lists = Lists(outs: seq<seq<nat>>, ins: seq<seq<nat>>, free: seq<nat>)

  const NULL := Handle(0xFFFF_FFFF, 0)

  predicate SizedStore(s: Store) {
    && |s.root| == |s.edge| == |s.outs.head| == |s.ins.head|
    && |s.src| == |s.dst| == |s.live| == |s.nextFree| == |s.outs.next| == |s.ins.next| <= NO_EDGE
    && Sized(s.outs) && Sized(s.ins)
  }

  function Keys(hs: seq<Handle>): seq<nat> {
    seq(|hs|, i requires 0 <= i < |hs| => hs[i].index)
  }

  function CountLive(live: seq<bool>): nat {
    if live == [] then 0 else CountLive(live[..|live| - 1]) + if live[|live| - 1] then 1 else 0
  }

  lemma {:induction false} CountLiveUpdate(live: seq<bool>, i: nat, b: bool)
    requires i < |live|
    ensures CountLive(live[i := b]) == CountLive(live) - (if live[i] then 1 else 0) + if b then 1 else 0
  {
    var n := |live| - 1;
    if i == n {
      assert live[i := b][..n] == live[..n];
    } else {
      CountLiveUpdate(live[..n], i, b);
      assert live[i := b][..n] == live[..n][i := b];
    }
  }

  // ---- the invariant --------------------------------------------------------------------------

  ghost predicate FreeChain(head: nat, nextFree: seq<nat>, l: seq<nat>) {
    && Unique(l) && head == At(l, 0)
    && forall p: nat :: p < |l| ==> l[p] < |nextFree| && nextFree[l[p]] == At(l, p + 1)
  }

  ghost predicate Listed(s: Store, t: Lists, id: nat)
    requires SizedStore(s) && id < |s.live|
  {
    && s.src[id].index < |t.outs| && id in t.outs[s.src[id].index]
    && s.dst[id].index < |t.ins| && id in t.ins[s.dst[id].index]
  }

  ghost predicate OnlyLive(live: seq<bool>, lists: seq<seq<nat>>) {
    forall r: nat :: r < |lists| ==> AllLive(live, lists[r])
  }

  ghost predicate AllLive(live: seq<bool>, l: seq<nat>) {
    forall x :: x in l ==> x < |live| && live[x]
  }

  /** `held` is a record taken from the arena and not yet linked. */
  ghost predicate Placed(s: Store, t: Lists, held: set<nat>) {
    && SizedStore(s)
    && (forall id: nat :: id < |s.live| && s.live[id] ==> Listed(s, t, id))
    && (forall id: nat :: id < |s.live| && !s.live[id] ==> (id in t.free <==> id !in held))
    && (forall x :: x in t.free || x in held ==> x < |s.live| && !s.live[x])
  }

  /** Every record is in one place: live and in exactly one outgoing and one incoming list, free, or
      held; counts are list lengths; `liveEdges` counts the live and held records. */
  ghost predicate Shape(s: Store, t: Lists, held: set<nat>) {
    && Placed(s, t, held)
    && Linked(s.outs, Keys(s.src), t.outs) && Linked(s.ins, Keys(s.dst), t.ins)
    && OnlyLive(s.live, t.outs) && OnlyLive(s.live, t.ins)
    && FreeChain(s.freeHead, s.nextFree, t.free)
    && s.liveEdges == CountLive(s.live) + |held|
  }

  lemma NotLiveInNoList(live: seq<bool>, lists: seq<seq<nat>>, id: nat)
    requires OnlyLive(live, lists) && (id >= |live| || !live[id])
    ensures InNoList(lists, id)
  {
    assert forall r: nat :: r < |lists| ==> AllLive(live, lists[r]);
  }

  // ---- taking a record ------------------------------------------------------------------------

  function Take(s: Store): Store
    requires SizedStore(s) && s.freeHead < |s.live|
  {
    var id := s.freeHead;
    s.(freeHead := s.nextFree[id], src := s.src[id := NULL], dst := s.dst[id := NULL],
       live := s.live[id := false], nextFree := s.nextFree[id := NO_EDGE],
       outs := Blank(s.outs, id), ins := Blank(s.ins, id), liveEdges := s.liveEdges + 1)
  }

  function Grow(s: Store): Store {
    s.(src := s.src + [NULL], dst := s.dst + [NULL], live := s.live + [false],
       nextFree := s.nextFree + [NO_EDGE], outs := Grown(s.outs), ins := Grown(s.ins),
       liveEdges := s.liveEdges + 1)
  }

  lemma BlankLinked(c: Chain, hs: seq<Handle>, lists: seq<seq<nat>>, id: nat)
    requires Linked(c, Keys(hs), lists) && id < |c.next| == |hs| && InNoList(lists, id)
    ensures Linked(Blank(c, id), Keys(hs[id := NULL]), lists)
  {
    var c', key' := Blank(c, id), Keys(hs[id := NULL]);
    forall q: nat | q < |lists| ensures ListAt(c', lists[q], q) && Keyed(key', lists[q], q) {
      assert ListAt(c, lists[q], q) && Keyed(Keys(hs), lists[q], q);
      ListFrame(c, c', lists[q], q);
    }
  }

  lemma GrownLinked(c: Chain, hs: seq<Handle>, lists: seq<seq<nat>>)
    requires Linked(c, Keys(hs), lists) && |c.next| == |hs| < NO_EDGE
    ensures Linked(Grown(c), Keys(hs + [NULL]), lists)
  {
    var c', key' := Grown(c), Keys(hs + [NULL]);
    forall q: nat | q < |lists| ensures ListAt(c', lists[q], q) && Keyed(key', lists[q], q) {
      assert ListAt(c, lists[q], q) && Keyed(Keys(hs), lists[q], q);
      forall x | x in lists[q] ensures x < |c.next| { assert Keys(hs)[x] == q; }
      ListFrame(c, c', lists[q], q);
    }
  }

  lemma TakeShape(s: Store, t: Lists)
    requires Shape(s, t, {}) && s.freeHead != NO_EDGE
    ensures s.freeHead < |s.live| && !s.live[s.freeHead] && t.free != [] && t.free[0] == s.freeHead
    ensures Shape(Take(s), t.(free := t.free[1..]), {s.freeHead})
  {
    var id := s.freeHead;
    assert t.free != [] && t.free[0] == id;
    assert id in t.free;
    NotLiveInNoList(s.live, t.outs, id);
    NotLiveInNoList(s.live, t.ins, id);
    BlankLinked(s.outs, s.src, t.outs, id);
    BlankLinked(s.ins, s.dst, t.ins, id);
    assert s.live[id := false] == s.live;
    TakePlaced(s, t);
    TakeFree(s.freeHead, s.nextFree, t.free);
  }

  lemma TakePlaced(s: Store, t: Lists)
    requires Placed(s, t, {}) && Unique(t.free) && t.free != [] && t.free[0] == s.freeHead < |s.live|
    requires !s.live[s.freeHead]
    ensures Placed(Take(s), t.(free := t.free[1..]), {s.freeHead})
  {
    var s', t', head := Take(s), t.(free := t.free[1..]), s.freeHead;
    assert t.free == [head] + t'.free;
    assert s'.live == s.live;
    assert head !in t'.free by { assert Unique(t.free); }
    forall id: nat | id < |s'.live| && s'.live[id] ensures Listed(s', t', id) {
      assert Listed(s, t, id) && id != head;
    }
    forall id: nat | id < |s'.live| && !s'.live[id] ensures id in t'.free <==> id !in {head} {
      assert id in t.free;
    }
    forall x | x in t'.free || x in {head} ensures x < |s'.live| && !s'.live[x] { assert x in t.free; }
  }

  lemma TakeFree(head: nat, nextFree: seq<nat>, l: seq<nat>)
    requires FreeChain(head, nextFree, l) && l != []
    ensures FreeChain(nextFree[head], nextFree[head := NO_EDGE], l[1..])
  {
    var l', nf := l[1..], nextFree[head := NO_EDGE];
    assert nextFree[l[0]] == At(l, 0 + 1);
    forall p: nat | p < |l'| ensures l'[p] < |nf| && nf[l'[p]] == At(l', p + 1) {
      assert l'[p] == l[p + 1] && nextFree[l[p + 1]] == At(l, p + 1 + 1);
    }
  }

  lemma GrowShape(s: Store, t: Lists)
    requires Shape(s, t, {}) && |s.live| < NO_EDGE
    ensures Shape(Grow(s), t, {|s.live|})
  {
    var s' := Grow(s);
    GrownLinked(s.outs, s.src, t.outs);
    GrownLinked(s.ins, s.dst, t.ins);
    assert s'.live[..|s.live|] == s.live;
    GrowPlaced(s, t);
    forall p: nat | p < |t.free| ensures t.free[p] < |s'.nextFree| && s'.nextFree[t.free[p]] == At(t.free, p + 1) {
      assert s.nextFree[t.free[p]] == At(t.free, p + 1);
    }
  }

  lemma GrowPlaced(s: Store, t: Lists)
    requires Placed(s, t, {}) && |s.live| < NO_EDGE
    ensures Placed(Grow(s), t, {|s.live|})
  {
    var s' := Grow(s);
    forall id: nat | id < |s'.live| && s'.live[id] ensures Listed(s', t, id) { assert Listed(s, t, id); }
  }

  // ---- linking it -----------------------------------------------------------------------------

  function Link(s: Store, id: nat, a: Handle, b: Handle): Store
    requires SizedStore(s) && id < |s.live| && a.index < |s.root| && b.index < |s.root|
    requires s.outs.head[a.index] == NO_EDGE || s.outs.head[a.index] < |s.live|
    requires s.ins.head[b.index] == NO_EDGE || s.ins.head[b.index] < |s.live|
  {
    s.(src := s.src[id := a], dst := s.dst[id := b], live := s.live[id := true],
       outs := PushFront(s.outs, a.index, id), ins := PushFront(s.ins, b.index, id))
  }

  function LinkLists(t: Lists, id: nat, a: nat, b: nat): Lists
    requires a < |t.outs| && b < |t.ins|
  {
    t.(outs := t.outs[a := [id] + t.outs[a]], ins := t.ins[b := [id] + t.ins[b]])
  }

  lemma LinkShape(s: Store, t: Lists, id: nat, a: Handle, b: Handle)
    requires Shape(s, t, {id}) && a.index < |s.root| && b.index < |s.root|
    requires id < |s.live| && s.outs.prev[id] == NO_EDGE && s.ins.prev[id] == NO_EDGE
    ensures s.outs.head[a.index] == NO_EDGE || s.outs.head[a.index] < |s.live|
    ensures s.ins.head[b.index] == NO_EDGE || s.ins.head[b.index] < |s.live|
    ensures Shape(Link(s, id, a, b), LinkLists(t, id, a.index, b.index), {})
  {
    LinkChain(s.outs, s.src, s.live, t.outs, id, a);
    LinkChain(s.ins, s.dst, s.live, t.ins, id, b);
    LinkOnlyLive(s.live, t.outs, id, a.index);
    LinkOnlyLive(s.live, t.ins, id, b.index);
    CountLiveUpdate(s.live, id, true);
    LinkPlaced(s, t, id, a, b);
  }

  lemma LinkOnlyLive(live: seq<bool>, lists: seq<seq<nat>>, id: nat, r: nat)
    requires OnlyLive(live, lists) && id < |live| && r < |lists|
    ensures OnlyLive(live[id := true], lists[r := [id] + lists[r]])
  {
    var lists' := lists[r := [id] + lists[r]];
    forall q: nat | q < |lists'| ensures AllLive(live[id := true], lists'[q]) { assert AllLive(live, lists[q]); }
  }

  /** One of the two lists a record joins. */
  lemma LinkChain(c: Chain, ends: seq<Handle>, live: seq<bool>, lists: seq<seq<nat>>, id: nat, h: Handle)
    requires Linked(c, Keys(ends), lists) && OnlyLive(live, lists) && h.index < |lists| && |live| == |ends|
    requires id < |live| && !live[id] && c.prev[id] == NO_EDGE
    ensures c.head[h.index] == NO_EDGE || c.head[h.index] < |live|
    ensures Linked(PushFront(c, h.index, id), Keys(ends[id := h]), lists[h.index := [id] + lists[h.index]])
  {
    NotLiveInNoList(live, lists, id);
    PushLinked(c, Keys(ends), lists, h.index, id);
    assert Keys(ends[id := h]) == Keys(ends)[id := h.index];
  }

  lemma LinkPlaced(s: Store, t: Lists, id: nat, a: Handle, b: Handle)
    requires Placed(s, t, {id}) && a.index < |s.root| && b.index < |s.root| && id < |s.live|
    requires |t.outs| == |t.ins| == |s.root|
    requires s.outs.head[a.index] == NO_EDGE || s.outs.head[a.index] < |s.live|
    requires s.ins.head[b.index] == NO_EDGE || s.ins.head[b.index] < |s.live|
    ensures Placed(Link(s, id, a, b), LinkLists(t, id, a.index, b.index), {})
  {
    var s', t' := Link(s, id, a, b), LinkLists(t, id, a.index, b.index);
    forall x: nat | x < |s'.live| && s'.live[x] ensures Listed(s', t', x) {
      if x != id { assert Listed(s, t, x); }
    }
  }

  // ---- unlinking a live record ----------------------------------------------------------------

  predicate Inside(c: Chain, id: nat)
    requires Sized(c) && id < |c.next|
  {
    && (c.prev[id] == NO_EDGE || c.prev[id] < |c.next|)
    && (c.next[id] == NO_EDGE || c.next[id] < |c.next|)
  }

  predicate Unlinkable(s: Store, id: nat) {
    && SizedStore(s) && id < |s.live| && s.src[id].index < |s.root| && s.dst[id].index < |s.root|
    && Inside(s.outs, id) && Inside(s.ins, id)
  }

  function Unlink(s: Store, id: nat): Store
    requires Unlinkable(s, id)
  {
    s.(outs := Remove(s.outs, s.src[id].index, id), ins := Remove(s.ins, s.dst[id].index, id),
       live := s.live[id := false], liveEdges := s.liveEdges - 1,
       nextFree := s.nextFree[id := s.freeHead], freeHead := id)
  }

  function UnlinkLists(t: Lists, id: nat, a: nat, p: nat, b: nat, q: nat): Lists
    requires a < |t.outs| && p < |t.outs[a]| && b < |t.ins| && q < |t.ins[b]|
  {
    Lists(t.outs[a := Without(t.outs[a], p)], t.ins[b := Without(t.ins[b], q)], [id] + t.free)
  }

  ghost predicate AtPlace(s: Store, t: Lists, id: nat, p: nat, q: nat)
    requires SizedStore(s) && id < |s.live|
  {
    var a, b := s.src[id].index, s.dst[id].index;
    && a < |t.outs| && p < |t.outs[a]| && t.outs[a][p] == id
    && b < |t.ins| && q < |t.ins[b]| && t.ins[b][q] == id
  }

  lemma WhereIs(s: Store, t: Lists, id: nat) returns (p: nat, q: nat)
    requires Shape(s, t, {}) && id < |s.live| && s.live[id]
    ensures Unlinkable(s, id)
    ensures AtPlace(s, t, id, p, q)
  {
    assert Listed(s, t, id);
    var a, b := s.src[id].index, s.dst[id].index;
    p :| 0 <= p < |t.outs[a]| && t.outs[a][p] == id;
    q :| 0 <= q < |t.ins[b]| && t.ins[b][q] == id;
    LinksInside(s.outs, Keys(s.src), t.outs, a, p);
    LinksInside(s.ins, Keys(s.dst), t.ins, b, q);
  }

  lemma InWithout(l: seq<nat>, p: nat)
    requires Unique(l) && p < |l|
    ensures forall x :: x in Without(l, p) <==> x in l && x != l[p]
  {
    forall x | x in l && x != l[p] ensures x in Without(l, p) {
      var j :| 0 <= j < |l| && l[j] == x;
      assert Without(l, p)[if j < p then j else j - 1] == x;
    }
  }

  lemma UnlinkShape(s: Store, t: Lists, id: nat, p: nat, q: nat)
    requires Shape(s, t, {}) && id < |s.live| && s.live[id]
    requires Unlinkable(s, id)
    requires AtPlace(s, t, id, p, q)
    ensures Shape(Unlink(s, id), UnlinkLists(t, id, s.src[id].index, p, s.dst[id].index, q), {})
  {
    var a, b := s.src[id].index, s.dst[id].index;
    RemoveLinked(s.outs, Keys(s.src), t.outs, a, p);
    RemoveLinked(s.ins, Keys(s.dst), t.ins, b, q);
    CountLiveUpdate(s.live, id, false);
    assert ListAt(s.outs, t.outs[a], a) && ListAt(s.ins, t.ins[b], b);
    InWithout(t.outs[a], p);
    InWithout(t.ins[b], q);
    OnlyLiveWithout(s.live, Keys(s.src), t.outs, a, p);
    OnlyLiveWithout(s.live, Keys(s.dst), t.ins, b, q);
    UnlinkPlaced(s, t, id, p, q);
    PutFree(s.freeHead, s.nextFree, t.free, id);
  }

  lemma OnlyLiveWithout(live: seq<bool>, key: seq<nat>, lists: seq<seq<nat>>, a: nat, p: nat)
    requires OnlyLive(live, lists) && a < |lists| && p < |lists[a]| && Unique(lists[a])
    requires forall r: nat :: r < |lists| ==> Keyed(key, lists[r], r)
    ensures lists[a][p] < |live| && OnlyLive(live[lists[a][p] := false], lists[a := Without(lists[a], p)])
  {
    InWithout(lists[a], p);
    var id, lists' := lists[a][p], lists[a := Without(lists[a], p)];
    assert id in lists[a] && Keyed(key, lists[a], a) && AllLive(live, lists[a]);
    forall r: nat | r < |lists'| ensures AllLive(live[id := false], lists'[r]) {
      assert AllLive(live, lists[r]) && Keyed(key, lists[r], r);
    }
  }

  lemma UnlinkPlaced(s: Store, t: Lists, id: nat, p: nat, q: nat)
    requires Placed(s, t, {}) && id < |s.live| && s.live[id]
    requires Unlinkable(s, id)
    requires AtPlace(s, t, id, p, q)
    requires forall x :: x in Without(t.outs[s.src[id].index], p) <==> x in t.outs[s.src[id].index] && x != id
    requires forall x :: x in Without(t.ins[s.dst[id].index], q) <==> x in t.ins[s.dst[id].index] && x != id
    ensures Placed(Unlink(s, id), UnlinkLists(t, id, s.src[id].index, p, s.dst[id].index, q), {})
  {
    var s', t' := Unlink(s, id), UnlinkLists(t, id, s.src[id].index, p, s.dst[id].index, q);
    forall x: nat | x < |s'.live| && s'.live[x] ensures Listed(s', t', x) { assert Listed(s, t, x); }
  }

  lemma PutFree(head: nat, nextFree: seq<nat>, l: seq<nat>, id: nat)
    requires FreeChain(head, nextFree, l) && id < |nextFree| && id !in l
    ensures FreeChain(id, nextFree[id := head], [id] + l)
  {
    var l', nf := [id] + l, nextFree[id := head];
    forall p: nat | p < |l'| ensures l'[p] < |nf| && nf[l'[p]] == At(l', p + 1) {
      if p > 0 { assert l'[p] == l[p - 1] && nextFree[l[p - 1]] == At(l, p - 1 + 1); }
    }
  }
}
