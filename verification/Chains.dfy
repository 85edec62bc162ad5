/** Intrusive doubly linked lists over record ids: one list per row, the links kept in the records. */
module Chains {

  const NO_EDGE: nat := 0xFFFF_FFFF

  /** `head` and `count` per row, `prev` and `next` per record. */
  datatype Chain = Chain(head: seq<nat>, count: seq<int>, prev: seq<nat>, next: seq<nat>)

  predicate Sized(c: Chain) {
    |c.head| == |c.count| && |c.prev| == |c.next| <= NO_EDGE
  }

  // ---- operations -----------------------------------------------------------------------------

  /** A fresh record at the end of the arena, linked nowhere. */
  function Grown(c: Chain): Chain {
    c.(prev := c.prev + [NO_EDGE], next := c.next + [NO_EDGE])
  }

  function Blank(c: Chain, id: nat): Chain
    requires Sized(c) && id < |c.next|
  {
    c.(prev := c.prev[id := NO_EDGE], next := c.next[id := NO_EDGE])
  }

  function PushFront(c: Chain, r: nat, id: nat): Chain
    requires Sized(c) && r < |c.head| && id < |c.next|
    requires c.head[r] == NO_EDGE || c.head[r] < |c.next|
  {
    var h := c.head[r];
    c.(next := c.next[id := h],
       prev := if h != NO_EDGE then c.prev[h := id] else c.prev,
       head := c.head[r := id],
       count := c.count[r := c.count[r] + 1])
  }

  function Remove(c: Chain, r: nat, id: nat): Chain
    requires Sized(c) && r < |c.head| && id < |c.next|
    requires c.prev[id] == NO_EDGE || c.prev[id] < |c.next|
    requires c.next[id] == NO_EDGE || c.next[id] < |c.next|
  {
    var p, n := c.prev[id], c.next[id];
    var next' := if p != NO_EDGE then c.next[p := n] else c.next;
    c.(next := next',
       head := if p != NO_EDGE then c.head else c.head[r := n],
       prev := if n != NO_EDGE then c.prev[n := p] else c.prev,
       count := c.count[r := c.count[r] - 1])
  }

  // ---- what the links mean --------------------------------------------------------------------

  function At(l: seq<nat>, p: int): nat {
    if 0 <= p < |l| then l[p] else NO_EDGE
  }

  predicate Unique(l: seq<nat>) {
    forall p, q :: 0 <= p < q < |l| ==> l[p] != l[q]
  }

  ghost predicate Node(c: Chain, l: seq<nat>, p: nat)
    requires Sized(c) && p < |l|
  {
    l[p] < |c.next| && c.prev[l[p]] == At(l, p - 1) && c.next[l[p]] == At(l, p + 1)
  }

  /** Row `r` of the chain is the list `l`. */
  ghost predicate ListAt(c: Chain, l: seq<nat>, r: nat)
    requires Sized(c) && r < |c.head|
  {
    && Unique(l) && c.head[r] == At(l, 0) && c.count[r] == |l|
    && forall p: nat :: p < |l| ==> Node(c, l, p)
  }

  /** Every row is a list of the records keyed to it. */
  ghost predicate Linked(c: Chain, key: seq<nat>, lists: seq<seq<nat>>) {
    && Sized(c) && |key| == |c.next| && |lists| == |c.head|
    && (forall r: nat :: r < |lists| ==> ListAt(c, lists[r], r))
    && (forall r: nat :: r < |lists| ==> Keyed(key, lists[r], r))
  }

  ghost predicate Keyed(key: seq<nat>, l: seq<nat>, r: nat) {
    forall x :: x in l ==> x < |key| && key[x] == r
  }

  ghost predicate InNoList(lists: seq<seq<nat>>, id: nat) {
    forall r: nat :: r < |lists| ==> id !in lists[r]
  }

  lemma NodeAt(c: Chain, l: seq<nat>, r: nat, p: nat)
    requires Sized(c) && r < |c.head| && ListAt(c, l, r) && p < |l|
    ensures Node(c, l, p)
    ensures p > 0 ==> Node(c, l, p - 1)
    ensures p + 1 < |l| ==> Node(c, l, p + 1)
  {
  }

  // ---- pushing --------------------------------------------------------------------------------

  lemma PushList(c: Chain, l: seq<nat>, r: nat, id: nat)
    requires Sized(c) && r < |c.head| && ListAt(c, l, r) && id < |c.next| && id !in l
    requires c.prev[id] == NO_EDGE
    ensures l != [] ==> Node(c, l, 0)
    ensures ListAt(PushFront(c, r, id), [id] + l, r)
  {
    if l != [] { NodeAt(c, l, r, 0); }
    var c', l' := PushFront(c, r, id), [id] + l;
    forall p: nat | p < |l'| ensures Node(c', l', p) {
      if p > 0 { NodeAt(c, l, r, p - 1); assert l'[p] == l[p - 1]; }
    }
  }

  /** A list without the written records is as it was. */
  lemma ListFrame(c: Chain, c': Chain, l: seq<nat>, r: nat)
    requires Sized(c) && Sized(c') && r < |c.head| && r < |c'.head| && ListAt(c, l, r) && |c'.next| >= |c.next|
    requires c'.head[r] == c.head[r] && c'.count[r] == c.count[r]
    requires forall x :: x in l && x < |c.next| ==> c'.next[x] == c.next[x] && c'.prev[x] == c.prev[x]
    ensures ListAt(c', l, r)
  {
    forall p: nat | p < |l| ensures Node(c', l, p) { NodeAt(c, l, r, p); }
  }

  lemma PushLinked(c: Chain, key: seq<nat>, lists: seq<seq<nat>>, r: nat, id: nat)
    requires Linked(c, key, lists) && r < |lists| && id < |c.next| && InNoList(lists, id)
    requires c.prev[id] == NO_EDGE
    ensures c.head[r] == NO_EDGE || c.head[r] < |c.next|
    ensures Linked(PushFront(c, r, id), key[id := r], lists[r := [id] + lists[r]])
  {
    var l := lists[r];
    PushList(c, l, r, id);
    var c', lists' := PushFront(c, r, id), lists[r := [id] + l];
    forall q: nat | q < |lists'| ensures ListAt(c', lists'[q], q) && Keyed(key[id := r], lists'[q], q) {
      assert ListAt(c, lists[q], q) && Keyed(key, lists[q], q) && Keyed(key, l, r);
      if q != r {
        assert l != [] ==> l[0] in l;
        ListFrame(c, c', lists[q], q);
      }
    }
  }

  // ---- removing -------------------------------------------------------------------------------

  function Without(l: seq<nat>, p: nat): seq<nat>
    requires p < |l|
  {
    l[..p] + l[p + 1..]
  }

  lemma WithoutAt(l: seq<nat>, p: nat, q: int)
    requires p < |l|
    ensures At(Without(l, p), q) == if q < p then At(l, q) else At(l, q + 1)
  {
  }

  lemma RemoveNode(c: Chain, l: seq<nat>, r: nat, p: nat, q: nat)
    requires Sized(c) && r < |c.head| && ListAt(c, l, r) && p < |l| && q < |l| - 1
    requires Node(c, l, p) && (p > 0 ==> Node(c, l, p - 1)) && (p + 1 < |l| ==> Node(c, l, p + 1))
    ensures Node(Remove(c, r, l[p]), Without(l, p), q)
  {
    NodeAt(c, l, r, if q < p then q else q + 1);
    if q < p { NodeBefore(c, l, r, p, q); } else { NodeBehind(c, l, r, p, q); }
  }

  lemma NodeBefore(c: Chain, l: seq<nat>, r: nat, p: nat, q: nat)
    requires Sized(c) && r < |c.head| && Unique(l) && q < p < |l|
    requires Node(c, l, q) && Node(c, l, p) && Node(c, l, p - 1) && (p + 1 < |l| ==> Node(c, l, p + 1))
    ensures Node(Remove(c, r, l[p]), Without(l, p), q)
  {
    WithoutAt(l, p, q - 1);
    WithoutAt(l, p, q + 1);
    assert Without(l, p)[q] == l[q];
    assert q != p - 1 ==> l[q] != l[p - 1];
    assert p + 1 < |l| ==> l[q] != l[p + 1];
  }

  lemma NodeBehind(c: Chain, l: seq<nat>, r: nat, p: nat, q: nat)
    requires Sized(c) && r < |c.head| && Unique(l) && p <= q < |l| - 1
    requires Node(c, l, q + 1) && Node(c, l, p) && (p > 0 ==> Node(c, l, p - 1)) && Node(c, l, p + 1)
    ensures Node(Remove(c, r, l[p]), Without(l, p), q)
  {
    WithoutAt(l, p, q - 1);
    WithoutAt(l, p, q + 1);
    assert Without(l, p)[q] == l[q + 1];
    assert p > 0 ==> l[q + 1] != l[p - 1];
    assert q != p ==> l[q + 1] != l[p + 1];
  }

  lemma RemoveList(c: Chain, l: seq<nat>, r: nat, p: nat)
    requires Sized(c) && r < |c.head| && ListAt(c, l, r) && p < |l|
    ensures Node(c, l, p) && (p > 0 ==> Node(c, l, p - 1)) && (p + 1 < |l| ==> Node(c, l, p + 1))
    ensures ListAt(Remove(c, r, l[p]), Without(l, p), r)
  {
    NodeAt(c, l, r, p);
    var c', l' := Remove(c, r, l[p]), Without(l, p);
    forall q: nat | q < |l'| ensures Node(c', l', q) { RemoveNode(c, l, r, p, q); }
    WithoutAt(l, p, 0);
    forall a, b | 0 <= a < b < |l'| ensures l'[a] != l'[b] {
      var a', b' := if a < p then a else a + 1, if b < p then b else b + 1;
      assert l'[a] == l[a'] && l'[b] == l[b'];
    }
  }

  /** The links of a listed record point into the arena. */
  lemma LinksInside(c: Chain, key: seq<nat>, lists: seq<seq<nat>>, r: nat, p: nat)
    requires Linked(c, key, lists) && r < |lists| && p < |lists[r]|
    ensures var id := lists[r][p];
      && id < |c.next|
      && (c.prev[id] == NO_EDGE || c.prev[id] < |c.next|)
      && (c.next[id] == NO_EDGE || c.next[id] < |c.next|)
  {
    NodeAt(c, lists[r], r, p);
  }

  lemma RemoveLinked(c: Chain, key: seq<nat>, lists: seq<seq<nat>>, r: nat, p: nat)
    requires Linked(c, key, lists) && r < |lists| && p < |lists[r]|
    ensures lists[r][p] < |c.next|
    ensures c.prev[lists[r][p]] == NO_EDGE || c.prev[lists[r][p]] < |c.next|
    ensures c.next[lists[r][p]] == NO_EDGE || c.next[lists[r][p]] < |c.next|
    ensures Linked(Remove(c, r, lists[r][p]), key, lists[r := Without(lists[r], p)])
  {
    LinksInside(c, key, lists, r, p);
    var l := lists[r];
    RemoveList(c, l, r, p);
    var c', lists' := Remove(c, r, l[p]), lists[r := Without(l, p)];
    forall q: nat | q < |lists'| ensures ListAt(c', lists'[q], q) && Keyed(key, lists'[q], q) {
      assert ListAt(c, lists[q], q) && Keyed(key, lists[q], q) && Keyed(key, l, r);
      if q != r {
        RemoveFrame(c, key, l, r, p, lists[q], q);
      } else {
        assert forall x :: x in Without(l, p) ==> x in l;
      }
    }
  }

  lemma RemoveFrame(c: Chain, key: seq<nat>, l: seq<nat>, r: nat, p: nat, l': seq<nat>, q: nat)
    requires Sized(c) && |key| == |c.next| && r < |c.head| && q < |c.head| && q != r && p < |l|
    requires ListAt(c, l, r) && ListAt(c, l', q) && Keyed(key, l, r) && Keyed(key, l', q)
    requires Node(c, l, p) && (p > 0 ==> Node(c, l, p - 1)) && (p + 1 < |l| ==> Node(c, l, p + 1))
    ensures ListAt(Remove(c, r, l[p]), l', q)
  {
    assert p > 0 ==> l[p - 1] in l;
    assert p + 1 < |l| ==> l[p + 1] in l;
    ListFrame(c, Remove(c, r, l[p]), l', q);
  }
}
