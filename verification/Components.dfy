/** May-components of LOCAL cells: lists that only ever merge, so that everything a cell was ever
    connected to can be handed over with it. */
module Components {
  import opened Graphs
  import opened Chains

  /** One owner's store: a list of slots per component header, the header of every slot, and the
      headers that are free. */
  datatype Store = Store(chain: Chain, tail: seq<nat>, compOf: seq<nat>, free: seq<nat>)

  predicate SizedStore(s: Store) {
    Sized(s.chain) && |s.compOf| == |s.chain.next| && |s.tail| == |s.chain.head|
  }

  ghost predicate TailOk(s: Store, lists: seq<seq<nat>>, r: nat)
    requires SizedStore(s) && |lists| == |s.tail| && r < |lists|
  {
    s.tail[r] == At(lists[r], |lists[r]| - 1)
  }

  ghost predicate HomeOk(s: Store, lists: seq<seq<nat>>, x: nat)
    requires x < |s.compOf|
  {
    s.compOf[x] != NO_EDGE ==> s.compOf[x] < |lists| && x in lists[s.compOf[x]]
  }

  /** The free headers are the empty ones that have not been abandoned. */
  ghost predicate FreeOk(free: seq<nat>, lists: seq<seq<nat>>, bad: set<nat>) {
    && Unique(free)
    && (forall r :: r in free ==> r < |lists|)
    && (forall r: nat :: r < |lists| ==> (r in free <==> lists[r] == [] && r !in bad))
    && (forall r :: r in bad ==> r < |lists| && lists[r] == [])
  }

  /** The lists are well formed and partition the slots that have a component: a slot is in exactly
      the list its entry names. */
  ghost predicate Inv(s: Store, lists: seq<seq<nat>>) {
    && SizedStore(s) && |lists| < NO_EDGE
    && Linked(s.chain, s.compOf, lists)
    && (forall r: nat :: r < |lists| ==> TailOk(s, lists, r))
    && (forall x: nat :: x < |s.compOf| ==> HomeOk(s, lists, x))
  }

  lemma KeyedAt(s: Store, lists: seq<seq<nat>>, r: nat, x: nat)
    requires Inv(s, lists) && r < |lists| && x in lists[r]
    ensures x < |s.compOf| && s.compOf[x] == r
  {
    assert Keyed(s.compOf, lists[r], r);
  }

  // ---- headers nobody will use again ----------------------------------------------------------

  function Hidden(head: seq<nat>, bad: set<nat>): (r: seq<nat>)
    ensures |r| == |head|
  {
    seq(|head|, i requires 0 <= i < |head| => if i in bad then NO_EDGE else head[i])
  }

  function Emptied(count: seq<int>, bad: set<nat>): (r: seq<int>)
    ensures |r| == |count|
  {
    seq(|count|, i requires 0 <= i < |count| => if i in bad then 0 else count[i])
  }

  function Forgotten(compOf: seq<nat>, bad: set<nat>): (r: seq<nat>)
    ensures |r| == |compOf|
  {
    seq(|compOf|, i requires 0 <= i < |compOf| => if compOf[i] in bad then NO_EDGE else compOf[i])
  }

  /** The store without the headers `bad`: they are blank and no slot is labelled with them. */
  function Mask(s: Store, bad: set<nat>): Store {
    Store(s.chain.(head := Hidden(s.chain.head, bad), count := Emptied(s.chain.count, bad)), Hidden(s.tail, bad),
          Forgotten(s.compOf, bad), s.free)
  }

  /** A header is abandoned when one of its slots gets a component elsewhere. */
  lemma AbandonInv(s: Store, lists: seq<seq<nat>>, r: nat)
    requires Inv(s, lists) && r < |lists|
    ensures Inv(Mask(s, {r}), lists[r := []])
  {
    var s', lists' := Mask(s, {r}), lists[r := []];
    forall q: nat | q < |lists'| ensures ListAt(s'.chain, lists'[q], q) && Keyed(s'.compOf, lists'[q], q) && TailOk(s', lists', q) {
      assert ListAt(s.chain, lists[q], q) && Keyed(s.compOf, lists[q], q) && TailOk(s, lists, q);
      if q != r { ListFrame(s.chain, s'.chain, lists[q], q); }
    }
    forall x: nat | x < |s'.compOf| ensures HomeOk(s', lists', x) { assert HomeOk(s, lists, x); }
  }

  lemma MaskMore(s: Store, bad: set<nat>, r: nat)
    ensures Mask(Mask(s, bad), {r}) == Mask(s, bad + {r})
  {
  }

  // ---- a new singleton ------------------------------------------------------------------------

  function NewHeader(s: Store): Store {
    s.(chain := s.chain.(head := s.chain.head + [NO_EDGE], count := s.chain.count + [0]), tail := s.tail + [NO_EDGE],
       free := s.free + [|s.chain.head|])
  }

  lemma NewHeaderInv(s: Store, lists: seq<seq<nat>>)
    requires Inv(s, lists) && |lists| + 1 < NO_EDGE
    ensures Inv(NewHeader(s), lists + [[]])
  {
    var s', lists' := NewHeader(s), lists + [[]];
    forall r: nat | r < |lists'| ensures ListAt(s'.chain, lists'[r], r) && Keyed(s'.compOf, lists'[r], r) && TailOk(s', lists', r) {
      if r < |lists| {
        assert ListAt(s.chain, lists[r], r) && Keyed(s.compOf, lists[r], r) && TailOk(s, lists, r);
        ListFrame(s.chain, s'.chain, lists[r], r);
      }
    }
    forall x: nat | x < |s'.compOf| ensures HomeOk(s', lists', x) { assert HomeOk(s, lists, x); }
  }

  lemma NewHeaderFree(free: seq<nat>, lists: seq<seq<nat>>, bad: set<nat>)
    requires FreeOk(free, lists, bad)
    ensures FreeOk(free + [|lists|], lists + [[]], bad)
  {
    forall p | 0 <= p < |free| ensures free[p] < |lists| { assert free[p] in free; }
  }

  lemma MaskNewHeader(s: Store, bad: set<nat>)
    requires SizedStore(s) && |s.tail| !in bad
    ensures Mask(NewHeader(s), bad) == NewHeader(Mask(s, bad))
  {
  }

  /** Header `r`, taken from the free list, becomes the list of `x` alone. */
  function Single(s: Store, r: nat, x: nat): Store
    requires SizedStore(s) && r < |s.tail| && x < |s.compOf| && s.free != []
  {
    Store(Chain(s.chain.head[r := x], s.chain.count[r := 1], s.chain.prev[x := NO_EDGE], s.chain.next[x := NO_EDGE]),
          s.tail[r := x], s.compOf[x := r], s.free[..|s.free| - 1])
  }

  lemma SingleInv(s: Store, lists: seq<seq<nat>>, r: nat, x: nat)
    requires Inv(s, lists) && s.free != [] && r < |lists| && lists[r] == [] && x < |s.compOf| && s.compOf[x] == NO_EDGE
    ensures Inv(Single(s, r, x), lists[r := [x]])
  {
    var s', lists' := Single(s, r, x), lists[r := [x]];
    forall q: nat | q < |lists'| ensures ListAt(s'.chain, lists'[q], q) && Keyed(s'.compOf, lists'[q], q) && TailOk(s', lists', q) {
      assert ListAt(s.chain, lists[q], q) && Keyed(s.compOf, lists[q], q) && TailOk(s, lists, q);
      if q != r { ListFrame(s.chain, s'.chain, lists[q], q); }
    }
    forall y: nat | y < |s'.compOf| ensures HomeOk(s', lists', y) { assert HomeOk(s, lists, y); }
  }

  lemma SingleFree(free: seq<nat>, lists: seq<seq<nat>>, bad: set<nat>, x: nat)
    requires FreeOk(free, lists, bad) && free != []
    ensures var r := free[|free| - 1];
      r < |lists| && lists[r] == [] && r !in bad && FreeOk(free[..|free| - 1], lists[r := [x]], bad)
  {
    var r, rest := free[|free| - 1], free[..|free| - 1];
    assert free == rest + [r];
    assert r in free && r !in rest;
    forall q | q in rest ensures q < |lists| { assert q in free; }
    forall q: nat | q < |lists| ensures q in rest <==> lists[r := [x]][q] == [] && q !in bad {
      assert q in free <==> q in rest || q == r;
    }
  }

  lemma MaskSingle(s: Store, bad: set<nat>, r: nat, x: nat)
    requires SizedStore(s) && r < |s.tail| && x < |s.compOf| && s.free != [] && r !in bad
    ensures Mask(Single(s, r, x), bad) == Single(Mask(s, bad), r, x)
  {
  }

  // ---- merging --------------------------------------------------------------------------------

  /** The list of `b` spliced behind the list of `a`; header `b` is blank. */
  function Splice(s: Store, a: nat, b: nat): Store
    requires SizedStore(s) && a < |s.tail| && b < |s.tail|
    requires s.tail[a] < |s.compOf| && s.chain.head[b] < |s.compOf|
  {
    var last, first := s.tail[a], s.chain.head[b];
    s.(chain := Chain(s.chain.head[b := NO_EDGE], s.chain.count[a := s.chain.count[a] + s.chain.count[b]][b := 0],
                      s.chain.prev[first := last], s.chain.next[last := first]),
       tail := s.tail[a := s.tail[b]][b := NO_EDGE])
  }

  function Joined(lists: seq<seq<nat>>, a: nat, b: nat): seq<seq<nat>>
    requires a < |lists| && b < |lists|
  {
    lists[a := lists[a] + lists[b]][b := []]
  }

  lemma JoinList(c: Chain, c': Chain, l: seq<nat>, m: seq<nat>, a: nat, b: nat)
    requires Sized(c) && Sized(c') && a < |c.head| == |c'.head| && b < |c.head| && ListAt(c, l, a) && ListAt(c, m, b)
    requires l != [] && m != [] && |c.next| == |c'.next| && forall x :: x in l ==> x !in m
    requires l[|l| - 1] < |c.next| && m[0] < |c.next|
    requires c'.prev == c.prev[m[0] := l[|l| - 1]] && c'.next == c.next[l[|l| - 1] := m[0]]
    requires c'.head[a] == c.head[a] && c'.count[a] == |l| + |m|
    ensures ListAt(c', l + m, a)
  {
    var lm := l + m;
    forall p: nat | p < |lm| ensures Node(c', lm, p) {
      if p < |l| {
        NodeAt(c, l, a, p);
        assert l[p] in l && m[0] in m;
      } else {
        NodeAt(c, m, b, p - |l|);
        assert m[p - |l|] in m && l[|l| - 1] in l;
      }
    }
    forall p, q | 0 <= p < q < |lm| ensures lm[p] != lm[q] {
      if p < |l| <= q { assert l[p] in l && m[q - |l|] in m; }
    }
  }

  /** Two different components share no slot. */
  lemma ListsDisjoint(s: Store, lists: seq<seq<nat>>, a: nat, b: nat)
    requires Inv(s, lists) && a < |lists| && b < |lists| && a != b
    ensures forall x :: x in lists[a] ==> x !in lists[b]
  {
    assert Keyed(s.compOf, lists[a], a) && Keyed(s.compOf, lists[b], b);
  }

  /** The merged store, before the slots of `b` have been relabelled. */
  lemma SpliceLists(s: Store, lists: seq<seq<nat>>, a: nat, b: nat)
    requires Inv(s, lists) && a < |lists| && b < |lists| && a != b && lists[a] != [] && lists[b] != []
    ensures s.tail[a] < |s.compOf| && s.chain.head[b] < |s.compOf|
    ensures forall q: nat :: q < |lists| ==>
              ListAt(Splice(s, a, b).chain, Joined(lists, a, b)[q], q) && TailOk(Splice(s, a, b), Joined(lists, a, b), q)
  {
    var l, m := lists[a], lists[b];
    assert ListAt(s.chain, l, a) && ListAt(s.chain, m, b) && TailOk(s, lists, a) && TailOk(s, lists, b);
    NodeAt(s.chain, l, a, |l| - 1);
    NodeAt(s.chain, m, b, 0);
    ListsDisjoint(s, lists, a, b);
    var s', lists' := Splice(s, a, b), Joined(lists, a, b);
    forall q: nat | q < |lists| ensures ListAt(s'.chain, lists'[q], q) && TailOk(s', lists', q) {
      assert ListAt(s.chain, lists[q], q) && TailOk(s, lists, q);
      if q == a {
        JoinList(s.chain, s'.chain, l, m, a, b);
      } else if q != b {
        ListsDisjoint(s, lists, q, a);
        ListsDisjoint(s, lists, q, b);
        assert l[|l| - 1] in l && m[0] in m;
        ListFrame(s.chain, s'.chain, lists[q], q);
      }
    }
  }

  /** Every slot of `l` labelled `a`. */
  function Relabel(compOf: seq<nat>, l: seq<nat>, a: nat): (r: seq<nat>)
    requires forall i :: 0 <= i < |l| ==> l[i] < |compOf|
    ensures |r| == |compOf|
  {
    if l == [] then compOf else Relabel(compOf, l[..|l| - 1], a)[l[|l| - 1] := a]
  }

  lemma {:induction false} RelabelAt(compOf: seq<nat>, l: seq<nat>, a: nat, x: nat)
    requires (forall i :: 0 <= i < |l| ==> l[i] < |compOf|) && x < |compOf|
    ensures Relabel(compOf, l, a)[x] == if x in l then a else compOf[x]
    decreases |l|
  {
    if l != [] {
      RelabelAt(compOf, l[..|l| - 1], a, x);
      assert l == l[..|l| - 1] + [l[|l| - 1]];
    }
  }

  function Merged(s: Store, l: seq<nat>, a: nat, b: nat): Store
    requires SizedStore(s) && a < |s.tail| && b < |s.tail| && s.tail[a] < |s.compOf| && s.chain.head[b] < |s.compOf|
    requires forall i :: 0 <= i < |l| ==> l[i] < |s.compOf|
  {
    Splice(s, a, b).(compOf := Relabel(s.compOf, l, a), free := s.free + [b])
  }

  lemma MergedInv(s: Store, lists: seq<seq<nat>>, a: nat, b: nat)
    requires Inv(s, lists) && a < |lists| && b < |lists| && a != b && lists[a] != [] && lists[b] != []
    ensures s.tail[a] < |s.compOf| && s.chain.head[b] < |s.compOf| && forall i :: 0 <= i < |lists[b]| ==> lists[b][i] < |s.compOf|
    ensures Inv(Merged(s, lists[b], a, b), Joined(lists, a, b))
  {
    SpliceLists(s, lists, a, b);
    assert Keyed(s.compOf, lists[b], b);
    forall i | 0 <= i < |lists[b]| ensures lists[b][i] < |s.compOf| { assert lists[b][i] in lists[b]; }
    var s', lists' := Merged(s, lists[b], a, b), Joined(lists, a, b);
    ListsDisjoint(s, lists, a, b);
    forall q: nat | q < |lists'| ensures ListAt(s'.chain, lists'[q], q) && Keyed(s'.compOf, lists'[q], q) && TailOk(s', lists', q) {
      assert ListAt(Splice(s, a, b).chain, lists'[q], q) && TailOk(Splice(s, a, b), lists', q);
      assert Keyed(s.compOf, lists[q], q);
      if q != a && q != b { ListsDisjoint(s, lists, q, b); }
      forall x | x in lists'[q] ensures x < |s'.compOf| && s'.compOf[x] == q { RelabelAt(s.compOf, lists[b], a, x); }
    }
    forall x: nat | x < |s'.compOf| ensures HomeOk(s', lists', x) {
      assert HomeOk(s, lists, x);
      RelabelAt(s.compOf, lists[b], a, x);
    }
  }

  lemma RetiredFree(free: seq<nat>, lists: seq<seq<nat>>, bad: set<nat>, r: nat)
    requires FreeOk(free, lists, bad) && r < |lists| && lists[r] != []
    ensures FreeOk(free + [r], lists[r := []], bad)
  {
    assert r !in free;
  }

  lemma JoinedFree(free: seq<nat>, lists: seq<seq<nat>>, bad: set<nat>, a: nat, b: nat)
    requires FreeOk(free, lists, bad) && a < |lists| && b < |lists| && a != b && lists[a] != [] && lists[b] != []
    ensures FreeOk(free + [b], Joined(lists, a, b), bad)
  {
    RetiredFree(free, lists, bad, b);
    var lists' := Joined(lists, a, b);
    forall r: nat | r < |lists'| ensures r in free + [b] <==> lists'[r] == [] && r !in bad {
      assert r in free + [b] <==> lists[b := []][r] == [] && r !in bad;
    }
  }

  lemma MaskRelabel(compOf: seq<nat>, bad: set<nat>, l: seq<nat>, a: nat)
    requires (forall i :: 0 <= i < |l| ==> l[i] < |compOf|) && (a in bad ==> a == NO_EDGE)
    ensures Forgotten(Relabel(compOf, l, a), bad) == Relabel(Forgotten(compOf, bad), l, a)
  {
    forall x: nat | x < |compOf| ensures Forgotten(Relabel(compOf, l, a), bad)[x] == Relabel(Forgotten(compOf, bad), l, a)[x] {
      RelabelAt(compOf, l, a, x);
      RelabelAt(Forgotten(compOf, bad), l, a, x);
    }
  }

  lemma MaskMerged(s: Store, bad: set<nat>, l: seq<nat>, a: nat, b: nat)
    requires SizedStore(s) && a < |s.tail| && b < |s.tail| && s.tail[a] < |s.compOf| && s.chain.head[b] < |s.compOf|
    requires (forall i :: 0 <= i < |l| ==> l[i] < |s.compOf|) && a !in bad && b !in bad
    ensures Mask(Merged(s, l, a, b), bad) == Merged(Mask(s, bad), l, a, b)
  {
    MaskRelabel(s.compOf, bad, l, a);
  }

  // ---- taking a slot out ----------------------------------------------------------------------

  function Unlinked(s: Store, x: nat): Store
    requires SizedStore(s) && x < |s.compOf| && s.compOf[x] < |s.tail|
    requires s.chain.prev[x] == NO_EDGE || s.chain.prev[x] < |s.compOf|
    requires s.chain.next[x] == NO_EDGE || s.chain.next[x] < |s.compOf|
  {
    var r := s.compOf[x];
    var c := Remove(s.chain, r, x);
    var s1 := s.(chain := c.(prev := c.prev[x := NO_EDGE], next := c.next[x := NO_EDGE]),
                 tail := if s.chain.next[x] == NO_EDGE then s.tail[r := s.chain.prev[x]] else s.tail,
                 compOf := s.compOf[x := NO_EDGE]);
    if c.count[r] == 0 then s1.(free := s.free + [r]) else s1
  }

  lemma UnlinkedInv(s: Store, lists: seq<seq<nat>>, x: nat, p: nat)
    requires Inv(s, lists) && x < |s.compOf| && s.compOf[x] < |lists|
    requires p < |lists[s.compOf[x]]| && lists[s.compOf[x]][p] == x
    ensures s.chain.prev[x] == NO_EDGE || s.chain.prev[x] < |s.compOf|
    ensures s.chain.next[x] == NO_EDGE || s.chain.next[x] < |s.compOf|
    ensures Inv(Unlinked(s, x), lists[s.compOf[x] := Without(lists[s.compOf[x]], p)])
  {
    var r := s.compOf[x];
    LinksInside(s.chain, s.compOf, lists, r, p);
    var s', lists' := Unlinked(s, x), lists[r := Without(lists[r], p)];
    forall q: nat | q < |lists'| ensures ListAt(s'.chain, lists'[q], q) && Keyed(s'.compOf, lists'[q], q) && TailOk(s', lists', q) {
      UnlinkedList(s, lists, x, p, q);
    }
    assert ListAt(s.chain, lists[r], r);
    InRest(lists[r], p);
    forall y: nat | y < |s'.compOf| ensures HomeOk(s', lists', y) { assert HomeOk(s, lists, y); }
  }

  lemma UnlinkedFree(s: Store, lists: seq<seq<nat>>, bad: set<nat>, x: nat, p: nat)
    requires SizedStore(s) && FreeOk(s.free, lists, bad) && |lists| == |s.tail| && x < |s.compOf| && s.compOf[x] < |lists|
    requires p < |lists[s.compOf[x]]| && s.chain.count[s.compOf[x]] == |lists[s.compOf[x]]|
    requires s.chain.prev[x] == NO_EDGE || s.chain.prev[x] < |s.compOf|
    requires s.chain.next[x] == NO_EDGE || s.chain.next[x] < |s.compOf|
    ensures FreeOk(Unlinked(s, x).free, lists[s.compOf[x] := Without(lists[s.compOf[x]], p)], bad)
  {
    var r := s.compOf[x];
    assert r !in s.free && |Without(lists[r], p)| == |lists[r]| - 1;
    var free := Unlinked(s, x).free;
    assert free == if |lists[r]| == 1 then s.free + [r] else s.free;
  }

  lemma MaskUnlinked(s: Store, bad: set<nat>, x: nat)
    requires SizedStore(s) && x < |s.compOf| && s.compOf[x] < |s.tail| && s.compOf[x] !in bad
    requires s.chain.prev[x] == NO_EDGE || s.chain.prev[x] < |s.compOf|
    requires s.chain.next[x] == NO_EDGE || s.chain.next[x] < |s.compOf|
    ensures Mask(Unlinked(s, x), bad) == Unlinked(Mask(s, bad), x)
  {
  }

  lemma TakenOut(s: Store, lists: seq<seq<nat>>, bad: set<nat>, x: nat) returns (p: nat)
    requires SizedStore(s) && Inv(Mask(s, bad), lists) && FreeOk(s.free, lists, bad) && x < |s.compOf|
    requires s.compOf[x] != NO_EDGE && s.compOf[x] !in bad
    ensures s.compOf[x] < |lists| && p < |lists[s.compOf[x]]| && lists[s.compOf[x]][p] == x
    ensures s.chain.prev[x] == NO_EDGE || s.chain.prev[x] < |s.compOf|
    ensures s.chain.next[x] == NO_EDGE || s.chain.next[x] < |s.compOf|
    ensures var r, s' := s.compOf[x], Unlinked(s, x);
      && SizedStore(s') && Inv(Mask(s', bad), lists[r := Without(lists[r], p)]) && FreeOk(s'.free, lists[r := Without(lists[r], p)], bad)
      && (s'.chain.count[r] == 0 <==> Without(lists[r], p) == [])
  {
    var m, r := Mask(s, bad), s.compOf[x];
    assert HomeOk(m, lists, x);
    p :| 0 <= p < |lists[r]| && lists[r][p] == x;
    UnlinkedInv(m, lists, x, p);
    assert ListAt(m.chain, lists[r], r);
    UnlinkedFree(s, lists, bad, x, p);
    MaskUnlinked(s, bad, x);
  }

  lemma UnlinkedList(s: Store, lists: seq<seq<nat>>, x: nat, p: nat, q: nat)
    requires Inv(s, lists) && x < |s.compOf| && s.compOf[x] < |lists| && q < |lists|
    requires p < |lists[s.compOf[x]]| && lists[s.compOf[x]][p] == x
    requires s.chain.prev[x] == NO_EDGE || s.chain.prev[x] < |s.compOf|
    requires s.chain.next[x] == NO_EDGE || s.chain.next[x] < |s.compOf|
    ensures var s', lists' := Unlinked(s, x), lists[s.compOf[x] := Without(lists[s.compOf[x]], p)];
      ListAt(s'.chain, lists'[q], q) && Keyed(s'.compOf, lists'[q], q) && TailOk(s', lists', q)
  {
    var r := s.compOf[x];
    var l, c := lists[r], Remove(s.chain, r, x);
    var s', lists' := Unlinked(s, x), lists[r := Without(l, p)];
    RemoveLinked(s.chain, s.compOf, lists, r, p);
    assert ListAt(s.chain, l, r) && ListAt(c, lists'[q], q) && Keyed(s.compOf, lists'[q], q) && TailOk(s, lists, q);
    InRest(l, p);
    assert x !in lists'[q] by {
      if q != r { assert Keyed(s.compOf, lists[q], q); }
    }
    ListFrame(c, s'.chain, lists'[q], q);
    if q == r {
      NodeAt(s.chain, l, r, p);
      UnlinkedTail(s, l, r, p);
    }
  }

  lemma UnlinkedTail(s: Store, l: seq<nat>, r: nat, p: nat)
    requires SizedStore(s) && r < |s.tail| && p < |l| && ListAt(s.chain, l, r) && Node(s.chain, l, p)
    requires s.tail[r] == At(l, |l| - 1)
    ensures (if s.chain.next[l[p]] == NO_EDGE then s.chain.prev[l[p]] else s.tail[r]) == At(Without(l, p), |l| - 2)
  {
    WithoutAt(l, p, |l| - 2);
    if p + 1 < |l| { NodeAt(s.chain, l, r, p + 1); }
  }

  lemma InRest(l: seq<nat>, p: nat)
    requires Unique(l) && p < |l|
    ensures forall x :: x in Without(l, p) <==> x in l && x != l[p]
  {
    forall x | x in l && x != l[p] ensures x in Without(l, p) {
      var j :| 0 <= j < |l| && l[j] == x;
      assert Without(l, p)[if j < p then j else j - 1] == x;
    }
  }

  // ---- components cover connectivity ----------------------------------------------------------

  /** The two ends of every edge are in one component. */
  ghost predicate Together(s: Store, edges: Graph) {
    forall e :: e in edges ==> e.0 < |s.compOf| && e.1 < |s.compOf| && s.compOf[e.0] == s.compOf[e.1] != NO_EDGE
  }

  ghost function Undirected(edges: Graph): Graph {
    edges + set e | e in edges :: (e.1, e.0)
  }

  /** So whatever is connected to a slot, in either direction, is in its list. */
  lemma ComponentCovers(s: Store, lists: seq<seq<nat>>, edges: Graph, seed: nat, v: nat)
    requires Inv(s, lists) && Together(s, edges) && seed < |s.compOf| && s.compOf[seed] != NO_EDGE
    requires Reach(Undirected(edges), seed, v)
    ensures s.compOf[seed] < |lists| && v in lists[s.compOf[seed]]
  {
    assert HomeOk(s, lists, seed);
    var r := s.compOf[seed];
    var c := set x | x in lists[r];
    forall e | e in Undirected(edges) && e.0 in c ensures e.1 in c {
      KeyedAt(s, lists, r, e.0);
      assert e in edges || (e.1, e.0) in edges;
      assert HomeOk(s, lists, e.1);
    }
    ReachStaysIn(Undirected(edges), c, seed, v);
  }

  lemma TwoJoined(s: Store, lists: seq<seq<nat>>, bad: set<nat>, a: nat, b: nat)
    requires SizedStore(s) && Inv(Mask(s, bad), lists) && FreeOk(s.free, lists, bad) && a < |s.compOf| && b < |s.compOf|
    requires s.compOf[a] != s.compOf[b] && s.compOf[a] !in bad && s.compOf[b] !in bad && s.compOf[a] != NO_EDGE && s.compOf[b] != NO_EDGE
    ensures s.compOf[a] < |lists| && s.compOf[b] < |lists| && s.tail[s.compOf[a]] < |s.compOf| && s.chain.head[s.compOf[b]] < |s.compOf|
    ensures forall i :: 0 <= i < |lists[s.compOf[b]]| ==> lists[s.compOf[b]][i] < |s.compOf|
    ensures var ca, cb := s.compOf[a], s.compOf[b]; var s' := Merged(s, lists[cb], ca, cb);
      && SizedStore(s') && Inv(Mask(s', bad), Joined(lists, ca, cb)) && FreeOk(s'.free, Joined(lists, ca, cb), bad)
      && forall x: nat :: x < |s.compOf| ==> s'.compOf[x] == if s.compOf[x] == cb then ca else s.compOf[x]
  {
    var ca, cb, m := s.compOf[a], s.compOf[b], Mask(s, bad);
    assert HomeOk(m, lists, a) && HomeOk(m, lists, b);
    MergedInv(m, lists, ca, cb);
    JoinedFree(s.free, lists, bad, ca, cb);
    MaskMerged(s, bad, lists[cb], ca, cb);
    forall x: nat | x < |s.compOf| ensures Relabel(s.compOf, lists[cb], ca)[x] == if s.compOf[x] == cb then ca else s.compOf[x] {
      MemberIff(m, lists, cb, x);
      RelabelAt(s.compOf, lists[cb], ca, x);
    }
  }

  lemma TogetherJoined(s: Store, s': Store, bad: set<nat>, edges: Graph, a: nat, b: nat)
    requires Together(Mask(s, bad), edges) && a < |s.compOf| && b < |s.compOf| == |s'.compOf|
    requires s.compOf[a] !in bad && s.compOf[b] !in bad && s.compOf[a] != NO_EDGE
    requires forall x: nat :: x < |s.compOf| ==> s'.compOf[x] == if s.compOf[x] == s.compOf[b] then s.compOf[a] else s.compOf[x]
    ensures Together(Mask(s', bad), edges + {(a, b)})
  {
  }

  /** The last free header becomes the list of `x`, which has no component. */
  lemma Added(s: Store, lists: seq<seq<nat>>, bad: set<nat>, edges: Graph, x: nat)
    requires SizedStore(s) && Inv(Mask(s, bad), lists) && FreeOk(s.free, lists, bad) && s.free != []
    requires x < |s.compOf| && Mask(s, bad).compOf[x] == NO_EDGE && Together(Mask(s, bad), edges)
    ensures var r := s.free[|s.free| - 1]; r < |lists| && r !in bad
    ensures var r := s.free[|s.free| - 1]; var s' := Single(s, r, x);
      && SizedStore(s') && Inv(Mask(s', bad), lists[r := [x]]) && FreeOk(s'.free, lists[r := [x]], bad) && Together(Mask(s', bad), edges)
  {
    var r := s.free[|s.free| - 1];
    SingleFree(s.free, lists, bad, x);
    MaskSingle(s, bad, r, x);
    SingleInv(Mask(s, bad), lists, r, x);
  }

  /** What stays together when `x` gets a component of its own: the edges of the other components. */
  lemma ElsewhereTogether(s: Store, edges: Graph, x: nat)
    requires SizedStore(s) && Together(s, edges) && x < |s.compOf|
    ensures Together(Mask(s, {s.compOf[x]}), Elsewhere(s, edges, x))
  {
  }

  ghost function Elsewhere(s: Store, edges: Graph, x: nat): Graph
    requires Together(s, edges) && x < |s.compOf|
  {
    set e | e in edges && s.compOf[e.0] != s.compOf[x]
  }

  // ---- the store of one owner -----------------------------------------------------------------

  const NO_TOKEN: nat := 0

  class ConservativeComponents {
    var s: Store
    var owner: seq<nat>
    ghost var lists: seq<seq<nat>>
    // the headers whose lists are broken because a slot of theirs was given to a new cell
    ghost var abandoned: set<nat>

    ghost predicate Valid()
      reads this
    {
      SizedStore(s) && Inv(View(), lists) && FreeOk(s.free, lists, abandoned) && |owner| == |lists|
    }

    /** The store without its abandoned headers. */
    ghost function View(): Store
      reads this
    {
      Mask(s, abandoned)
    }

    /** The slot has a component, and it was made by this incarnation of the owner. */
    ghost predicate Mine(x: nat, token: nat)
      reads this
    {
      x < |s.compOf| && s.compOf[x] < |owner| && owner[s.compOf[x]] == token
    }

    /** No header of this incarnation has been abandoned. */
    ghost predicate Current(token: nat)
      reads this
    {
      forall r :: r in abandoned && r < |owner| ==> owner[r] != token
    }

    constructor (capacity: nat)
      requires capacity <= NO_EDGE
      ensures Valid() && lists == [] && abandoned == {} && s.compOf == seq(capacity, _ => NO_EDGE)
    {
      var none := seq(capacity, _ => NO_EDGE);
      s := Store(Chain([], [], none, none), [], none, []);
      owner, lists, abandoned := [], [], {};
    }

    /** A fresh cell is a component of its own, whatever label its slot still carries.  A slot that is
        still in a list breaks it: exactly that header is abandoned, and an incarnation keeps all its
        headers if the label is not one of them. */
    method AddLocal(x: nat, token: nat, ghost edges: Graph)
      requires Valid() && x < |s.compOf| && |lists| + 1 < NO_EDGE && Together(View(), edges)
      modifies this
      ensures Valid() && |s.compOf| == |old(s).compOf|
      ensures var l := old(View()).compOf[x]; abandoned == old(abandoned) + if l == NO_EDGE then {} else {l}
      ensures Together(View(), Elsewhere(old(View()), edges, x))
      ensures s.compOf[x] < |lists| && lists[s.compOf[x]] == [x] && s.compOf == old(s).compOf[x := s.compOf[x]]
      ensures |old(lists)| <= |lists|
      ensures forall r: nat :: r < |old(lists)| && r != s.compOf[x] && r !in abandoned ==> lists[r] == old(lists)[r]
      ensures Mine(x, token) && |old(owner)| <= |owner|
      ensures forall r: nat :: r < |old(owner)| && r != s.compOf[x] ==> owner[r] == old(owner)[r]
      ensures forall t: nat :: old(Current(t)) && !old(Mine(x, t)) ==> Current(t)
    {
      ghost var rest := Elsewhere(View(), edges, x);
      Abandon(x, edges);
      HaveHeader();
      PlaceAlone(x, token, rest);
    }

    method PlaceAlone(x: nat, token: nat, ghost edges: Graph)
      requires Valid() && x < |s.compOf| && View().compOf[x] == NO_EDGE && s.free != [] && Together(View(), edges)
      modifies this`s, this`lists, this`owner
      ensures Valid() && Together(View(), edges)
      ensures |s.compOf| == |old(s).compOf| && s.compOf == old(s).compOf[x := s.compOf[x]]
      ensures s.compOf[x] < |lists| == |old(lists)| && s.compOf[x] !in abandoned
      ensures lists == old(lists)[s.compOf[x] := [x]] && owner == old(owner)[s.compOf[x] := token]
    {
      var r := s.free[|s.free| - 1];
      Added(s, lists, abandoned, edges, x);
      s, lists, owner := Single(s, r, x), lists[r := [x]], owner[r := token];
    }

    /** The header `x` is still listed under, if any, is given up. */
    ghost method Abandon(x: nat, edges: Graph)
      requires Valid() && x < |s.compOf| && Together(View(), edges)
      modifies this`lists, this`abandoned
      ensures Valid() && View().compOf[x] == NO_EDGE && |lists| == |old(lists)|
      ensures Together(View(), Elsewhere(old(View()), edges, x))
      ensures var l := old(View()).compOf[x]; abandoned == old(abandoned) + if l == NO_EDGE then {} else {l}
      ensures forall r: nat :: r < |lists| && r !in abandoned ==> lists[r] == old(lists)[r]
    {
      var l := View().compOf[x];
      if l != NO_EDGE {
        assert HomeOk(View(), lists, x);
        AbandonInv(View(), lists, l);
        MaskMore(s, abandoned, l);
        ElsewhereTogether(View(), edges, x);
        lists, abandoned := lists[l := []], abandoned + {l};
      }
    }

    method HaveHeader()
      requires Valid() && |lists| + 1 < NO_EDGE
      modifies this`s, this`lists, this`owner
      ensures Valid() && View().compOf == old(View()).compOf && s.free != [] && s.compOf == old(s).compOf && old(owner) <= owner && old(lists) <= lists
    {
      if s.free == [] {
        NewHeaderInv(View(), lists);
        NewHeaderFree(s.free, lists, abandoned);
        MaskNewHeader(s, abandoned);
        s, lists, owner := NewHeader(s), lists + [[]], owner + [NO_TOKEN];
      }
    }

    /** An edge between two components makes them one: the second list goes behind the first and
        every one of its slots gets the first label.  A slot without a component changes nothing. */
    method Merge(a: nat, b: nat, ghost edges: Graph)
      requires Valid() && a < |s.compOf| && b < |s.compOf| && Together(View(), edges)
      requires s.compOf[a] !in abandoned && s.compOf[b] !in abandoned
      modifies this
      ensures Valid() && |s.compOf| == |old(s).compOf| && abandoned == old(abandoned)
      ensures var ca, cb := old(s).compOf[a], old(s).compOf[b];
        if ca == NO_EDGE || cb == NO_EDGE then s == old(s) && lists == old(lists) && owner == old(owner)
        else
          && Together(View(), edges + {(a, b)}) && cb < |old(owner)|
          && (forall x: nat :: x < |s.compOf| ==> s.compOf[x] == if old(s).compOf[x] == cb then ca else old(s).compOf[x])
          && owner == if ca == cb then old(owner) else old(owner)[cb := NO_TOKEN]
    {
      var ca, cb := s.compOf[a], s.compOf[b];
      if ca == NO_EDGE || cb == NO_EDGE { return; }
      if ca == cb {
        assert HomeOk(View(), lists, a) && HomeOk(View(), lists, b);
        return;
      }
      TwoJoined(s, lists, abandoned, a, b);
      TogetherJoined(s, Merged(s, lists[cb], ca, cb), abandoned, edges, a, b);
      var compOf := RelabelFrom(s.chain.head[cb], ca, cb);
      lists := Joined(lists, ca, cb);
      s := Splice(s, ca, cb).(compOf := compOf, free := s.free + [cb]);
      owner := owner[cb := NO_TOKEN];
    }

    /** Walk the list from `first` and label its slots `a`. */
    method RelabelFrom(first: nat, a: nat, ghost b: nat) returns (compOf: seq<nat>)
      requires Valid() && b < |lists| && b < |s.chain.head| && first == s.chain.head[b] && b !in abandoned
      ensures forall i :: 0 <= i < |lists[b]| ==> lists[b][i] < |s.compOf|
      ensures compOf == Relabel(s.compOf, lists[b], a)
    {
      ghost var l, k, c := lists[b], 0, View().chain;
      assert ListAt(c, l, b);
      forall i | 0 <= i < |l| ensures l[i] < |s.compOf| { NodeAt(c, l, b, i); }
      compOf := s.compOf;
      var m := first;
      while m != NO_EDGE
        invariant k <= |l| && m == At(l, k) && compOf == Relabel(s.compOf, l[..k], a)
        decreases |l| - k
      {
        NodeAt(c, l, b, k);
        assert l[..k + 1][..k] == l[..k];
        compOf := compOf[m := a];
        m, k := s.chain.next[m], k + 1;
      }
      ListEnds(c, l, b, k);
      assert l[..k] == l;
    }

    /** A freed cell leaves its component; an empty component gives its header back.  A component of
        an earlier incarnation of the owner is left alone. */
    method Unlink(x: nat, token: nat, ghost edges: Graph)
      requires Valid() && Current(token) && x < |s.compOf|
      requires Together(View(), edges) && forall e :: e in edges ==> e.0 != x && e.1 != x
      modifies this
      ensures Valid() && Together(View(), edges) && abandoned == old(abandoned) && |lists| == |old(lists)|
      ensures if old(Mine(x, token)) then s.compOf == old(s).compOf[x := NO_EDGE] else s == old(s)
      ensures forall r: nat :: r < |lists| ==> owner[r] == if lists[r] == [] && old(lists)[r] != [] then NO_TOKEN else old(owner)[r]
    {
      if s.compOf[x] == NO_EDGE || |owner| <= s.compOf[x] { return; }
      if owner[s.compOf[x]] != token { return; }
      var r := s.compOf[x];
      ghost var p := TakenOut(s, lists, abandoned, x);
      s, lists := Unlinked(s, x), lists[r := Without(lists[r], p)];
      if s.chain.count[r] == 0 { owner := owner[r := NO_TOKEN]; }
    }

    /** Hand the seed's component over: report every member once, take them out of the store and
        give the header back.  What is reported covers everything connected to the seed. */
    method PromoteComponent(seed: nat, token: nat, ghost edges: Graph) returns (out: seq<nat>)
      requires Valid() && Current(token) && seed < |s.compOf| && Together(View(), edges)
      modifies this
      ensures Valid() && Unique(out) && |s.compOf| == |old(s).compOf| && abandoned == old(abandoned)
      ensures forall x: nat :: x in out <==> old(Mine(seed, token)) && x < |s.compOf| && old(s).compOf[x] == old(s).compOf[seed]
      ensures forall x: nat :: x < |s.compOf| ==> s.compOf[x] == if x in out then NO_EDGE else old(s).compOf[x]
      ensures old(Mine(seed, token)) ==> forall v: nat :: Reach(Undirected(edges), seed, v) ==> v in out
      ensures Together(View(), set e | e in edges && e.0 !in out)
      ensures owner == if old(Mine(seed, token)) then old(owner)[old(s).compOf[seed] := NO_TOKEN] else old(owner)
    {
      out := [];
      if s.compOf[seed] == NO_EDGE || |owner| <= s.compOf[seed] { return; }
      var r := s.compOf[seed];
      if owner[r] != token { return; }
      ghost var s0, view, lists0 := s, View(), lists;
      assert HomeOk(view, lists, seed);
      assert ListAt(view.chain, lists[r], r);
      forall v: nat | Reach(Undirected(edges), seed, v) ensures v in lists[r] { ComponentCovers(view, lists, edges, seed, v); }
      RetiredInv(view, lists, r);
      RetiredFree(s.free, lists, abandoned, r);
      MaskRetired(s, abandoned, lists[r], r);
      out := RetireFrom(s.chain.head[r], r);
      s, lists, owner := BlankHeader(s, r), lists[r := []], owner[r := NO_TOKEN];
      forall x: nat | x < |s.compOf| ensures s.compOf[x] == if x in out then NO_EDGE else s0.compOf[x] {
        RelabelAt(s0.compOf, out, NO_EDGE, x);
      }
      forall x: nat | x < |s.compOf| ensures x in out <==> s0.compOf[x] == r { MemberIff(view, lists0, r, x); }
      forall x | x in out ensures x < |s.compOf| { KeyedAt(view, lists0, r, x); }
    }

    /** Walk the list, resetting each slot after its successor has been read. */
    method RetireFrom(first: nat, ghost r: nat) returns (out: seq<nat>)
      requires Valid() && r < |lists| && r < |s.chain.head| && first == s.chain.head[r] && r !in abandoned
      modifies this`s
      ensures out == lists[r] && forall i :: 0 <= i < |out| ==> out[i] < |old(s).compOf|
      ensures s == Reset(old(s), out)
    {
      ghost var l, s0, c := lists[r], s, View().chain;
      assert ListAt(c, l, r);
      forall i | 0 <= i < |l| ensures l[i] < |s.compOf| { NodeAt(c, l, r, i); }
      out := [];
      var m := first;
      while m != NO_EDGE
        invariant |out| <= |l| && m == At(l, |out|) && out == l[..|out|] && s == Reset(s0, out)
        decreases |l| - |out|
      {
        ghost var k := |out|;
        NodeAt(c, l, r, k);
        ResetKeeps(s0, l, k);
        var next := s.chain.next[m];
        ResetOne(s0, l, k);
        s := s.(chain := s.chain.(prev := s.chain.prev[m := NO_EDGE], next := s.chain.next[m := NO_EDGE]),
                compOf := s.compOf[m := NO_EDGE]);
        out, m := out + [m], next;
      }
      ListEnds(c, l, r, |out|);
    }
  }

  /** The slots of `l` set back to no component. */
  function Reset(s: Store, l: seq<nat>): Store
    requires SizedStore(s) && forall i :: 0 <= i < |l| ==> l[i] < |s.compOf|
  {
    s.(chain := s.chain.(prev := Relabel(s.chain.prev, l, NO_EDGE), next := Relabel(s.chain.next, l, NO_EDGE)),
       compOf := Relabel(s.compOf, l, NO_EDGE))
  }

  lemma ResetKeeps(s: Store, l: seq<nat>, k: nat)
    requires SizedStore(s) && Unique(l) && k < |l| && forall i :: 0 <= i < |l| ==> l[i] < |s.compOf|
    ensures Reset(s, l[..k]).chain.next[l[k]] == s.chain.next[l[k]]
  {
    RelabelAt(s.chain.next, l[..k], NO_EDGE, l[k]);
    assert l[k] !in l[..k];
  }

  lemma ResetOne(s: Store, l: seq<nat>, k: nat)
    requires SizedStore(s) && k < |l| && forall i :: 0 <= i < |l| ==> l[i] < |s.compOf|
    ensures var t, m := Reset(s, l[..k]), l[k];
      Reset(s, l[..k + 1]) == t.(chain := t.chain.(prev := t.chain.prev[m := NO_EDGE], next := t.chain.next[m := NO_EDGE]),
                                 compOf := t.compOf[m := NO_EDGE])
  {
    assert l[..k + 1][..k] == l[..k];
  }

  function BlankHeader(s: Store, r: nat): Store
    requires SizedStore(s) && r < |s.tail|
  {
    s.(chain := s.chain.(head := s.chain.head[r := NO_EDGE], count := s.chain.count[r := 0]), tail := s.tail[r := NO_EDGE],
       free := s.free + [r])
  }

  lemma RetiredInv(s: Store, lists: seq<seq<nat>>, r: nat)
    requires Inv(s, lists) && r < |lists| && lists[r] != []
    ensures forall i :: 0 <= i < |lists[r]| ==> lists[r][i] < |s.compOf|
    ensures Inv(BlankHeader(Reset(s, lists[r]), r), lists[r := []])
  {
    var l := lists[r];
    assert Keyed(s.compOf, l, r);
    forall i | 0 <= i < |l| ensures l[i] < |s.compOf| { assert l[i] in l; }
    var s', lists' := BlankHeader(Reset(s, l), r), lists[r := []];
    forall q: nat | q < |lists'| ensures ListAt(s'.chain, lists'[q], q) && Keyed(s'.compOf, lists'[q], q) && TailOk(s', lists', q) {
      RetiredList(s, lists, r, q);
    }
    forall x: nat | x < |s'.compOf| ensures HomeOk(s', lists', x) {
      assert HomeOk(s, lists, x);
      RelabelAt(s.compOf, l, NO_EDGE, x);
    }
  }

  lemma MaskRetired(s: Store, bad: set<nat>, l: seq<nat>, r: nat)
    requires SizedStore(s) && r < |s.tail| && (forall i :: 0 <= i < |l| ==> l[i] < |s.compOf|) && r !in bad
    ensures Mask(BlankHeader(Reset(s, l), r), bad) == BlankHeader(Reset(Mask(s, bad), l), r)
  {
    MaskRelabel(s.compOf, bad, l, NO_EDGE);
  }

  lemma RetiredList(s: Store, lists: seq<seq<nat>>, r: nat, q: nat)
    requires Inv(s, lists) && r < |lists| && q < |lists| && forall i :: 0 <= i < |lists[r]| ==> lists[r][i] < |s.compOf|
    ensures var s', lists' := BlankHeader(Reset(s, lists[r]), r), lists[r := []];
      ListAt(s'.chain, lists'[q], q) && Keyed(s'.compOf, lists'[q], q) && TailOk(s', lists', q)
  {
    var l := lists[r];
    var s', lists' := BlankHeader(Reset(s, l), r), lists[r := []];
    assert ListAt(s.chain, lists[q], q) && Keyed(s.compOf, lists[q], q) && TailOk(s, lists, q);
    if q != r {
      ListsDisjoint(s, lists, q, r);
      forall x | x in lists[q]
        ensures x < |s.compOf| && s'.chain.next[x] == s.chain.next[x] && s'.chain.prev[x] == s.chain.prev[x] && s'.compOf[x] == s.compOf[x]
      {
        RelabelAt(s.chain.next, l, NO_EDGE, x);
        RelabelAt(s.chain.prev, l, NO_EDGE, x);
        RelabelAt(s.compOf, l, NO_EDGE, x);
      }
      ListFrame(s.chain, s'.chain, lists[q], q);
    }
  }

  /** A walk that has come to the end has passed every node. */
  lemma ListEnds(c: Chain, l: seq<nat>, r: nat, k: nat)
    requires Sized(c) && r < |c.head| && ListAt(c, l, r) && k <= |l| && At(l, k) == NO_EDGE
    ensures k == |l|
  {
    if k < |l| { NodeAt(c, l, r, k); }
  }

  lemma MemberIff(s: Store, lists: seq<seq<nat>>, r: nat, x: nat)
    requires Inv(s, lists) && r < |lists| && x < |s.compOf|
    ensures x in lists[r] <==> s.compOf[x] == r
  {
    assert HomeOk(s, lists, x);
    if x in lists[r] { KeyedAt(s, lists, r, x); }
  }
}
