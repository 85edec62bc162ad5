/** Folding a producer's batch: root operations on one handle become their net effect. */
module Folding {
  import opened Cells
  import opened EngineState
  import opened Logs
  import opened Probing

  // ---- what folding produces ------------------------------------------------------------------

  predicate IsRootOp(m: Msg) { m.RootAdd? || m.RootRemove? }

  /** Staged root operations are single. */
  predicate Staged(m: Msg) { IsRootOp(m) ==> m.count == 1 }

  function Sign(m: Msg): int { if m.RootAdd? then 1 else -1 }

  /** The one message for a net change of `d`; a balanced change still asks for a re-evaluation. */
  function NetMsg(b: Handle, d: int): Msg {
    if d > 0 then RootAdd(b, d) else if d < 0 then RootRemove(b, -d) else RootCheck(b)
  }

  /** Messages out, and for every folded handle its place among them and its net change. */
  datatype Fold = Fold(out: seq<Msg>, pos: map<Handle, nat>, delta: map<Handle, int>)

  predicate FoldOk(f: Fold) {
    && f.pos.Keys == f.delta.Keys
    && (forall h :: h in f.pos ==> f.pos[h] < |f.out| && f.out[f.pos[h]] == NetMsg(h, f.delta[h]))
    && (forall i :: 0 <= i < |f.out| && IsRootOp(f.out[i]) ==> f.out[i].b in f.pos && f.pos[f.out[i].b] == i)
  }

  function FoldMsg(f: Fold, m: Msg): (f': Fold)
    requires FoldOk(f) && Staged(m)
    ensures FoldOk(f') && |f'.out| <= |f.out| + 1
  {
    if !IsRootOp(m) then f.(out := f.out + [m])
    else if m.b in f.pos then
      var d := f.delta[m.b] + Sign(m);
      PatchOk(f, m.b, d);
      f.(out := f.out[f.pos[m.b] := NetMsg(m.b, d)], delta := f.delta[m.b := d])
    else
      NewOk(f, m);
      Fold(f.out + [m], f.pos[m.b := |f.out|], f.delta[m.b := Sign(m)])
  }

  lemma NewOk(f: Fold, m: Msg)
    requires FoldOk(f) && Staged(m) && IsRootOp(m) && m.b !in f.pos
    ensures FoldOk(Fold(f.out + [m], f.pos[m.b := |f.out|], f.delta[m.b := Sign(m)]))
  {
  }

  lemma PatchOk(f: Fold, b: Handle, d: int)
    requires FoldOk(f) && b in f.pos
    ensures FoldOk(f.(out := f.out[f.pos[b] := NetMsg(b, d)], delta := f.delta[b := d]))
  {
    var f' := f.(out := f.out[f.pos[b] := NetMsg(b, d)], delta := f.delta[b := d]);
    forall h | h in f'.pos ensures f'.out[f'.pos[h]] == NetMsg(h, f'.delta[h]) {
      assert f.out[f.pos[h]] == NetMsg(h, f.delta[h]) && f.out[f.pos[b]] == NetMsg(b, f.delta[b]);
    }
  }

  function FoldAll(ms: seq<Msg>): (f: Fold)
    requires forall i :: 0 <= i < |ms| ==> Staged(ms[i])
    ensures FoldOk(f) && |f.out| <= |ms|
  {
    if ms == [] then Fold([], map[], map[]) else FoldMsg(FoldAll(ms[..|ms| - 1]), ms[|ms| - 1])
  }

  // ---- the producer's fold table --------------------------------------------------------------

  datatype Key = Free | Taken(h: Handle)

  datatype Entry = Entry(key: Key, delta: int, outPos: nat)

  const MAX_BATCH: nat := 256
  const FOLD_SLOTS: nat := 512

  const FREE := Entry(Free, 0, 0)

  /** Slot `j` is taken, by a handle other than `h`. */
  predicate Occupied(tab: seq<Entry>, j: nat, h: Handle) {
    j < |tab| && tab[j].key.Taken? && tab[j].key.h != h
  }

  /** A probe for `h` finds it after `t` steps. */
  ghost predicate FoundAt(tab: seq<Entry>, x: nat, h: Handle, t: nat)
    requires |tab| == FOLD_SLOTS
  {
    && t < FOLD_SLOTS && tab[Probe(x, t, FOLD_SLOTS)].key == Taken(h)
    && forall u: nat :: u < t ==> Occupied(tab, Probe(x, u, FOLD_SLOTS), h)
  }

  ghost predicate Filed(tab: seq<Entry>, hash: Handle -> nat, f: Fold, h: Handle)
    requires |tab| == FOLD_SLOTS && FoldOk(f) && h in f.pos
  {
    exists t: nat :: FoundAt(tab, hash(h), h, t) &&
      tab[Probe(hash(h), t, FOLD_SLOTS)] == Entry(Taken(h), f.delta[h], f.pos[h])
  }

  /** The table spells out the fold; `used` lists its taken slots. */
  ghost predicate TableIs(tab: seq<Entry>, hash: Handle -> nat, used: seq<nat>, f: Fold) {
    && |tab| == FOLD_SLOTS && FoldOk(f)
    && (forall h :: h in f.pos ==> Filed(tab, hash, f, h))
    && KeysAre(tab, used, f.pos.Keys)
  }

  /** The taken slots are the used ones, and hold the folded handles, each once. */
  ghost predicate KeysAre(tab: seq<Entry>, used: seq<nat>, hs: set<Handle>) {
    && |tab| == FOLD_SLOTS
    && (forall j: nat :: j < FOLD_SLOTS ==> (tab[j].key.Taken? <==> j in used))
    && (forall j :: j in used ==> j < FOLD_SLOTS)
    && (forall j: nat :: j < FOLD_SLOTS && tab[j].key.Taken? ==> tab[j].key.h in hs)
    && (forall i: nat, j: nat :: i < j < FOLD_SLOTS && tab[i].key.Taken? && tab[j].key.Taken? ==>
          tab[i].key.h != tab[j].key.h)
  }

  lemma SameKeys(tab: seq<Entry>, tab': seq<Entry>, used: seq<nat>, hs: set<Handle>)
    requires KeysAre(tab, used, hs) && |tab'| == FOLD_SLOTS
    requires forall j: nat :: j < FOLD_SLOTS ==> tab'[j].key == tab[j].key
    ensures KeysAre(tab', used, hs)
  {
  }

  lemma NewKey(tab: seq<Entry>, used: seq<nat>, hs: set<Handle>, j: nat, e: Entry)
    requires KeysAre(tab, used, hs) && j < FOLD_SLOTS && tab[j].key.Free? && e.key.Taken? && e.key.h !in hs
    ensures KeysAre(tab[j := e], used + [j], hs + {e.key.h})
  {
  }

  /** Fewer used slots than slots: some slot is free. */
  lemma SomeFree(tab: seq<Entry>, used: seq<nat>) returns (j: nat)
    requires |tab| == FOLD_SLOTS && |used| < FOLD_SLOTS
    requires forall j: nat :: j < FOLD_SLOTS ==> (tab[j].key.Taken? <==> j in used)
    ensures j < FOLD_SLOTS && tab[j].key.Free?
  {
    if forall j: nat :: j < FOLD_SLOTS ==> j in used {
      TooFew(used, FOLD_SLOTS);
    }
    j :| j < FOLD_SLOTS && j !in used;
  }

  lemma {:induction false} TooFew(l: seq<nat>, n: nat)
    requires forall j: nat :: j < n ==> j in l
    ensures |l| >= n
  {
    if n > 0 {
      var x: nat := n - 1;
      assert x in l;
      var k :| 0 <= k < |l| && l[k] == x;
      var l' := l[..k] + l[k + 1..];
      forall j: nat | j < n - 1 ensures j in l' {
        assert j in l;
        var i :| 0 <= i < |l| && l[i] == j;
        assert l'[if i < k then i else i - 1] == j;
      }
      TooFew(l', n - 1);
    }
  }

  /** Where a probe for `h` ends: at its entry, or at the first free slot, within one turn. */
  method FindSlot(tab: seq<Entry>, hash: Handle -> nat, h: Handle, ghost used: seq<nat>, ghost f: Fold)
    returns (j: nat, ghost t: nat)
    requires TableIs(tab, hash, used, f) && |used| < FOLD_SLOTS
    ensures t < FOLD_SLOTS && j == Probe(hash(h), t, FOLD_SLOTS)
    ensures forall u: nat :: u < t ==> Occupied(tab, Probe(hash(h), u, FOLD_SLOTS), h)
    ensures tab[j].key == if h in f.pos then Taken(h) else Free
    ensures h in f.pos ==> tab[j] == Entry(Taken(h), f.delta[h], f.pos[h])
  {
    ghost var free := SomeFree(tab, used);
    ghost var last := ProbeReaches(hash(h), free, FOLD_SLOTS);
    j, t := hash(h) % FOLD_SLOTS, 0;
    while tab[j].key != Taken(h) && tab[j].key != Free
      invariant t <= last && j == Probe(hash(h), t, FOLD_SLOTS) && Passed(tab, hash(h), h, t)
      decreases last - t
    {
      PassedMore(tab, hash(h), h, t);
      ProbeNext(hash(h), t, FOLD_SLOTS);
      j, t := (j + 1) % FOLD_SLOTS, t + 1;
    }
    FoundIsFiled(tab, hash, used, f, h, t);
  }

  ghost predicate Passed(tab: seq<Entry>, x: nat, h: Handle, t: nat) {
    forall u: nat :: u < t ==> Occupied(tab, Probe(x, u, FOLD_SLOTS), h)
  }

  lemma PassedMore(tab: seq<Entry>, x: nat, h: Handle, t: nat)
    requires |tab| == FOLD_SLOTS && Passed(tab, x, h, t)
    requires var k := tab[Probe(x, t, FOLD_SLOTS)].key; k != Taken(h) && k != Free
    ensures Passed(tab, x, h, t + 1)
  {
    assert Occupied(tab, Probe(x, t, FOLD_SLOTS), h);
  }

  lemma FoundIsFiled(tab: seq<Entry>, hash: Handle -> nat, used: seq<nat>, f: Fold, h: Handle, t: nat)
    requires TableIs(tab, hash, used, f) && t < FOLD_SLOTS
    requires forall u: nat :: u < t ==> Occupied(tab, Probe(hash(h), u, FOLD_SLOTS), h)
    requires var k := tab[Probe(hash(h), t, FOLD_SLOTS)].key; k == Taken(h) || k == Free
    ensures var e := tab[Probe(hash(h), t, FOLD_SLOTS)];
      if h in f.pos then e == Entry(Taken(h), f.delta[h], f.pos[h]) else e.key == Free
  {
    var j := Probe(hash(h), t, FOLD_SLOTS);
    if h in f.pos {
      assert Filed(tab, hash, f, h);
      var s: nat :| FoundAt(tab, hash(h), h, s) &&
        tab[Probe(hash(h), s, FOLD_SLOTS)] == Entry(Taken(h), f.delta[h], f.pos[h]);
    }
  }

  /** Changing the numbers of an entry disturbs no probe. */
  lemma PatchTable(tab: seq<Entry>, hash: Handle -> nat, used: seq<nat>, f: Fold, j: nat, m: Msg)
    requires TableIs(tab, hash, used, f) && IsRootOp(m) && Staged(m) && m.b in f.pos
    requires j < FOLD_SLOTS && tab[j] == Entry(Taken(m.b), f.delta[m.b], f.pos[m.b])
    ensures TableIs(tab[j := tab[j].(delta := f.delta[m.b] + Sign(m))], hash, used, FoldMsg(f, m))
  {
    var tab', f' := tab[j := tab[j].(delta := f.delta[m.b] + Sign(m))], FoldMsg(f, m);
    SameKeys(tab, tab', used, f.pos.Keys);
    assert f'.pos == f.pos;
    forall i: nat | i < FOLD_SLOTS && tab[i].key == Taken(m.b) ensures i == j {}
    forall h | h in f'.pos ensures Filed(tab', hash, f', h) { FiledPatched(tab, hash, f, j, m, h); }
  }

  lemma FiledPatched(tab: seq<Entry>, hash: Handle -> nat, f: Fold, j: nat, m: Msg, h: Handle)
    requires |tab| == FOLD_SLOTS && FoldOk(f) && h in f.pos && Filed(tab, hash, f, h)
    requires j < FOLD_SLOTS && IsRootOp(m) && Staged(m) && m.b in f.pos
    requires tab[j] == Entry(Taken(m.b), f.delta[m.b], f.pos[m.b])
    requires forall i: nat :: i < FOLD_SLOTS && tab[i].key == Taken(m.b) ==> i == j
    ensures Filed(tab[j := tab[j].(delta := f.delta[m.b] + Sign(m))], hash, FoldMsg(f, m), h)
  {
    var tab' := tab[j := tab[j].(delta := f.delta[m.b] + Sign(m))];
    var t: nat :| FoundAt(tab, hash(h), h, t) &&
      tab[Probe(hash(h), t, FOLD_SLOTS)] == Entry(Taken(h), f.delta[h], f.pos[h]);
    forall u: nat | u < t ensures Occupied(tab', Probe(hash(h), u, FOLD_SLOTS), h) {
      assert Occupied(tab, Probe(hash(h), u, FOLD_SLOTS), h);
    }
    assert FoundAt(tab', hash(h), h, t);
  }

  /** Filling the free slot at which a probe ended disturbs no other probe. */
  lemma FileTable(tab: seq<Entry>, hash: Handle -> nat, used: seq<nat>, f: Fold, j: nat, t: nat, m: Msg)
    requires TableIs(tab, hash, used, f) && IsRootOp(m) && Staged(m) && m.b !in f.pos
    requires t < FOLD_SLOTS && j == Probe(hash(m.b), t, FOLD_SLOTS) && tab[j].key.Free?
    requires forall u: nat :: u < t ==> Occupied(tab, Probe(hash(m.b), u, FOLD_SLOTS), m.b)
    ensures TableIs(tab[j := Entry(Taken(m.b), Sign(m), |f.out|)], hash, used + [j], FoldMsg(f, m))
  {
    var tab', f' := tab[j := Entry(Taken(m.b), Sign(m), |f.out|)], FoldMsg(f, m);
    NewKey(tab, used, f.pos.Keys, j, tab'[j]);
    assert f'.pos.Keys == f.pos.Keys + {m.b};
    forall h | h in f'.pos ensures Filed(tab', hash, f', h) {
      if h == m.b {
        forall u: nat | u < t ensures Occupied(tab', Probe(hash(h), u, FOLD_SLOTS), h) {
          assert Occupied(tab, Probe(hash(h), u, FOLD_SLOTS), h);
        }
        assert FoundAt(tab', hash(h), h, t);
      } else {
        FiledStays(tab, hash, f, j, m, h);
      }
    }
  }

  lemma FiledStays(tab: seq<Entry>, hash: Handle -> nat, f: Fold, j: nat, m: Msg, h: Handle)
    requires |tab| == FOLD_SLOTS && FoldOk(f) && h in f.pos && Filed(tab, hash, f, h)
    requires j < FOLD_SLOTS && tab[j].key.Free? && IsRootOp(m) && Staged(m) && m.b !in f.pos
    ensures Filed(tab[j := Entry(Taken(m.b), Sign(m), |f.out|)], hash, FoldMsg(f, m), h)
  {
    var tab', f' := tab[j := Entry(Taken(m.b), Sign(m), |f.out|)], FoldMsg(f, m);
    var t: nat :| FoundAt(tab, hash(h), h, t) &&
      tab[Probe(hash(h), t, FOLD_SLOTS)] == Entry(Taken(h), f.delta[h], f.pos[h]);
    forall u: nat | u < t ensures Occupied(tab', Probe(hash(h), u, FOLD_SLOTS), h) {
      assert Occupied(tab, Probe(hash(h), u, FOLD_SLOTS), h);
    }
    assert FoundAt(tab', hash(h), h, t);
  }

  ghost predicate AllFree(tab: seq<Entry>) {
    |tab| == FOLD_SLOTS && forall j: nat :: j < FOLD_SLOTS ==> tab[j].key.Free?
  }

  /** One pass over the batch computes the fold, every probe ends, and the table is left empty. */
  method FoldBatch(batch: seq<Msg>, tab0: seq<Entry>, hash: Handle -> nat) returns (out: seq<Msg>, tab: seq<Entry>)
    requires |batch| <= MAX_BATCH && forall i :: 0 <= i < |batch| ==> Staged(batch[i])
    requires AllFree(tab0)
    ensures out == FoldAll(batch).out && |out| <= |batch|
    ensures AllFree(tab)
  {
    tab, out := tab0, [];
    var used: seq<nat> := [];
    ghost var f := Fold([], map[], map[]);
    assert batch[..0] == [];
    for i := 0 to |batch|
      invariant f == FoldAll(batch[..i]) && out == f.out
      invariant TableIs(tab, hash, used, f) && |used| <= i
    {
      var m := batch[i];
      assert batch[..i + 1][..i] == batch[..i] && batch[..i + 1][i] == m;
      tab, used, out := FoldOne(m, tab, hash, used, out, f);
      f := FoldMsg(f, m);
    }
    assert batch[..|batch|] == batch;
    tab := ClearUsed(tab, used);
  }

  method FoldOne(m: Msg, tab0: seq<Entry>, hash: Handle -> nat, used0: seq<nat>, out0: seq<Msg>, ghost f: Fold)
    returns (tab: seq<Entry>, used: seq<nat>, out: seq<Msg>)
    requires TableIs(tab0, hash, used0, f) && |used0| < FOLD_SLOTS && Staged(m) && out0 == f.out
    ensures TableIs(tab, hash, used, FoldMsg(f, m)) && out == FoldMsg(f, m).out && |used| <= |used0| + 1
  {
    tab, used := tab0, used0;
    if !IsRootOp(m) {
      out := out0 + [m];
      PassTable(tab, hash, used, f, m);
    } else {
      var j, t := FindSlot(tab, hash, m.b, used, f);
      if tab[j].key == Taken(m.b) {
        tab, out := PatchEntry(m, tab0, hash, used, out0, j, f);
      } else {
        FileTable(tab0, hash, used, f, j, t, m);
        tab := tab0[j := Entry(Taken(m.b), Sign(m), |out0|)];
        used, out := used + [j], out0 + [m];
      }
    }
  }

  method PatchEntry(m: Msg, tab0: seq<Entry>, hash: Handle -> nat, ghost used: seq<nat>, out0: seq<Msg>, j: nat, ghost f: Fold)
    returns (tab: seq<Entry>, out: seq<Msg>)
    requires TableIs(tab0, hash, used, f) && IsRootOp(m) && Staged(m) && m.b in f.pos && out0 == f.out
    requires j < FOLD_SLOTS && tab0[j] == Entry(Taken(m.b), f.delta[m.b], f.pos[m.b])
    ensures TableIs(tab, hash, used, FoldMsg(f, m)) && out == FoldMsg(f, m).out
  {
    PatchTable(tab0, hash, used, f, j, m);
    var d := tab0[j].delta + Sign(m);
    out := out0[tab0[j].outPos := NetMsg(m.b, d)];
    tab := tab0[j := tab0[j].(delta := d)];
  }

  lemma PassTable(tab: seq<Entry>, hash: Handle -> nat, used: seq<nat>, f: Fold, m: Msg)
    requires TableIs(tab, hash, used, f) && !IsRootOp(m)
    ensures TableIs(tab, hash, used, FoldMsg(f, m))
  {
    forall h | h in f.pos ensures Filed(tab, hash, FoldMsg(f, m), h) { assert Filed(tab, hash, f, h); }
  }

  method ClearUsed(tab0: seq<Entry>, used: seq<nat>) returns (tab: seq<Entry>)
    requires |tab0| == FOLD_SLOTS && (forall j :: j in used ==> j < FOLD_SLOTS)
    requires forall j: nat :: j < FOLD_SLOTS ==> (tab0[j].key.Taken? <==> j in used)
    ensures AllFree(tab)
  {
    tab := tab0;
    for k := 0 to |used|
      invariant |tab| == FOLD_SLOTS
      invariant forall j: nat :: j < FOLD_SLOTS && tab[j].key.Taken? ==> j in used[k..]
    {
      assert used[k] in used;
      assert used[k..] == [used[k]] + used[k + 1..];
      tab := tab[used[k] := tab[used[k]].(key := Free)];
    }
  }
}
