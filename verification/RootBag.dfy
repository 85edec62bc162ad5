/** The per-mutator root multiset as an open-addressing table with tombstones. */
module RootBags {

  datatype Slot = Empty | Tomb | Full(key: nat, count: nat)

  // ---- probe paths ----------------------------------------------------------------------------

  /** The slot looked at after `t` steps from `x`, wrapping around once. */
  function Step(x: nat, t: nat, n: nat): (j: nat)
    requires x < n && t < n
    ensures j < n
  {
    if x + t < n then x + t else x + t - n
  }

  lemma StepReaches(x: nat, j: nat, n: nat) returns (t: nat)
    requires x < n && j < n
    ensures t < n && Step(x, t, n) == j
  {
    t := if j >= x then j - x else n - x + j;
  }

  /** The mixed key, masked to a table of the given size: any map into the table will do. */
  type Mix = (nat, nat) -> nat

  /** Where the probe for a key starts in a table of `n` slots. */
  function Start(mix: Mix, key: nat, n: nat): (x: nat)
    requires n > 0
    ensures x < n
  {
    if mix(key, n) < n then mix(key, n) else 0
  }

  /** A probe for `key` goes past this slot. */
  predicate Passes(s: Slot, key: nat) { s.Tomb? || (s.Full? && s.key != key) }

  ghost predicate PathClear(slots: seq<Slot>, x: nat, key: nat, t: nat)
    requires x < |slots| && t <= |slots|
  {
    forall u: nat :: u < t ==> Passes(slots[Step(x, u, |slots|)], key)
  }

  ghost predicate FoundAt(slots: seq<Slot>, x: nat, key: nat, count: nat, t: nat)
    requires x < |slots|
  {
    t < |slots| && slots[Step(x, t, |slots|)] == Full(key, count) && PathClear(slots, x, key, t)
  }

  /** The key is where its probe finds it, with this multiplicity. */
  ghost predicate Filed(slots: seq<Slot>, mix: Mix, key: nat, count: nat)
    requires |slots| > 0
  {
    exists t: nat :: FoundAt(slots, Start(mix, key, |slots|), key, count, t)
  }

  /** The table holds the multiset: every key of it is filed, every filled slot is a key of it, and
      no key has two slots. */
  ghost predicate Holds(slots: seq<Slot>, mix: Mix, bag: multiset<nat>) {
    && |slots| > 0
    && (forall k: nat :: KeyOk(slots, mix, bag, k))
    && (forall j: nat :: SlotOk(slots, bag, j))
    && (forall i: nat, j: nat :: Apart(slots, i, j))
  }

  ghost predicate KeyOk(slots: seq<Slot>, mix: Mix, bag: multiset<nat>, k: nat)
    requires |slots| > 0
  {
    k in bag ==> Filed(slots, mix, k, bag[k])
  }

  ghost predicate SlotOk(slots: seq<Slot>, bag: multiset<nat>, j: nat) {
    j < |slots| && slots[j].Full? ==> slots[j].key in bag && bag[slots[j].key] == slots[j].count
  }

  ghost predicate Apart(slots: seq<Slot>, i: nat, j: nat) {
    i < j < |slots| && slots[i].Full? && slots[j].Full? ==> slots[i].key != slots[j].key
  }

  /** The one slot of a key. */
  lemma OneSlot(slots: seq<Slot>, mix: Mix, bag: multiset<nat>, i: nat, j: nat)
    requires Holds(slots, mix, bag) && i < |slots| && j < |slots| && slots[i].Full? && slots[j].Full?
    requires slots[i].key == slots[j].key
    ensures i == j
  {
    assert Apart(slots, i, j) && Apart(slots, j, i);
  }

  // ---- counting slots -------------------------------------------------------------------------

  function Fulls(slots: seq<Slot>, n: nat): nat
    requires n <= |slots|
    decreases n, slots
  {
    if n == 0 then 0 else Fulls(slots, n - 1) + if slots[n - 1].Full? then 1 else 0
  }

  function Tombs(slots: seq<Slot>, n: nat): nat
    requires n <= |slots|
    decreases n, slots
  {
    if n == 0 then 0 else Tombs(slots, n - 1) + if slots[n - 1].Tomb? then 1 else 0
  }

  lemma {:induction false} CountsSame(a: seq<Slot>, b: seq<Slot>, n: nat)
    requires n <= |a| && n <= |b| && forall i :: 0 <= i < n ==> a[i] == b[i]
    ensures Fulls(a, n) == Fulls(b, n) && Tombs(a, n) == Tombs(b, n)
  {
    if n > 0 { CountsSame(a, b, n - 1); }
  }

  lemma {:induction false} CountsUpdate(a: seq<Slot>, j: nat, s: Slot, n: nat)
    requires j < n <= |a|
    ensures Fulls(a[j := s], n) == Fulls(a, n) - (if a[j].Full? then 1 else 0) + if s.Full? then 1 else 0
    ensures Tombs(a[j := s], n) == Tombs(a, n) - (if a[j].Tomb? then 1 else 0) + if s.Tomb? then 1 else 0
  {
    if j == n - 1 {
      CountsSame(a, a[j := s], n - 1);
    } else {
      CountsUpdate(a, j, s, n - 1);
    }
  }

  /** Fewer filled and dead slots than slots leave an empty one. */
  lemma {:induction false} SomeEmpty(slots: seq<Slot>, n: nat) returns (j: nat)
    requires n <= |slots| && Fulls(slots, n) + Tombs(slots, n) < n
    ensures j < n && slots[j].Empty?
  {
    if slots[n - 1].Empty? {
      j := n - 1;
    } else {
      j := SomeEmpty(slots, n - 1);
    }
  }

  lemma {:induction false} NoneYet(slots: seq<Slot>, n: nat)
    requires n <= |slots| && forall i :: 0 <= i < |slots| ==> slots[i].Empty?
    ensures Fulls(slots, n) == 0 && Tombs(slots, n) == 0
  {
    if n > 0 { NoneYet(slots, n - 1); }
  }

  // ---- changing one slot ----------------------------------------------------------------------

  /** Probes for other keys do not notice a slot they pass before and after. */
  lemma FiledElsewhere(slots: seq<Slot>, mix: Mix, key: nat, count: nat, j: nat, s: Slot)
    requires j < |slots| && Filed(slots, mix, key, count)
    requires slots[j].Full? ==> slots[j].key != key
    requires Passes(s, key)
    ensures Filed(slots[j := s], mix, key, count)
  {
    var x := Start(mix, key, |slots|);
    var t: nat :| FoundAt(slots, x, key, count, t);
    var after := slots[j := s];
    forall u: nat | u < t ensures Passes(after[Step(x, u, |after|)], key) {
      assert Passes(slots[Step(x, u, |slots|)], key);
    }
    assert FoundAt(after, x, key, count, t);
  }

  /** A new key goes into a slot its own probe reaches. */
  lemma PlaceNew(slots: seq<Slot>, mix: Mix, bag: multiset<nat>, key: nat, count: nat, t: nat)
    requires Holds(slots, mix, bag) && key !in bag && count > 0 && t < |slots|
    requires PathClear(slots, Start(mix, key, |slots|), key, t)
    requires !slots[Step(Start(mix, key, |slots|), t, |slots|)].Full?
    ensures Holds(slots[Step(Start(mix, key, |slots|), t, |slots|) := Full(key, count)], mix, bag[key := count])
  {
    var x := Start(mix, key, |slots|);
    var j := Step(x, t, |slots|);
    var after, bag' := slots[j := Full(key, count)], bag[key := count];
    assert SlotOk(slots, bag, j);
    forall k: nat ensures KeyOk(after, mix, bag', k) {
      assert KeyOk(slots, mix, bag, k);
      if k == key {
        forall u: nat | u < t ensures Passes(after[Step(x, u, |after|)], key) {
          assert Passes(slots[Step(x, u, |slots|)], key);
        }
        assert FoundAt(after, x, key, count, t);
      } else if k in bag {
        FiledElsewhere(slots, mix, k, bag[k], j, Full(key, count));
      }
    }
    forall i: nat ensures SlotOk(after, bag', i) { assert SlotOk(slots, bag, i); }
    forall a: nat, b: nat ensures Apart(after, a, b) {
      assert Apart(slots, a, b) && SlotOk(slots, bag, a) && SlotOk(slots, bag, b);
    }
  }

  /** The multiplicity of a key changes in its slot. */
  lemma Recount(slots: seq<Slot>, mix: Mix, bag: multiset<nat>, key: nat, count: nat, j: nat)
    requires Holds(slots, mix, bag) && key in bag && count > 0 && j < |slots| && slots[j].Full? && slots[j].key == key
    ensures Holds(slots[j := Full(key, count)], mix, bag[key := count])
  {
    var after, bag' := slots[j := Full(key, count)], bag[key := count];
    forall k: nat ensures KeyOk(after, mix, bag', k) {
      assert KeyOk(slots, mix, bag, k);
      if k == key {
        FiledRecounted(slots, mix, bag, key, count, j);
      } else if k in bag {
        FiledElsewhere(slots, mix, k, bag[k], j, Full(key, count));
      }
    }
    forall i: nat ensures SlotOk(after, bag', i) {
      assert SlotOk(slots, bag, i);
      if i < |slots| && slots[i].Full? && slots[i].key == key { OneSlot(slots, mix, bag, i, j); }
    }
    forall a: nat, b: nat ensures Apart(after, a, b) { assert Apart(slots, a, b); }
  }

  lemma FiledRecounted(slots: seq<Slot>, mix: Mix, bag: multiset<nat>, key: nat, count: nat, j: nat)
    requires Holds(slots, mix, bag) && key in bag && j < |slots| && slots[j].Full? && slots[j].key == key
    ensures Filed(slots[j := Full(key, count)], mix, key, count)
  {
    assert KeyOk(slots, mix, bag, key);
    var x, after := Start(mix, key, |slots|), slots[j := Full(key, count)];
    var t: nat :| FoundAt(slots, x, key, bag[key], t);
    OneSlot(slots, mix, bag, Step(x, t, |slots|), j);
    forall u: nat | u < t ensures Passes(after[Step(x, u, |after|)], key) {
      assert Passes(slots[Step(x, u, |slots|)], key);
    }
    assert FoundAt(after, x, key, count, t);
  }

  /** The last occurrence of a key leaves a tombstone. */
  lemma Bury(slots: seq<Slot>, mix: Mix, bag: multiset<nat>, key: nat, j: nat)
    requires Holds(slots, mix, bag) && key in bag && j < |slots| && slots[j].Full? && slots[j].key == key
    ensures Holds(slots[j := Tomb], mix, bag[key := 0])
  {
    var after, bag' := slots[j := Tomb], bag[key := 0];
    forall k: nat ensures KeyOk(after, mix, bag', k) {
      assert KeyOk(slots, mix, bag, k);
      if k in bag' { FiledElsewhere(slots, mix, k, bag[k], j, Tomb); }
    }
    forall i: nat ensures SlotOk(after, bag', i) {
      assert SlotOk(slots, bag, i);
      if i < |slots| && slots[i].Full? && slots[i].key == key { OneSlot(slots, mix, bag, i, j); }
    }
    forall a: nat, b: nat ensures Apart(after, a, b) { assert Apart(slots, a, b); }
  }

  // ---- the table ------------------------------------------------------------------------------

  const MIN_CAPACITY: nat := 128

  function NextPow2(p: nat, n: nat): (r: nat)
    requires p > 0
    ensures r >= n && r >= p
    decreases if p < n then n - p else 0, n
  {
    if p < n then NextPow2(2 * p, n) else p
  }

  /** Where a probe for `key` ends, within one turn: at the key, or at the first empty slot. */
  method Probe(slots: seq<Slot>, mix: Mix, key: nat, ghost bag: multiset<nat>)
    returns (j: nat, tomb: int, ghost t: nat, ghost tt: nat)
    requires Holds(slots, mix, bag) && Fulls(slots, |slots|) + Tombs(slots, |slots|) < |slots|
    ensures t < |slots| && j == Step(Start(mix, key, |slots|), t, |slots|) && PathClear(slots, Start(mix, key, |slots|), key, t)
    ensures if key in bag then slots[j] == Full(key, bag[key]) else slots[j].Empty?
    ensures tomb >= 0 ==> tt < t && tomb == Step(Start(mix, key, |slots|), tt, |slots|) && slots[tomb].Tomb?
  {
    ghost var x, n := Start(mix, key, |slots|), |slots|;
    ghost var free := SomeEmpty(slots, |slots|);
    ghost var last := StepReaches(x, free, n);
    j, t, tomb, tt := Start(mix, key, |slots|), 0, -1, 0;
    while !slots[j].Empty? && !(slots[j].Full? && slots[j].key == key)
      invariant t <= last && j == Step(x, t, n) && PathClear(slots, x, key, t)
      invariant tomb >= 0 ==> tt < t && tomb == Step(x, tt, n) && slots[tomb].Tomb?
      decreases last - t
    {
      if slots[j].Tomb? && tomb < 0 { tomb, tt := j, t; }
      assert Passes(slots[Step(x, t, n)], key);
      j, t := if j + 1 == |slots| then 0 else j + 1, t + 1;
    }
    ProbeEnds(slots, mix, key, bag, t);
  }

  lemma ProbeEnds(slots: seq<Slot>, mix: Mix, key: nat, bag: multiset<nat>, t: nat)
    requires Holds(slots, mix, bag) && t < |slots| && PathClear(slots, Start(mix, key, |slots|), key, t)
    requires var s := slots[Step(Start(mix, key, |slots|), t, |slots|)]; s.Empty? || (s.Full? && s.key == key)
    ensures var s := slots[Step(Start(mix, key, |slots|), t, |slots|)];
      if key in bag then s == Full(key, bag[key]) else s.Empty?
  {
    assert KeyOk(slots, mix, bag, key) && SlotOk(slots, bag, Step(Start(mix, key, |slots|), t, |slots|));
    if key in bag {
      var x := Start(mix, key, |slots|);
      var r: nat :| FoundAt(slots, x, key, bag[key], r);
      assert slots[Step(x, r, |slots|)] == Full(key, bag[key]);
    }
  }

  /** The table holds the multiset, its counters count, and it has an empty slot. */
  ghost predicate Good(slots: seq<Slot>, mix: Mix, bag: multiset<nat>, size: nat, tombs: nat) {
    && Holds(slots, mix, bag)
    && size == Fulls(slots, |slots|) && tombs == Tombs(slots, |slots|) && size + tombs < |slots|
  }

  lemma InsertGood(slots: seq<Slot>, mix: Mix, bag: multiset<nat>, size: nat, tombs: nat, key: nat, count: nat, t: nat)
    requires Good(slots, mix, bag, size, tombs) && size + 1 + tombs < |slots| && key !in bag && count > 0 && t < |slots|
    requires PathClear(slots, Start(mix, key, |slots|), key, t)
    requires !slots[Step(Start(mix, key, |slots|), t, |slots|)].Full?
    ensures var j := Step(Start(mix, key, |slots|), t, |slots|);
      && (slots[j].Tomb? ==> tombs > 0)
      && Good(slots[j := Full(key, count)], mix, bag[key := count], size + 1, if slots[j].Tomb? then tombs - 1 else tombs)
  {
    var j := Step(Start(mix, key, |slots|), t, |slots|);
    PlaceNew(slots, mix, bag, key, count, t);
    CountsUpdate(slots, j, Full(key, count), |slots|);
  }

  lemma RecountGood(slots: seq<Slot>, mix: Mix, bag: multiset<nat>, size: nat, tombs: nat, key: nat, count: nat, j: nat)
    requires Good(slots, mix, bag, size, tombs) && key in bag && count > 0 && j < |slots| && slots[j].Full? && slots[j].key == key
    ensures Good(slots[j := Full(key, count)], mix, bag[key := count], size, tombs)
  {
    Recount(slots, mix, bag, key, count, j);
    CountsUpdate(slots, j, Full(key, count), |slots|);
  }

  lemma BuryGood(slots: seq<Slot>, mix: Mix, bag: multiset<nat>, size: nat, tombs: nat, key: nat, j: nat)
    requires Good(slots, mix, bag, size, tombs) && key in bag && j < |slots| && slots[j].Full? && slots[j].key == key
    ensures size > 0 && Good(slots[j := Tomb], mix, bag[key := 0], size - 1, tombs + 1)
  {
    Bury(slots, mix, bag, key, j);
    CountsUpdate(slots, j, Tomb, |slots|);
  }

  lemma FreshGood(slots: seq<Slot>, mix: Mix)
    requires |slots| > 0 && forall i :: 0 <= i < |slots| ==> slots[i].Empty?
    ensures Good(slots, mix, multiset{}, 0, 0)
  {
    NoneYet(slots, |slots|);
    forall j: nat ensures SlotOk(slots, multiset{}, j) {}
  }

  class RootBag {
    var slots: seq<Slot>
    var size: nat
    var tombstones: nat
    const mix: Mix
    ghost var bag: multiset<nat>

    /** The table starts without slots and gets its first ones with the first key. */
    ghost predicate Valid()
      reads this
    {
      if slots == [] then bag == multiset{} && size == tombstones == 0 else Good(slots, mix, bag, size, tombstones)
    }

    constructor (mix: Mix)
      ensures Valid() && bag == multiset{}
    {
      this.mix := mix;
      slots, size, tombstones, bag := [], 0, 0, multiset{};
    }

    method NeedsGrow() returns (b: bool)
      ensures b == (|slots| == 0 || (size + 1) * 2 >= |slots| || tombstones * 2 >= |slots|)
    {
      b := |slots| == 0 || (size + 1) * 2 >= |slots| || tombstones * 2 >= |slots|;
    }

    /** Put a key that is not in the table where its probe ended, or into an earlier tombstone. */
    method Insert(key: nat, count: nat)
      requires Good(slots, mix, bag, size, tombstones) && key !in bag && count > 0 && size + 1 + tombstones < |slots|
      modifies this
      ensures Good(slots, mix, bag, size, tombstones) && bag == old(bag)[key := count]
      ensures |slots| == |old(slots)| && size == old(size) + 1 && tombstones <= old(tombstones)
    {
      var j, tomb, t, tt := Probe(slots, mix, key, bag);
      if tomb >= 0 {
        ClearBefore(slots, Start(mix, key, |slots|), key, t, tt);
        InsertGood(slots, mix, bag, size, tombstones, key, count, tt);
        slots, tombstones := slots[tomb := Full(key, count)], tombstones - 1;
      } else {
        InsertGood(slots, mix, bag, size, tombstones, key, count, t);
        slots := slots[j := Full(key, count)];
      }
      size := size + 1;
      bag := bag[key := count];
    }

    /** Rehash the live entries into a table sized for them; tombstones disappear. */
    method Grow()
      requires Valid()
      modifies this
      ensures Good(slots, mix, bag, size, tombstones) && bag == old(bag) && size == old(size) && tombstones == 0
      ensures (size + 1) * 2 < |slots|
    {
      var was, need := slots, (size + 1) * 2 + 1;
      ghost var all, target := bag, size;
      var n := NextPow2(1, if need < MIN_CAPACITY then MIN_CAPACITY else need);
      slots := seq(n, _ => Empty);
      FreshGood(slots, mix);
      size, tombstones, bag := 0, 0, multiset{};
      Rehash(was, all, target);
      Rebuilt(was, mix, all, bag);
    }

    method Rehash(was: seq<Slot>, ghost all: multiset<nat>, ghost target: nat)
      requires Good(slots, mix, bag, size, tombstones) && tombstones == 0 && size == 0 && bag == multiset{}
      requires was != [] ==> Holds(was, mix, all)
      requires target == Fulls(was, |was|) && target + 1 < |slots|
      modifies this
      ensures Good(slots, mix, bag, size, tombstones) && tombstones == 0 && size == target && |slots| == |old(slots)|
      ensures forall k: nat :: bag[k] == PartOf(was, |was|, all, k)
    {
      for i := 0 to |was|
        invariant Good(slots, mix, bag, size, tombstones) && tombstones == 0 && |slots| == |old(slots)|
        invariant size == Fulls(was, i)
        invariant forall k: nat :: bag[k] == PartOf(was, i, all, k)
      {
        if was[i].Full? {
          FullsGrow(was, i, |was|);
          NotYet(was, mix, all, i);
          ghost var before := bag;
          Insert(was[i].key, was[i].count);
          PrefixGrows(was, mix, all, i, before, bag);
        } else {
          PrefixStays(was, all, i);
        }
      }
    }

    /** One more occurrence. */
    method Add(key: nat)
      requires Valid()
      modifies this
      ensures Valid() && bag == old(bag) + multiset{key}
    {
      var grow := NeedsGrow();
      if grow { Grow(); }
      var j, tomb, t, tt := Probe(slots, mix, key, bag);
      if slots[j].Full? {
        var c := slots[j].count + 1;
        RecountGood(slots, mix, bag, size, tombstones, key, c, j);
        slots := slots[j := Full(key, c)];
        bag := bag[key := c];
      } else {
        Insert(key, 1);
      }
      assert bag == old(bag) + multiset{key};
    }

    /** One occurrence less, if there is one. */
    method RemoveOne(key: nat) returns (found: bool)
      requires Valid()
      modifies this
      ensures Valid() && found == (key in old(bag)) && bag == old(bag) - multiset{key}
    {
      found := false;
      if slots != [] {
        var j, tomb, t, tt := Probe(slots, mix, key, bag);
        found := slots[j].Full?;
        if found {
          var c := slots[j].count - 1;
          if c == 0 {
            BuryGood(slots, mix, bag, size, tombstones, key, j);
            slots := slots[j := Tomb];
            tombstones, size := tombstones + 1, size - 1;
          } else {
            RecountGood(slots, mix, bag, size, tombstones, key, c, j);
            slots := slots[j := Full(key, c)];
          }
          bag := bag[key := c];
        }
      }
      assert bag == old(bag) - multiset{key};
    }

    /** Every key once, with its multiplicity. */
    method Each() returns (out: seq<(nat, nat)>)
      requires Valid()
      ensures forall i, j :: 0 <= i < j < |out| ==> out[i].0 != out[j].0
      ensures forall i :: 0 <= i < |out| ==> out[i].0 in bag && out[i].1 == bag[out[i].0]
      ensures forall k: nat :: k in bag ==> (k, bag[k]) in out
    {
      out := [];
      if slots != [] {
        ListStart(slots, bag, out);
        for i := 0 to |slots|
          invariant Listed(slots, i, bag, out)
        {
          ListNext(slots, mix, bag, i, out);
          out := AppendEntry(out, slots[i]);
        }
        ListedAll(slots, mix, bag, out);
      }
    }
  }

  function AppendEntry(out: seq<(nat, nat)>, s: Slot): seq<(nat, nat)> {
    if s.Full? then out + [(s.key, s.count)] else out
  }

  lemma ListStart(slots: seq<Slot>, bag: multiset<nat>, out: seq<(nat, nat)>)
    requires |out| == 0
    ensures Listed(slots, 0, bag, out)
  {
  }

  lemma ListedAll(slots: seq<Slot>, mix: Mix, bag: multiset<nat>, out: seq<(nat, nat)>)
    requires Holds(slots, mix, bag) && Listed(slots, |slots|, bag, out)
    ensures forall i :: 0 <= i < |out| ==> out[i].0 in bag && out[i].1 == bag[out[i].0]
    ensures forall k: nat :: k in bag ==> (k, bag[k]) in out
  {
    forall k: nat | k in bag ensures (k, bag[k]) in out {
      KeyHasSlot(slots, mix, bag, k);
      assert Reported(slots, |slots|, bag, out, k);
    }
    forall i | 0 <= i < |out| ensures out[i].0 in bag {
      assert InPrefix(slots, |slots|, out[i].0);
      var j: nat :| j < |slots| && slots[j].Full? && slots[j].key == out[i].0;
      assert SlotOk(slots, bag, j);
    }
  }

  lemma ClearBefore(slots: seq<Slot>, x: nat, key: nat, t: nat, tt: nat)
    requires x < |slots| && tt <= t <= |slots| && PathClear(slots, x, key, t)
    ensures PathClear(slots, x, key, tt)
  {
  }

  /** The multiplicity of `k` once the first `n` slots have been moved. */
  ghost function PartOf(slots: seq<Slot>, n: nat, all: multiset<nat>, k: nat): nat {
    if InPrefix(slots, n, k) then all[k] else 0
  }

  lemma NotYet(was: seq<Slot>, mix: Mix, all: multiset<nat>, i: nat)
    requires Holds(was, mix, all) && i < |was| && was[i].Full?
    ensures !InPrefix(was, i, was[i].key) && was[i].count == all[was[i].key] > 0
  {
    assert SlotOk(was, all, i);
    forall j: nat | j < i ensures !(was[j].Full? && was[j].key == was[i].key) { assert Apart(was, j, i); }
  }

  lemma PrefixGrows(was: seq<Slot>, mix: Mix, all: multiset<nat>, i: nat, before: multiset<nat>, bag: multiset<nat>)
    requires Holds(was, mix, all) && i < |was| && was[i].Full? && bag == before[was[i].key := was[i].count]
    requires forall k: nat :: before[k] == PartOf(was, i, all, k)
    ensures forall k: nat :: bag[k] == PartOf(was, i + 1, all, k)
  {
    var n := i + 1;
    assert SlotOk(was, all, i);
    forall k: nat ensures bag[k] == PartOf(was, n, all, k) { PrefixNext(was, i, k); }
  }

  lemma PrefixStays(was: seq<Slot>, all: multiset<nat>, i: nat)
    requires i < |was| && !was[i].Full?
    ensures forall k: nat :: PartOf(was, i + 1, all, k) == PartOf(was, i, all, k)
  {
    forall k: nat ensures PartOf(was, i + 1, all, k) == PartOf(was, i, all, k) { PrefixNext(was, i, k); }
  }

  ghost predicate Reported(slots: seq<Slot>, n: nat, bag: multiset<nat>, out: seq<(nat, nat)>, k: nat) {
    InPrefix(slots, n, k) ==> (k, bag[k]) in out
  }

  ghost predicate Listed(slots: seq<Slot>, n: nat, bag: multiset<nat>, out: seq<(nat, nat)>) {
    && (forall a, b :: 0 <= a < b < |out| ==> out[a].0 != out[b].0)
    && (forall a :: 0 <= a < |out| ==> InPrefix(slots, n, out[a].0) && out[a].1 == bag[out[a].0])
    && (forall k: nat :: Reported(slots, n, bag, out, k))
  }

  lemma ListNext(slots: seq<Slot>, mix: Mix, bag: multiset<nat>, i: nat, out: seq<(nat, nat)>)
    requires Holds(slots, mix, bag) && i < |slots| && Listed(slots, i, bag, out)
    ensures Listed(slots, i + 1, bag, AppendEntry(out, slots[i]))
  {
    var out' := AppendEntry(out, slots[i]);
    var n := i + 1;
    if slots[i].Full? { NotYet(slots, mix, bag, i); }
    forall k: nat ensures Reported(slots, n, bag, out', k) {
      PrefixNext(slots, i, k);
      assert Reported(slots, i, bag, out, k);
    }
    forall a | 0 <= a < |out'| ensures InPrefix(slots, n, out'[a].0) && out'[a].1 == bag[out'[a].0] {
      PrefixNext(slots, i, out'[a].0);
    }
  }

  ghost predicate InPrefix(slots: seq<Slot>, n: nat, key: nat) {
    exists j :: 0 <= j < n && j < |slots| && slots[j].Full? && slots[j].key == key
  }

  lemma PrefixNext(slots: seq<Slot>, i: nat, k: nat)
    requires i < |slots|
    ensures InPrefix(slots, i + 1, k) <==> InPrefix(slots, i, k) || (slots[i].Full? && slots[i].key == k)
  {
    if slots[i].Full? && slots[i].key == k { assert InPrefix(slots, i + 1, k); }
    if InPrefix(slots, i, k) {
      var j :| 0 <= j < i && slots[j].Full? && slots[j].key == k;
      assert InPrefix(slots, i + 1, k);
    }
  }

  lemma KeyHasSlot(slots: seq<Slot>, mix: Mix, bag: multiset<nat>, k: nat)
    requires Holds(slots, mix, bag) && k in bag
    ensures InPrefix(slots, |slots|, k)
  {
    assert KeyOk(slots, mix, bag, k);
    var x := Start(mix, k, |slots|);
    var t: nat :| FoundAt(slots, x, k, bag[k], t);
    assert slots[Step(x, t, |slots|)].Full?;
  }

  lemma {:induction false} FullsGrow(slots: seq<Slot>, i: nat, n: nat)
    requires i < n <= |slots| && slots[i].Full?
    ensures Fulls(slots, i) + 1 <= Fulls(slots, n)
    decreases n
  {
    if i < n - 1 { FullsGrow(slots, i, n - 1); }
  }

  lemma Rebuilt(was: seq<Slot>, mix: Mix, all: multiset<nat>, bag: multiset<nat>)
    requires was == [] ==> all == multiset{}
    requires was != [] ==> Holds(was, mix, all)
    requires forall k: nat :: bag[k] == PartOf(was, |was|, all, k)
    ensures bag == all
  {
    forall k: nat ensures bag[k] == all[k] {
      if k in all { KeyHasSlot(was, mix, all, k); }
    }
  }
}
