/** The slot pool: sharded free lists, per-owner recycle piles and caches, and generations. */
module CellPools {
  import opened Cells

  const SHARDS: nat := 16
  const REFILL: nat := 64

  /** Where a free slot waits. */
  datatype Bin = Shard(s: nat) | Recycle(o: nat) | Cache(o: nat)

  datatype Place = Live | Retired | In(b: Bin)

  datatype Pool = Pool(gen: seq<nat>, place: seq<Place>, bins: map<Bin, seq<Handle>>)

  /** The handles waiting in a bin, with the generation each slot had when it was put there. */
  function Content(p: Pool, b: Bin): seq<Handle> {
    if b in p.bins then p.bins[b] else []
  }

  predicate Unique(l: seq<Handle>) {
    forall i, j :: 0 <= i < j < |l| ==> l[i] != l[j]
  }

  /** A bin holds each of its slots once, exactly the slots whose place it is, and the generation
      kept with a slot is still current. */
  ghost predicate BinOk(p: Pool, b: Bin) {
    && Unique(Content(p, b))
    && forall h: Handle :: h in Content(p, b) <==> Waits(p, b, h)
  }

  predicate Waits(p: Pool, b: Bin, h: Handle) {
    h.index < |p.place| && h.index < |p.gen| && p.place[h.index] == In(b) && p.gen[h.index] == h.gen
  }

  /** Every slot is in exactly one place; only a slot at the last generation is retired. */
  ghost predicate PoolOk(p: Pool) {
    && |p.gen| == |p.place|
    && (forall b: Bin :: BinOk(p, b))
    && (forall x: nat :: x < |p.gen| ==> p.gen[x] <= MAX_GEN && (p.place[x] == Retired ==> p.gen[x] == MAX_GEN))
  }

  /** Handles given out so far: the current one only while its cell lives or its slot is retired. */
  ghost predicate IssuedOk(p: Pool, h: Handle) {
    h.index < |p.gen| && h.index < |p.place| && h.gen <= p.gen[h.index] &&
    (h.gen == p.gen[h.index] ==> p.place[h.index] == Live || p.place[h.index] == Retired)
  }

  predicate ValidHandle(p: Pool, h: Handle) {
    h.index < |p.gen| && h.index < |p.place| && p.place[h.index] == Live && p.gen[h.index] == h.gen
  }

  /** No handle that was given out becomes valid or invalid. */
  ghost predicate SameValidity(p: Pool, q: Pool, issued: set<Handle>) {
    forall g :: g in issued ==> (ValidHandle(q, g) <==> ValidHandle(p, g))
  }

  // ---- moving slots ---------------------------------------------------------------------------

  function Moved(p: Pool, x: nat, to: Place): Pool
    requires x < |p.place|
  {
    p.(place := p.place[x := to])
  }

  /** The slot at position `k` of bin `b` is taken out and made live at the generation kept there. */
  function TakeAt(p: Pool, b: Bin, k: nat): Pool
    requires |p.gen| == |p.place| && k < |Content(p, b)| && Content(p, b)[k].index < |p.place|
  {
    var l := Content(p, b);
    var h := l[k];
    Pool(p.gen[h.index := h.gen], p.place[h.index := Live], p.bins[b := l[..k] + l[k + 1..]])
  }

  function PutLast(p: Pool, b: Bin, x: nat): Pool
    requires x < |p.place| == |p.gen|
  {
    p.(place := p.place[x := In(b)], bins := p.bins[b := Content(p, b) + [Handle(x, p.gen[x])]])
  }

  lemma TakeOk(p: Pool, b: Bin, k: nat)
    requires PoolOk(p) && k < |Content(p, b)|
    ensures Waits(p, b, Content(p, b)[k])
    ensures PoolOk(TakeAt(p, b, k)) && TakeAt(p, b, k).gen == p.gen
  {
    var l := Content(p, b);
    assert BinOk(p, b) && l[k] in l;
    var p' := TakeAt(p, b, k);
    forall c: Bin ensures BinOk(p', c) {
      assert BinOk(p, c);
      TakeRest(l, k);
      forall h: Handle ensures h in Content(p', c) <==> Waits(p', c, h) {
        assert h in Content(p, c) <==> Waits(p, c, h);
      }
    }
  }

  lemma TakeRest(l: seq<Handle>, k: nat)
    requires Unique(l) && k < |l|
    ensures Unique(l[..k] + l[k + 1..])
    ensures forall y: Handle :: y in l[..k] + l[k + 1..] <==> y in l && y != l[k]
  {
    var m := l[..k] + l[k + 1..];
    forall y | y in l && y != l[k] ensures y in m {
      var j :| 0 <= j < |l| && l[j] == y;
      assert m[if j < k then j else j - 1] == y;
    }
  }

  lemma PutOk(p: Pool, b: Bin, x: nat)
    requires PoolOk(p) && x < |p.place| && p.place[x] == Live
    ensures PoolOk(PutLast(p, b, x))
  {
    var p' := PutLast(p, b, x);
    forall c: Bin ensures BinOk(p', c) {
      assert BinOk(p, c);
      if c == b { assert Handle(x, p.gen[x]) !in Content(p, b); }
      forall h: Handle ensures h in Content(p', c) <==> Waits(p', c, h) {
        assert h in Content(p, c) <==> Waits(p, c, h);
      }
    }
  }

  /** From one bin to another, a slot stays free. */
  lemma TransferOk(p: Pool, b: Bin, k: nat, c: Bin)
    requires PoolOk(p) && k < |Content(p, b)|
    ensures Waits(p, b, Content(p, b)[k]) && TakeAt(p, b, k).gen == p.gen
    ensures PoolOk(PutLast(TakeAt(p, b, k), c, Content(p, b)[k].index))
  {
    TakeOk(p, b, k);
    PutOk(TakeAt(p, b, k), c, Content(p, b)[k].index);
  }

  // ---- freeing --------------------------------------------------------------------------------

  /** The next generation, or the last one for good. */
  function Bumped(p: Pool, x: nat): Pool
    requires x < |p.gen|
  {
    if p.gen[x] == MAX_GEN then p else p.(gen := p.gen[x := p.gen[x] + 1])
  }

  lemma RetireOk(p: Pool, x: nat)
    requires PoolOk(p) && x < |p.place| && p.place[x] == Live && p.gen[x] == MAX_GEN
    ensures PoolOk(Moved(p, x, Retired))
  {
    var p' := Moved(p, x, Retired);
    forall b: Bin ensures BinOk(p', b) {
      assert BinOk(p, b);
      forall h: Handle ensures h in Content(p, b) <==> Waits(p', b, h) { assert h in Content(p, b) <==> Waits(p, b, h); }
    }
  }

  lemma BumpOk(p: Pool, x: nat)
    requires PoolOk(p) && x < |p.place|
    requires p.place[x] == Live
    ensures p.gen[x] != MAX_GEN ==> PoolOk(Bumped(p, x))
  {
    if p.gen[x] != MAX_GEN {
      forall b: Bin ensures BinOk(Bumped(p, x), b) {
        assert BinOk(p, b);
        forall h: Handle ensures h in Content(p, b) <==> Waits(Bumped(p, x), b, h) { assert h in Content(p, b) <==> Waits(p, b, h); }
      }
    }
  }

  // ---- running out ----------------------------------------------------------------------------

  /** Nothing is left that the owner's cache could be filled from. */
  ghost predicate Dry(p: Pool, o: nat) {
    Content(p, Recycle(o)) == [] && forall s: nat :: s < SHARDS ==> Content(p, Shard(s)) == []
  }

  ghost predicate Available(p: Pool, o: nat, cached: bool) {
    || (cached && (Content(p, Cache(o)) != [] || Content(p, Recycle(o)) != []))
    || exists s: nat :: s < SHARDS && Content(p, Shard(s)) != []
  }

  function ShardAt(first: nat, k: nat): nat { (first + k) % SHARDS }

  predicate Empty(p: Pool, first: nat, k: nat) { Content(p, Shard(ShardAt(first, k))) == [] }

  /** Going round from any shard visits them all. */
  lemma AllShards(p: Pool, first: nat)
    requires forall j: nat :: j < SHARDS ==> Empty(p, first, j)
    ensures forall s: nat :: s < SHARDS ==> Content(p, Shard(s)) == []
  {
    forall s: nat | s < SHARDS ensures Content(p, Shard(s)) == [] {
      var j: nat := (s + SHARDS - first % SHARDS) % SHARDS;
      assert ShardAt(first, j) == s;
      assert Empty(p, first, j);
    }
  }

  class CellPool {
    var p: Pool
    ghost var issued: set<Handle>

    ghost predicate Valid()
      reads this
    {
      && PoolOk(p) && (forall h :: h in issued ==> IssuedOk(p, h))
      && forall o: nat :: |Content(p, Cache(o))| <= REFILL
    }

    /** All slots start on the shared lists, at generation 1. */
    constructor (shardOf: seq<nat>)
      requires forall i :: 0 <= i < |shardOf| ==> shardOf[i] < SHARDS
      ensures Valid() && issued == {} && |p.gen| == |shardOf|
    {
      var pool := Pool(seq(|shardOf|, _ => 1), seq(|shardOf|, _ => Live), map[]);
      for i := 0 to |shardOf|
        invariant PoolOk(pool) && |pool.gen| == |shardOf|
        invariant forall x: nat :: i <= x < |shardOf| ==> pool.place[x] == Live
        invariant forall o: nat :: Content(pool, Cache(o)) == []
      {
        PutOk(pool, Shard(shardOf[i]), i);
        pool := PutLast(pool, Shard(shardOf[i]), i);
      }
      p, issued := pool, {};
    }

    /** Claim a free slot: its handle has never been given out before. */
    method Activate(b: Bin, k: nat) returns (h: Handle)
      requires Valid() && k < |Content(p, b)|
      modifies this
      ensures Valid() && h !in old(issued) && issued == old(issued) + {h}
      ensures ValidHandle(p, h) && !ValidHandle(old(p), h) && SameValidity(old(p), p, old(issued))
      ensures |old(p).gen| == |old(p).place| && Content(old(p), b)[k].index < |old(p).place| && h == Content(old(p), b)[k]
      ensures p == TakeAt(old(p), b, k) && p.gen == old(p).gen
    {
      TakeOk(p, b, k);
      h := Content(p, b)[k];
      assert !IssuedOk(p, h);
      forall g | g in issued ensures IssuedOk(TakeAt(p, b, k), g) { assert IssuedOk(p, g); }
      p := TakeAt(p, b, k);
      issued := issued + {h};
    }

    /** Pop the shared list of shard `s`. */
    method PopFrom(s: nat) returns (ok: bool, h: Handle)
      requires Valid()
      modifies this
      ensures Valid() && (ok <==> Content(old(p), Shard(s)) != [])
      ensures if ok then h !in old(issued) && issued == old(issued) + {h} && ValidHandle(p, h) else p == old(p) && issued == old(issued)
      ensures SameValidity(old(p), p, old(issued))
    {
      var l := Content(p, Shard(s));
      ok := l != [];
      h := Handle(0, 0);
      if ok { h := Activate(Shard(s), |l| - 1); }
    }

    /** Fill the owner's cache from its recycle pile, oldest first, then from the shards: it is full
        afterwards unless the pile and every shard have run out. */
    method RefillLocal(o: nat, first: nat)
      requires Valid()
      modifies this
      ensures Valid() && issued == old(issued) && p.gen == old(p).gen && SameValidity(old(p), p, issued)
      ensures |Content(p, Cache(o))| <= REFILL
      ensures |Content(p, Cache(o))| == REFILL || Dry(p, o)
      ensures p == old(p) || (|Content(p, Cache(o))| > |Content(old(p), Cache(o))| && !Dry(old(p), o))
    {
      while |Content(p, Cache(o))| < REFILL && Content(p, Recycle(o)) != []
        invariant Filling(o, old(p), old(issued))
        decreases |Content(p, Recycle(o))|
      {
        Transfer(Recycle(o), 0, Cache(o));
      }
      var k := 0;
      while k < SHARDS && |Content(p, Cache(o))| < REFILL
        invariant Filling(o, old(p), old(issued)) && k <= SHARDS
        invariant |Content(p, Cache(o))| == REFILL || Content(p, Recycle(o)) == []
        invariant |Content(p, Cache(o))| == REFILL || forall j: nat :: j < k ==> Empty(p, first, j)
      {
        var s := ShardAt(first, k);
        while |Content(p, Cache(o))| < REFILL && Content(p, Shard(s)) != []
          invariant Filling(o, old(p), old(issued)) && k < SHARDS
          invariant |Content(p, Cache(o))| == REFILL || Content(p, Recycle(o)) == []
          invariant |Content(p, Cache(o))| == REFILL || forall j: nat :: j < k ==> Empty(p, first, j)
          decreases |Content(p, Shard(s))|
        {
          ghost var q := p;
          Transfer(Shard(s), |Content(p, Shard(s))| - 1, Cache(o));
          forall j: nat | j < k ensures Empty(p, first, j) { assert Empty(q, first, j); }
        }
        k := k + 1;
      }
      if |Content(p, Cache(o))| < REFILL { AllShards(p, first); }
    }

    /** In the middle of a refill: slots have only moved into the cache. */
    ghost predicate Filling(o: nat, was: Pool, given: set<Handle>)
      reads this
    {
      && Valid() && issued == given && p.gen == was.gen && SameValidity(was, p, issued)
      && |Content(p, Cache(o))| <= REFILL && (p == was || (|Content(p, Cache(o))| > |Content(was, Cache(o))| && !Dry(was, o)))
    }

    method Transfer(b: Bin, k: nat, c: Bin)
      requires Valid() && k < |Content(p, b)| && b != c && (c.Cache? ==> |Content(p, c)| < REFILL)
      modifies this
      ensures Valid() && issued == old(issued) && p.gen == old(p).gen && |p.place| == |old(p).place|
      ensures |Content(p, b)| == |Content(old(p), b)| - 1 && |Content(p, c)| == |Content(old(p), c)| + 1
      ensures forall d: Bin :: d != b && d != c ==> Content(p, d) == Content(old(p), d)
      ensures SameValidity(old(p), p, issued)
    {
      TransferOk(p, b, k, c);
      TakeOk(p, b, k);
      var p1 := PutLast(TakeAt(p, b, k), c, Content(p, b)[k].index);
      forall g | g in issued ensures IssuedOk(p1, g) { assert IssuedOk(p, g); }
      p := p1;
    }

    /** Cache first, then the shared lists; refilling never gives a handle out.  Allocation fails
        exactly when every shard is empty and, for an owner with a cache, its cache and its pile. */
    method AllocInto(o: nat, cached: bool, first: nat) returns (ok: bool, h: Handle)
      requires Valid()
      modifies this
      ensures Valid()
      ensures ok <==> Available(old(p), o, cached)
      ensures if ok then h !in old(issued) && issued == old(issued) + {h} && ValidHandle(p, h) else issued == old(issued)
      ensures SameValidity(old(p), p, old(issued))
    {
      if cached {
        if Content(p, Cache(o)) == [] { RefillLocal(o, first); }
        var l := Content(p, Cache(o));
        if l != [] {
          h := Activate(Cache(o), |l| - 1);
          return true, h;
        }
      }
      ok, h := PopAny(first);
    }

    /** The first shard, from `first` on, that has a slot. */
    method PopAny(first: nat) returns (ok: bool, h: Handle)
      requires Valid()
      modifies this
      ensures Valid() && (ok <==> exists s: nat :: s < SHARDS && Content(old(p), Shard(s)) != [])
      ensures if ok then h !in old(issued) && issued == old(issued) + {h} && ValidHandle(p, h) else p == old(p) && issued == old(issued)
      ensures SameValidity(old(p), p, old(issued))
    {
      ok, h := PopFrom(ShardAt(first, 0));
      var k := 1;
      while !ok && k < SHARDS
        invariant Valid() && 1 <= k <= SHARDS
        invariant ok ==> exists s: nat :: s < SHARDS && Content(old(p), Shard(s)) != []
        invariant !ok ==> forall j: nat :: j < k ==> Empty(p, first, j)
        invariant if ok then h !in old(issued) && issued == old(issued) + {h} && ValidHandle(p, h) else p == old(p) && issued == old(issued)
        invariant SameValidity(old(p), p, old(issued))
      {
        ok, h := PopFrom(ShardAt(first, k));
        k := k + 1;
      }
      if !ok { AllShards(p, first); }
    }

    /** A stale or repeated free is refused; a good one moves the slot to the next generation and
        back to its owner's pile if there is room, else to its shard, or retires it. */
    method Free(h: Handle, shard: nat, pile: bool, o: nat) returns (ok: bool)
      requires Valid()
      modifies this
      ensures Valid() && issued == old(issued) && ok == ValidHandle(old(p), h)
      ensures !ok ==> p == old(p)
      ensures !ValidHandle(p, h)
      ensures forall g: Handle :: g != h ==> (ValidHandle(p, g) <==> ValidHandle(old(p), g))
    {
      ok := ValidHandle(p, h);
      if !ok { return; }
      var x := h.index;
      var p1;
      if p.gen[x] == MAX_GEN {
        RetireOk(p, x);
        p1 := Moved(p, x, Retired);
      } else {
        BumpOk(p, x);
        PutOk(Bumped(p, x), if pile then Recycle(o) else Shard(shard), x);
        p1 := PutLast(Bumped(p, x), if pile then Recycle(o) else Shard(shard), x);
      }
      forall g | g in issued ensures IssuedOk(p1, g) { assert IssuedOk(p, g); }
      p := p1;
    }

    /** At teardown the piles go back to the shards. */
    method DrainRecycle(o: nat, shardOf: seq<nat>)
      requires Valid() && |shardOf| == |p.place|
      modifies this
      ensures Valid() && issued == old(issued) && Content(p, Recycle(o)) == [] && p.gen == old(p).gen
      ensures SameValidity(old(p), p, issued)
    {
      while Content(p, Recycle(o)) != []
        invariant Valid() && issued == old(issued) && p.gen == old(p).gen && |shardOf| == |p.place|
        invariant SameValidity(old(p), p, issued)
        decreases |Content(p, Recycle(o))|
      {
        var x := Content(p, Recycle(o))[0].index;
        TakeOk(p, Recycle(o), 0);
        Transfer(Recycle(o), 0, Shard(shardOf[x]));
      }
    }
  }
}
