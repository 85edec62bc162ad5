/** Payloads in one byte arena: blocks per object, free lists per size, and cells of nine bytes. */
module PayloadHeaps {
  import opened Bytecode

  const CELL: nat := 9

  /** Sizes, arena offsets and addresses are 32 bits wide; from this request on, the rounding to
      cells wraps. */
  const WRAPS: nat := 0xFFFF_FFF8

  /** A block of the arena.  Blocks are cut once and never split or joined. */
  datatype Block = Block(at: nat, cells: nat)

  datatype Slot = Slot(block: Block, size: nat, live: bool, generation: nat)

  const BLANK := Slot(Block(0xFFFF_FFFF, 0), 0, false, 0)

  predicate Apart(a: Block, b: Block) {
    a.at + a.cells * CELL <= b.at || b.at + b.cells * CELL <= a.at
  }

  predicate CellsApart(a: nat, b: nat) { a + CELL <= b || b + CELL <= a }

  // ---- cells in the arena ---------------------------------------------------------------------

  predicate Word(v: int) { -HALF64 <= v < HALF64 }

  function CellBytes(v: int, tag: Byte): (s: seq<Byte>)
    requires Word(v)
    ensures |s| == CELL
  {
    ToBytes(Unsigned(v), 8) + [tag]
  }

  function ReadCell(mem: seq<Byte>, at: nat): (int, Byte)
    requires at + CELL <= |mem|
  {
    (Signed(FromBytes(mem, at, 8)), mem[at + 8])
  }

  lemma CellRoundTrip(mem: seq<Byte>, at: nat, v: int, tag: Byte)
    requires Word(v) && at + CELL <= |mem|
    ensures ReadCell(Overwrite(mem, at, CellBytes(v, tag)), at) == (v, tag)
  {
    var x := CellBytes(v, tag);
    var m := Overwrite(mem, at, x);
    Powers();
    assert m[at..at + 8] == ToBytes(Unsigned(v), 8) by {
      forall i | 0 <= i < 8 ensures m[at..at + 8][i] == ToBytes(Unsigned(v), 8)[i] { assert m[at + i] == x[i]; }
    }
    BytesRoundTrip(m, at, Unsigned(v), 8);
    assert m[at + 8] == x[8];
  }

  lemma {:induction false} FromBytesSame(a: seq<Byte>, b: seq<Byte>, at: nat, n: nat)
    requires at + n <= |a| && at + n <= |b| && forall i :: at <= i < at + n ==> a[i] == b[i]
    ensures FromBytes(a, at, n) == FromBytes(b, at, n)
    decreases n
  {
    if n > 0 { FromBytesSame(a, b, at + 1, n - 1); }
  }

  lemma ReadSame(a: seq<Byte>, b: seq<Byte>, at: nat)
    requires at + CELL <= |a| && at + CELL <= |b| && forall i :: at <= i < at + CELL ==> a[i] == b[i]
    ensures ReadCell(a, at) == ReadCell(b, at)
  {
    FromBytesSame(a, b, at, 8);
  }

  lemma {:induction false} ZeroWord(a: seq<Byte>, at: nat, n: nat)
    requires at + n <= |a| && forall i :: at <= i < at + n ==> a[i] == 0
    ensures FromBytes(a, at, n) == 0
    decreases n
  {
    if n > 0 { ZeroWord(a, at + 1, n - 1); }
  }

  // ---- the heap -------------------------------------------------------------------------------

  datatype Heap = Heap(mem: seq<Byte>, slots: seq<Slot>, freeHandles: seq<nat>, free: seq<Block>, cap: nat)

  /** All blocks ever cut: inside the arena, pairwise apart. */
  ghost predicate Cut(mem: seq<Byte>, all: set<Block>) {
    && (forall b :: b in all ==> b.cells > 0 && b.at + b.cells * CELL <= |mem|)
    && (forall a, b :: a in all && b in all && a != b ==> Apart(a, b))
  }

  ghost predicate LiveOk(h: Heap, all: set<Block>, i: nat) {
    i < |h.slots| && h.slots[i].live ==>
      && h.slots[i].block in all && h.slots[i].block !in h.free
      && h.slots[i].size <= h.slots[i].block.cells * CELL
  }

  ghost predicate OwnBlock(h: Heap, i: nat, j: nat) {
    i < j < |h.slots| && h.slots[i].live && h.slots[j].live ==> h.slots[i].block != h.slots[j].block
  }

  ghost predicate HandlesOk(h: Heap) {
    && (forall i, j :: 0 <= i < j < |h.freeHandles| ==> h.freeHandles[i] != h.freeHandles[j])
    && (forall i :: 0 <= i < |h.freeHandles| ==> 0 < h.freeHandles[i] < |h.slots| && !h.slots[h.freeHandles[i]].live)
  }

  /** Live and free blocks are blocks of the arena, no two the same; handle 0 is never live. */
  ghost predicate Inv(h: Heap, all: set<Block>) {
    && Cut(h.mem, all) && HandlesOk(h) && |h.mem| <= WORD32
    && |h.slots| > 0 && !h.slots[0].live
    && (forall i: nat :: LiveOk(h, all, i))
    && (forall i: nat, j: nat :: OwnBlock(h, i, j))
    && (forall k :: 0 <= k < |h.free| ==> h.free[k] in all)
    && (forall j, k :: 0 <= j < k < |h.free| ==> h.free[j] != h.free[k])
  }

  datatype Loaded = Nothing | Cell(v: int, tag: Byte)

  predicate InBounds(h: Heap, i: nat, off: nat) {
    i < |h.slots| && h.slots[i].live && off + CELL <= h.slots[i].size
  }

  lemma InArena(h: Heap, all: set<Block>, i: nat, off: nat)
    requires Inv(h, all) && InBounds(h, i, off)
    ensures h.slots[i].block.at + off + CELL <= |h.mem|
  {
    assert LiveOk(h, all, i);
  }

  /** Reading through a handle: nothing for a dead handle or past the requested size. */
  ghost function Load(h: Heap, all: set<Block>, i: nat, off: nat): Loaded
    requires Inv(h, all)
  {
    if InBounds(h, i, off) then
      InArena(h, all, i, off);
      var c := ReadCell(h.mem, h.slots[i].block.at + off);
      Cell(c.0, c.1)
    else Nothing
  }

  /** Two cells of different objects, or two cells apart in one object, share no byte. */
  lemma Separate(h: Heap, all: set<Block>, i: nat, a: nat, j: nat, b: nat)
    requires Inv(h, all) && InBounds(h, i, a) && InBounds(h, j, b) && (i == j ==> CellsApart(a, b))
    ensures CellsApart(h.slots[i].block.at + a, h.slots[j].block.at + b)
  {
    assert LiveOk(h, all, i) && LiveOk(h, all, j) && OwnBlock(h, i, j) && OwnBlock(h, j, i);
  }

  // ---- storing --------------------------------------------------------------------------------

  function Stored(h: Heap, at: nat, v: int, tag: Byte): Heap
    requires Word(v) && at + CELL <= |h.mem|
  {
    h.(mem := Overwrite(h.mem, at, CellBytes(v, tag)))
  }

  lemma StoredInv(h: Heap, all: set<Block>, at: nat, v: int, tag: Byte)
    requires Inv(h, all) && Word(v) && at + CELL <= |h.mem|
    ensures Inv(Stored(h, at, v, tag), all)
  {
    var h' := Stored(h, at, v, tag);
    forall i: nat ensures LiveOk(h', all, i) { assert LiveOk(h, all, i); }
    forall i: nat, j: nat ensures OwnBlock(h', i, j) { assert OwnBlock(h, i, j); }
  }

  /** A stored cell reads back, and no other cell changes. */
  lemma StoreThenLoad(h: Heap, all: set<Block>, i: nat, off: nat, v: int, tag: Byte, j: nat, b: nat)
    requires Inv(h, all) && InBounds(h, i, off) && Word(v) && (i == j ==> off == b || CellsApart(off, b))
    ensures h.slots[i].block.at + off + CELL <= |h.mem|
    ensures var h' := Stored(h, h.slots[i].block.at + off, v, tag);
      Inv(h', all) && Load(h', all, j, b) == if i == j && off == b then Cell(v, tag) else Load(h, all, j, b)
  {
    InArena(h, all, i, off);
    var at := h.slots[i].block.at + off;
    StoredInv(h, all, at, v, tag);
    if i == j && off == b {
      CellRoundTrip(h.mem, at, v, tag);
    } else if InBounds(h, j, b) {
      OtherCell(h, all, i, off, v, tag, j, b);
    }
  }

  lemma OtherCell(h: Heap, all: set<Block>, i: nat, off: nat, v: int, tag: Byte, j: nat, b: nat)
    requires Inv(h, all) && InBounds(h, i, off) && InBounds(h, j, b) && Word(v) && (i == j ==> CellsApart(off, b))
    ensures h.slots[i].block.at + off + CELL <= |h.mem| && h.slots[j].block.at + b + CELL <= |h.mem|
    ensures ReadCell(Stored(h, h.slots[i].block.at + off, v, tag).mem, h.slots[j].block.at + b) == ReadCell(h.mem, h.slots[j].block.at + b)
  {
    InArena(h, all, i, off);
    InArena(h, all, j, b);
    Separate(h, all, i, off, j, b);
    ReadSame(h.mem, Stored(h, h.slots[i].block.at + off, v, tag).mem, h.slots[j].block.at + b);
  }

  lemma StoreEffect(h: Heap, all: set<Block>, i: nat, off: nat, v: int, tag: Byte)
    requires Inv(h, all) && InBounds(h, i, off) && Word(v)
    ensures h.slots[i].block.at + off + CELL <= |h.mem|
    ensures var h' := Stored(h, h.slots[i].block.at + off, v, tag);
      && Inv(h', all) && Load(h', all, i, off) == Cell(v, tag)
      && forall j: nat, b: nat :: j != i || CellsApart(off, b) ==> Load(h', all, j, b) == Load(h, all, j, b)
  {
    StoreThenLoad(h, all, i, off, v, tag, i, off);
    var h' := Stored(h, h.slots[i].block.at + off, v, tag);
    forall j: nat, b: nat | j != i || CellsApart(off, b) ensures Load(h', all, j, b) == Load(h, all, j, b) {
      StoreThenLoad(h, all, i, off, v, tag, j, b);
    }
  }

  // ---- blocks ---------------------------------------------------------------------------------

  /** The most recently freed block of a size, or -1. */
  function LastOf(free: seq<Block>, cells: nat, n: nat): (k: int)
    requires n <= |free|
    ensures -1 <= k < n && (k >= 0 ==> free[k].cells == cells)
    decreases n, free
  {
    if n == 0 then -1 else if free[n - 1].cells == cells then n - 1 else LastOf(free, cells, n - 1)
  }

  /** `b` is a block of the arena that nobody has. */
  ghost predicate Loose(h: Heap, all: set<Block>, b: Block) {
    b in all && b !in h.free && forall i: nat :: NotHeld(h, b, i)
  }

  ghost predicate NotHeld(h: Heap, b: Block, i: nat) { i < |h.slots| && h.slots[i].live ==> h.slots[i].block != b }

  ghost predicate Zeroed(mem: seq<Byte>, b: Block) {
    b.at + b.cells * CELL <= |mem| && forall i :: b.at <= i < b.at + b.cells * CELL ==> mem[i] == 0
  }

  function Zeros(n: nat): (s: seq<Byte>)
    ensures |s| == n && forall i :: 0 <= i < n ==> s[i] == 0
  {
    seq(n, _ => 0)
  }

  function Recycled(h: Heap, k: nat): Heap
    requires k < |h.free| && h.free[k].at + h.free[k].cells * CELL <= |h.mem|
  {
    h.(mem := Overwrite(h.mem, h.free[k].at, Zeros(h.free[k].cells * CELL)), free := h.free[..k] + h.free[k + 1..])
  }

  lemma RecycledInv(h: Heap, all: set<Block>, k: nat)
    requires Inv(h, all) && k < |h.free|
    ensures h.free[k].at + h.free[k].cells * CELL <= |h.mem|
    ensures Inv(Recycled(h, k), all) && Loose(Recycled(h, k), all, h.free[k]) && Zeroed(Recycled(h, k).mem, h.free[k])
  {
    var b := h.free[k];
    assert b in all && b in h.free;
    var h' := Recycled(h, k);
    assert forall c :: c in h'.free ==> c in h.free;
    forall i: nat ensures LiveOk(h', all, i) && NotHeld(h', b, i) { assert LiveOk(h, all, i); }
    forall i: nat, j: nat ensures OwnBlock(h', i, j) { assert OwnBlock(h, i, j); }
  }

  lemma RecycledLoads(h: Heap, all: set<Block>, k: nat, j: nat, off: nat)
    requires Inv(h, all) && k < |h.free| && h.free[k].at + h.free[k].cells * CELL <= |h.mem| && Inv(Recycled(h, k), all)
    ensures Load(Recycled(h, k), all, j, off) == Load(h, all, j, off)
  {
    if InBounds(h, j, off) {
      assert LiveOk(h, all, j) && h.free[k] in h.free && h.free[k] in all;
      InArena(h, all, j, off);
      ReadSame(h.mem, Recycled(h, k).mem, h.slots[j].block.at + off);
    }
  }

  function Extended(h: Heap, cells: nat): Heap {
    h.(mem := h.mem + Zeros(cells * CELL))
  }

  lemma ExtendedInv(h: Heap, all: set<Block>, cells: nat)
    requires Inv(h, all) && cells > 0 && |h.mem| + cells * CELL <= WORD32
    ensures var b, h' := Block(|h.mem|, cells), Extended(h, cells);
      Inv(h', all + {b}) && Loose(h', all + {b}, b) && Zeroed(h'.mem, b)
  {
    var b, h' := Block(|h.mem|, cells), Extended(h, cells);
    forall i: nat ensures LiveOk(h', all + {b}, i) && NotHeld(h', b, i) { assert LiveOk(h, all, i); }
    forall i: nat, j: nat ensures OwnBlock(h', i, j) { assert OwnBlock(h, i, j); }
  }

  lemma ExtendedLoads(h: Heap, all: set<Block>, cells: nat, j: nat, off: nat)
    requires Inv(h, all) && cells > 0 && Inv(Extended(h, cells), all + {Block(|h.mem|, cells)})
    ensures Load(Extended(h, cells), all + {Block(|h.mem|, cells)}, j, off) == Load(h, all, j, off)
  {
    if InBounds(h, j, off) {
      InArena(h, all, j, off);
      ReadSame(h.mem, Extended(h, cells).mem, h.slots[j].block.at + off);
    }
  }

  // ---- handles --------------------------------------------------------------------------------

  /** Slot `i`, dead so far, takes the loose block `b`. */
  function Assigned(h: Heap, i: nat, b: Block, size: nat): Heap
    requires i < |h.slots|
  {
    h.(slots := h.slots[i := Slot(b, size, true, h.slots[i].generation)])
  }

  lemma AssignedInv(h: Heap, all: set<Block>, i: nat, b: Block, size: nat)
    requires Inv(h, all) && Loose(h, all, b) && 0 < i < |h.slots| && !h.slots[i].live && size <= b.cells * CELL
    requires forall k :: 0 <= k < |h.freeHandles| ==> h.freeHandles[k] != i
    ensures Inv(Assigned(h, i, b, size), all)
  {
    var h' := Assigned(h, i, b, size);
    forall j: nat ensures LiveOk(h', all, j) { assert LiveOk(h, all, j); }
    forall j: nat, k: nat ensures OwnBlock(h', j, k) { assert OwnBlock(h, j, k) && NotHeld(h, b, j) && NotHeld(h, b, k); }
  }

  /** A fresh payload reads as zero everywhere; nothing else changes. */
  lemma AssignedLoads(h: Heap, all: set<Block>, i: nat, b: Block, size: nat, j: nat, off: nat)
    requires Inv(h, all) && b in all && Zeroed(h.mem, b) && i < |h.slots| && !h.slots[i].live && size <= b.cells * CELL
    requires Inv(Assigned(h, i, b, size), all)
    ensures Load(Assigned(h, i, b, size), all, j, off) ==
            if j != i then Load(h, all, j, off) else if off + CELL <= size then Cell(0, 0) else Nothing
  {
    if j == i && off + CELL <= size {
      ZeroWord(h.mem, b.at + off, 8);
      assert h.mem[b.at + off + 8] == 0;
    }
  }

  function Released(h: Heap, i: nat): Heap
    requires i < |h.slots|
  {
    h.(slots := h.slots[i := BLANK.(generation := h.slots[i].generation + 1)], free := h.free + [h.slots[i].block],
       freeHandles := h.freeHandles + [i])
  }

  lemma ReleasedInv(h: Heap, all: set<Block>, i: nat)
    requires Inv(h, all) && i < |h.slots| && h.slots[i].live
    ensures Inv(Released(h, i), all)
  {
    var h' := Released(h, i);
    assert LiveOk(h, all, i);
    forall j: nat ensures LiveOk(h', all, j) { assert LiveOk(h, all, j) && OwnBlock(h, i, j) && OwnBlock(h, j, i); }
    forall j: nat, k: nat ensures OwnBlock(h', j, k) { assert OwnBlock(h, j, k); }
    forall k | 0 <= k < |h.free| ensures h.free[k] != h.slots[i].block { assert h.free[k] in h.free; }
  }

  // ---- sizes ----------------------------------------------------------------------------------

  /** Cells reserved for a request: rounded up in 32 bits, and at least one. */
  function Reserved(size: nat): (n: nat)
    ensures n > 0
  {
    var n := (size + CELL - 1) % WORD32 / CELL;
    if n == 0 then 1 else n
  }

  /** A cell may be accessed if it lies within the requested bytes. */
  predicate Accessible(size: nat, off: nat) { off + CELL <= size }

  /** The block holds every cell the bounds test lets through, exactly for requests whose rounding
      does not wrap. */
  lemma ReservedEnoughIff(size: nat)
    requires size < WORD32
    ensures size <= Reserved(size) * CELL <==> size < WRAPS
    ensures (forall off: nat :: Accessible(size, off) ==> off + CELL <= Reserved(size) * CELL) <==> size < WRAPS
  {
    if size >= WRAPS {
      assert Reserved(size) == 1;
      assert Accessible(size, CELL);
    }
  }

  // ---- allocation -----------------------------------------------------------------------------

  /** A block for the request can be had: one of its size is free, or the arena has room below
      2^32 bytes. */
  predicate Room(h: Heap, cells: nat) {
    LastOf(h.free, cells, |h.free|) >= 0 || |h.mem| + cells * CELL <= WORD32
  }

  datatype Blocked = Blocked(h: Heap, b: Block)

  /** A zeroed block of the size: the last one freed, or a new one at the end of the arena. */
  function WithBlock(h: Heap, cells: nat): Blocked
    requires forall k :: 0 <= k < |h.free| ==> h.free[k].at + h.free[k].cells * CELL <= |h.mem|
  {
    var k := LastOf(h.free, cells, |h.free|);
    if k >= 0 then Blocked(Recycled(h, k), h.free[k])
    else Blocked(Extended(h, cells), Block(|h.mem| % WORD32, cells))
  }

  ghost function AllWith(h: Heap, all: set<Block>, cells: nat): set<Block> {
    if LastOf(h.free, cells, |h.free|) >= 0 then all else all + {Block(|h.mem| % WORD32, cells)}
  }

  lemma FreeInArena(h: Heap, all: set<Block>)
    requires Inv(h, all)
    ensures forall k :: 0 <= k < |h.free| ==> h.free[k].at + h.free[k].cells * CELL <= |h.mem|
  {
  }

  /** With room, the block is zeroed, nobody's, and nothing else has changed; without, the arena is
      past what 32-bit offsets can name. */
  lemma BlockTaken(h: Heap, all: set<Block>, cells: nat)
    requires Inv(h, all) && cells > 0
    ensures forall k :: 0 <= k < |h.free| ==> h.free[k].at + h.free[k].cells * CELL <= |h.mem|
    ensures var r, all' := WithBlock(h, cells), AllWith(h, all, cells);
      if Room(h, cells) then
        && Inv(r.h, all') && Loose(r.h, all', r.b) && Zeroed(r.h.mem, r.b) && r.b.cells == cells
        && forall j: nat, off: nat :: Load(r.h, all', j, off) == Load(h, all, j, off)
      else |r.h.mem| > WORD32
  {
    FreeInArena(h, all);
    var k := LastOf(h.free, cells, |h.free|);
    if k >= 0 {
      RecycledAll(h, all, k);
    } else if Room(h, cells) {
      ExtendedAll(h, all, cells);
    }
  }

  lemma RecycledAll(h: Heap, all: set<Block>, k: nat)
    requires Inv(h, all) && k < |h.free|
    ensures h.free[k].at + h.free[k].cells * CELL <= |h.mem|
    ensures Inv(Recycled(h, k), all) && Loose(Recycled(h, k), all, h.free[k]) && Zeroed(Recycled(h, k).mem, h.free[k])
    ensures forall j: nat, off: nat :: Load(Recycled(h, k), all, j, off) == Load(h, all, j, off)
  {
    RecycledInv(h, all, k);
    forall j: nat, off: nat ensures Load(Recycled(h, k), all, j, off) == Load(h, all, j, off) { RecycledLoads(h, all, k, j, off); }
  }

  lemma ExtendedAll(h: Heap, all: set<Block>, cells: nat)
    requires Inv(h, all) && cells > 0 && |h.mem| + cells * CELL <= WORD32
    ensures var b, h' := Block(|h.mem|, cells), Extended(h, cells);
      && b.at == |h.mem| % WORD32 && Inv(h', all + {b}) && Loose(h', all + {b}, b) && Zeroed(h'.mem, b)
      && forall j: nat, off: nat :: Load(h', all + {b}, j, off) == Load(h, all, j, off)
  {
    ExtendedInv(h, all, cells);
    forall j: nat, off: nat
      ensures Load(Extended(h, cells), all + {Block(|h.mem|, cells)}, j, off) == Load(h, all, j, off)
    {
      ExtendedLoads(h, all, cells, j, off);
    }
  }

  predicate Exhausted(h: Heap) { h.freeHandles == [] && h.cap != 0 && |h.slots| >= h.cap }

  datatype Handled = Handled(h: Heap, i: nat)

  /** The last freed handle, or a new slot. */
  function WithHandle(h: Heap): Handled {
    var n := |h.freeHandles|;
    if n > 0 then Handled(h.(freeHandles := h.freeHandles[..n - 1]), h.freeHandles[n - 1])
    else Handled(h.(slots := h.slots + [BLANK]), |h.slots|)
  }

  lemma HandleTaken(h: Heap, all: set<Block>, b: Block)
    requires Inv(h, all) && Loose(h, all, b)
    ensures var r := WithHandle(h);
      && Inv(r.h, all) && Loose(r.h, all, b) && r.h.mem == h.mem
      && 0 < r.i < |r.h.slots| && !r.h.slots[r.i].live && (r.i < |h.slots| ==> !h.slots[r.i].live)
      && (forall k :: 0 <= k < |r.h.freeHandles| ==> r.h.freeHandles[k] != r.i)
      && forall j: nat, off: nat :: Load(r.h, all, j, off) == Load(h, all, j, off)
  {
    SameBlocks(h, WithHandle(h).h, all, b);
  }

  /** What the allocation does for a request that fits. */
  lemma AllocFits(h: Heap, all: set<Block>, size: nat, r: Blocked, g: Handled)
    requires Inv(h, all) && size < WRAPS && Room(h, Reserved(size)) && !Exhausted(h)
    requires forall k :: 0 <= k < |h.free| ==> h.free[k].at + h.free[k].cells * CELL <= |h.mem|
    requires r == WithBlock(h, Reserved(size)) && g == WithHandle(r.h)
    ensures g.i < |g.h.slots| && (g.i < |h.slots| ==> !h.slots[g.i].live)
    ensures var h', all' := Assigned(g.h, g.i, r.b, size), AllWith(h, all, Reserved(size));
      && g.i > 0 && Inv(h', all')
      && (forall off: nat :: Load(h', all', g.i, off) == if Accessible(size, off) then Cell(0, 0) else Nothing)
      && (forall j: nat, off: nat :: j != g.i ==> Load(h', all', j, off) == Load(h, all, j, off))
  {
    ReservedEnoughIff(size);
    BlockTaken(h, all, Reserved(size));
    var all' := AllWith(h, all, Reserved(size));
    HandleTaken(r.h, all', r.b);
    AssignedInv(g.h, all', g.i, r.b, size);
    forall j: nat, off: nat
      ensures Load(Assigned(g.h, g.i, r.b, size), all', j, off) ==
              if j != g.i then Load(g.h, all', j, off) else if Accessible(size, off) then Cell(0, 0) else Nothing
    {
      AssignedLoads(g.h, all', g.i, r.b, size, j, off);
    }
  }

  /** A wrapped request leaves a slot that claims more than it has. */
  lemma AllocWraps(h: Heap, i: nat, b: Block, size: nat, all: set<Block>)
    requires WRAPS <= size < WORD32 && i < |h.slots| && b.cells == Reserved(size)
    ensures !Inv(Assigned(h, i, b, size), all)
  {
    ReservedEnoughIff(size);
    assert !LiveOk(Assigned(h, i, b, size), all, i);
  }

  // ---- a request that wraps -------------------------------------------------------------------

  /** The largest multiple of nine below 2^32. */
  const HUGE: nat := 4294967292

  /** A heap after one request of 4294967292 bytes and one of nine. */
  function Collided(): Heap {
    var big := Assigned(WithHandle(Extended(Heap([], [BLANK], [], [], 0), Reserved(HUGE))).h, 1, Block(0, Reserved(HUGE)), HUGE);
    var grown := Extended(big, Reserved(CELL));
    Assigned(WithHandle(grown).h, 2, Block(|big.mem|, Reserved(CELL)), CELL)
  }

  /** Both requests are multiples of the cell size; the first gets a block of one cell, the bounds
      test lets a store at its second cell pass, and that store is cell 0 of the other object. */
  lemma HugeRequestOverlaps(v: int, tag: Byte)
    requires Word(v)
    ensures HUGE % CELL == 0 && HUGE >= WRAPS && Reserved(HUGE) == 1
    ensures var h := Collided();
      && InBounds(h, 1, CELL) && InBounds(h, 2, 0)
      && h.slots[1].block.at + CELL == h.slots[2].block.at && |h.mem| == 2 * CELL
      && ReadCell(h.mem, h.slots[2].block.at) == (0, 0)
      && ReadCell(Stored(h, h.slots[1].block.at + CELL, v, tag).mem, h.slots[2].block.at) == (v, tag)
  {
    var h := Collided();
    assert Reserved(HUGE) == 1 && Reserved(CELL) == 1;
    assert |h.slots| == 3 && |h.mem| == 18;
    ZeroWord(h.mem, 9, 8);
    CellRoundTrip(h.mem, 9, v, tag);
  }

  class PayloadHeap {
    var h: Heap
    ghost var all: set<Block>

    ghost predicate Valid()
      reads this
    {
      Inv(h, all)
    }

    constructor (cap: nat)
      ensures Valid() && h == Heap([], [BLANK], [], [], cap)
    {
      h, all := Heap([], [BLANK], [], [], cap), {};
    }

    /** Fix the slot space at `n` handles: the new ones are free, and no more will be made. */
    method ReserveSlots(n: nat)
      requires Valid()
      modifies this`h
      ensures Valid() && h.cap == n && h.mem == old(h).mem && h.free == old(h).free
      ensures |h.slots| == (if n > |old(h).slots| then n else |old(h).slots|)
      ensures forall i: nat :: i in h.freeHandles <==> i in old(h).freeHandles || |old(h).slots| <= i < n
      ensures old(Inv(h, all)) && forall j: nat, off: nat :: Load(h, all, j, off) == Load(old(h), all, j, off)
    {
      ghost var h0 := h;
      var m := |h.slots|;
      if n > m {
        h := h.(slots := h.slots + seq(n - m, _ => BLANK), freeHandles := h.freeHandles + seq(n - m, i => m + i));
        forall i: nat ensures i in h.freeHandles <==> i in h0.freeHandles || m <= i < n {
          if m <= i < n { assert h.freeHandles[|h0.freeHandles| + i - m] == i; }
        }
      }
      h := h.(cap := n);
      SameSlots(h0, h, all);
    }

    /** A new object reads as zero and disturbs no other.  Allocation fails exactly when no handle is
        left, and then the block it had taken stays out of use.  The heap stays in order exactly when
        the arena has room and the request, if granted, does not wrap. */
    method Alloc(size: nat) returns (ok: bool, i: nat)
      requires Valid() && size < WORD32
      modifies this
      ensures old(Inv(h, all)) && (ok <==> !Exhausted(old(h)))
      ensures Valid() <==> Room(old(h), Reserved(size)) && (ok ==> size < WRAPS)
      ensures ok ==> i < |h.slots| && h.slots[i].live && h.slots[i].size == size && h.slots[i].block.cells == Reserved(size)
      ensures ok && Valid() ==> i > 0 && (i < |old(h).slots| ==> !old(h).slots[i].live)
      ensures ok && Valid() ==> forall off: nat :: Load(h, all, i, off) == if Accessible(size, off) then Cell(0, 0) else Nothing
      ensures Valid() ==> forall j: nat, off: nat :: !ok || j != i ==> Load(h, all, j, off) == Load(old(h), old(all), j, off)
    {
      ghost var h0 := h;
      var cells := Reserved(size);
      BlockTaken(h, all, cells);
      var r := WithBlock(h, cells);
      all := AllWith(h, all, cells);
      h := r.h;
      i := 0;
      ok := !Exhausted(h);
      if ok {
        var g := WithHandle(h);
        HandleInRange(h0, old(all), r, cells);
        i := g.i;
        if Room(h0, cells) && size < WRAPS { AllocFits(h0, old(all), size, r, g); }
        if size >= WRAPS { AllocWraps(g.h, i, r.b, size, all); }
        h := Assigned(g.h, i, r.b, size);
      }
    }

    /** Return an object's block to its free list and retire the handle. */
    method FreePayload(i: nat)
      requires Valid()
      modifies this`h
      ensures Valid() && old(Inv(h, all)) && h == if i < |old(h).slots| && old(h).slots[i].live then Released(old(h), i) else old(h)
      ensures !(i < |h.slots| && h.slots[i].live)
      ensures forall j: nat, off: nat :: j != i ==> Load(h, all, j, off) == Load(old(h), all, j, off)
    {
      if i < |h.slots| && h.slots[i].live {
        ReleasedInv(h, all, i);
        h := Released(h, i);
      }
    }

    /** Store through a handle; refused for a dead handle or past the requested size. */
    method StoreCell(i: nat, off: nat, v: int, tag: Byte) returns (ok: bool)
      requires Valid() && Word(v)
      modifies this`h
      ensures Valid() && old(Inv(h, all)) && ok == InBounds(old(h), i, off)
      ensures ok ==> Load(h, all, i, off) == Cell(v, tag)
      ensures forall j: nat, b: nat :: (!ok || j != i || CellsApart(off, b)) ==> Load(h, all, j, b) == Load(old(h), all, j, b)
    {
      ok := InBounds(h, i, off);
      if ok {
        InArena(h, all, i, off);
        var at := (h.slots[i].block.at + off) % WORD32;
        StoreEffect(h, all, i, off, v, tag);
        h := Stored(h, at, v, tag);
      }
    }

    method LoadCell(i: nat, off: nat) returns (c: Loaded)
      requires Valid()
      ensures c == Load(h, all, i, off)
    {
      if InBounds(h, i, off) {
        InArena(h, all, i, off);
        var r := ReadCell(h.mem, (h.slots[i].block.at + off) % WORD32);
        c := Cell(r.0, r.1);
      } else {
        c := Nothing;
      }
    }
  }

  /** Taking a block leaves handles and slots alone. */
  lemma HandleInRange(h: Heap, all: set<Block>, r: Blocked, cells: nat)
    requires Inv(h, all)
    requires forall k :: 0 <= k < |h.free| ==> h.free[k].at + h.free[k].cells * CELL <= |h.mem|
    requires r == WithBlock(h, cells)
    ensures var g := WithHandle(r.h); g.i < |g.h.slots| && g.h.mem == r.h.mem
  {
  }

  /** New dead slots and fresh handles change no object. */
  lemma SameSlots(h: Heap, h': Heap, all: set<Block>)
    requires Inv(h, all) && h'.mem == h.mem && h'.free == h.free && HandlesOk(h')
    requires |h.slots| <= |h'.slots| && h.slots == h'.slots[..|h.slots|]
    requires forall i :: |h.slots| <= i < |h'.slots| ==> !h'.slots[i].live
    ensures Inv(h', all) && forall j: nat, off: nat :: Load(h', all, j, off) == Load(h, all, j, off)
  {
    forall i: nat | i < |h.slots| ensures h'.slots[i] == h.slots[i] { assert h'.slots[..|h.slots|][i] == h.slots[i]; }
    forall i: nat ensures LiveOk(h', all, i) { assert LiveOk(h, all, i); }
    forall i: nat, j: nat ensures OwnBlock(h', i, j) { assert OwnBlock(h, i, j); }
    forall j: nat, off: nat ensures Load(h', all, j, off) == Load(h, all, j, off) {}
  }

  /** Handles and dead slots are not part of what the blocks say. */
  lemma SameBlocks(h: Heap, h': Heap, all: set<Block>, b: Block)
    requires Inv(h, all) && Loose(h, all, b) && h'.mem == h.mem && h'.free == h.free && HandlesOk(h')
    requires |h.slots| <= |h'.slots| && h.slots == h'.slots[..|h.slots|]
    requires forall i :: |h.slots| <= i < |h'.slots| ==> !h'.slots[i].live
    ensures Inv(h', all) && Loose(h', all, b)
    ensures forall j: nat, off: nat :: Load(h', all, j, off) == Load(h, all, j, off)
  {
    SameSlots(h, h', all);
    forall i: nat | i < |h.slots| ensures h'.slots[i] == h.slots[i] { assert h'.slots[..|h.slots|][i] == h.slots[i]; }
    forall i: nat ensures NotHeld(h', b, i) { assert NotHeld(h, b, i); }
  }
}
