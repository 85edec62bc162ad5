/** The virtual machine's root places and its memory as the collector sees it. */
module VmState {

  // ---- values and places ----------------------------------------------------------------------

  datatype Kind = Int | Str | Float | Null

  /** A tagged word: a reference names a heap object, everything else is plain bits. */
  datatype Val = Word(bits: int, kind: Kind) | Ref(h: nat)

  const ZERO := Word(0, Int)

  /** What an instruction that ignores the tag reads. */
  function Bits(v: Val): int {
    match v case Word(b, _) => b case Ref(h) => h
  }

  datatype Saved = Saved(reg: nat, v: Val)

  datatype Frame = Frame(returnIp: nat, locals: seq<Saved>)

  datatype Handler = Handler(target: nat, reg: nat, callDepth: nat, dataDepth: nat)

  const REGS: nat := 4096
  const GLOBALS: nat := 256

  datatype Machine = Machine(
    regs: seq<Val>,
    globals: seq<Val>,
    spill: seq<Saved>,
    frames: seq<Frame>,
    handlers: seq<Handler>,
    ip: nat)
  {
    predicate Sized() {
      && |regs| == REGS && |globals| == GLOBALS
      && (forall i :: 0 <= i < |spill| ==> spill[i].reg < REGS)
      && (forall i :: 0 <= i < |frames| ==> LocalsOk(frames[i].locals))
      && (forall i :: 0 <= i < |handlers| ==> handlers[i].reg < REGS)
    }
  }

  predicate LocalsOk(l: seq<Saved>) {
    forall i :: 0 <= i < |l| ==> l[i].reg < REGS
  }

  // ---- counting references --------------------------------------------------------------------

  function One(v: Val, h: nat): nat { if v == Ref(h) then 1 else 0 }

  function Refs(l: seq<Val>, h: nat): nat {
    if l == [] then 0 else Refs(l[..|l| - 1], h) + One(l[|l| - 1], h)
  }

  function SavedRefs(l: seq<Saved>, h: nat): nat {
    if l == [] then 0 else SavedRefs(l[..|l| - 1], h) + One(l[|l| - 1].v, h)
  }

  function FrameRefs(l: seq<Frame>, h: nat): nat {
    if l == [] then 0 else FrameRefs(l[..|l| - 1], h) + SavedRefs(l[|l| - 1].locals, h)
  }

  /** How many registers, globals, spill entries and saved frame registers refer to `h`. */
  function Held(m: Machine, h: nat): nat {
    Refs(m.regs, h) + Refs(m.globals, h) + SavedRefs(m.spill, h) + FrameRefs(m.frames, h)
  }

  lemma {:induction false} RefsUpdate(l: seq<Val>, i: nat, v: Val, h: nat)
    requires i < |l|
    ensures Refs(l[i := v], h) == Refs(l, h) - One(l[i], h) + One(v, h)
  {
    var n := |l| - 1;
    if i == n {
      assert l[i := v][..n] == l[..n];
    } else {
      RefsUpdate(l[..n], i, v, h);
      assert l[i := v][..n] == l[..n][i := v];
    }
  }

  lemma {:induction false} RefsAt(l: seq<Val>, i: nat)
    requires i < |l| && l[i].Ref?
    ensures Refs(l, l[i].h) > 0
  {
    if i < |l| - 1 { RefsAt(l[..|l| - 1], i); }
  }

  lemma SavedPush(l: seq<Saved>, s: Saved, h: nat)
    ensures SavedRefs(l + [s], h) == SavedRefs(l, h) + One(s.v, h)
  {
    assert (l + [s])[..|l|] == l;
  }

  lemma FramePush(l: seq<Frame>, f: Frame, h: nat)
    ensures FrameRefs(l + [f], h) == FrameRefs(l, h) + SavedRefs(f.locals, h)
  {
    assert (l + [f])[..|l|] == l;
  }

  lemma {:induction false} SavedFirst(l: seq<Saved>, h: nat)
    requires l != []
    ensures SavedRefs(l, h) == One(l[0].v, h) + SavedRefs(l[1..], h)
  {
    var n := |l| - 1;
    if n > 0 {
      SavedFirst(l[..n], h);
      assert l[..n][1..] == l[1..][..n - 1];
    } else {
      assert l[..n] == [] && l[1..] == [];
    }
  }

  // ---- the memory -----------------------------------------------------------------------------

  /** A payload of nine-byte cells. */
  datatype Obj = Obj(live: bool, cells: seq<Val>)

  const DEAD := Obj(false, [])

  /** The objects; the root references the collector has been told of; and for every object the
      targets of the edges it has been told of. */
  datatype Memory = Memory(heap: seq<Obj>, roots: multiset<nat>, edges: seq<multiset<nat>>)

  predicate LiveIn(heap: seq<Obj>, h: nat) { h < |heap| && heap[h].live }

  predicate Live(m: Memory, h: nat) { LiveIn(m.heap, h) }

  /** The collector may free `f`: no root names a member, and no surviving object has an edge to
      one. */
  predicate Collectible(m: Memory, f: set<nat>) {
    && |m.edges| == |m.heap|
    && (forall h :: h in f ==> Live(m, h) && h !in m.roots)
    && (forall i :: 0 <= i < |m.heap| && m.heap[i].live && i !in f ==> NoneIn(m.edges[i], f))
  }

  predicate NoneIn(e: multiset<nat>, f: set<nat>) {
    forall t :: t in e ==> t !in f
  }

  function Freed(m: Memory, f: set<nat>): Memory {
    m.(heap := seq(|m.heap|, i requires 0 <= i < |m.heap| => if i in f then DEAD else m.heap[i]),
       edges := seq(|m.edges|, i requires 0 <= i < |m.edges| => if i in f then multiset{} else m.edges[i]))
  }

  lemma FreedNothing(m: Memory)
    requires |m.edges| == |m.heap|
    ensures Freed(m, {}) == m && Collectible(m, {})
  {
    assert Freed(m, {}).heap == m.heap && Freed(m, {}).edges == m.edges;
  }

  /** The collector has been told of one more or one less edge from `b` to `t`. */
  function Unedged(m: Memory, b: nat, t: nat): Memory
    requires b < |m.edges|
  {
    m.(edges := m.edges[b := m.edges[b] - multiset{t}])
  }

  function Edged(m: Memory, b: nat, t: nat): Memory
    requires b < |m.edges|
  {
    m.(edges := m.edges[b := m.edges[b] + multiset{t}])
  }

  function StoredIn(heap: seq<Obj>, b: nat, k: nat, v: Val): seq<Obj>
    requires b < |heap| && k < |heap[b].cells|
  {
    heap[b := heap[b].(cells := heap[b].cells[k := v])]
  }

  function Stored(m: Memory, b: nat, k: nat, v: Val): Memory
    requires b < |m.heap| && k < |m.heap[b].cells|
  {
    m.(heap := StoredIn(m.heap, b, k, v))
  }

  /** Handle 0 is never given out; a dead slot is reused or the table grows by one. */
  predicate Allocatable(heap: seq<Obj>, h: nat) {
    0 < h <= |heap| && (h < |heap| ==> !heap[h].live)
  }

  function AllocatedIn(heap: seq<Obj>, h: nat, n: nat): (r: seq<Obj>)
    requires Allocatable(heap, h)
    ensures LiveIn(r, h)
  {
    var o := Obj(true, seq(n, _ => ZERO));
    if h == |heap| then heap + [o] else heap[h := o]
  }

  function Allocated(m: Memory, h: nat, n: nat): Memory
    requires Allocatable(m.heap, h) && |m.edges| == |m.heap|
  {
    Memory(AllocatedIn(m.heap, h, n), m.roots,
           if h == |m.heap| then m.edges + [multiset{}] else m.edges[h := multiset{}])
  }

  lemma {:induction false} NoRefs(l: seq<Val>, h: nat)
    requires forall i :: 0 <= i < |l| ==> l[i] == ZERO
    ensures Refs(l, h) == 0
  {
    if l != [] { NoRefs(l[..|l| - 1], h); }
  }

  /** Objects only disappear; a survivor is untouched. */
  ghost predicate Shrunk(a: seq<Obj>, b: seq<Obj>) {
    |b| == |a| && forall i: nat :: i < |a| ==> Survivor(a, b, i)
  }

  ghost predicate Survivor(a: seq<Obj>, b: seq<Obj>, i: nat)
    requires i < |a| == |b|
  {
    b[i].live ==> b[i] == a[i]
  }

  lemma ShrunkSelf(a: seq<Obj>)
    ensures Shrunk(a, a)
  {
    forall i: nat | i < |a| ensures Survivor(a, a, i) {}
  }

  lemma ShrunkTwice(a: seq<Obj>, b: seq<Obj>, c: seq<Obj>)
    requires Shrunk(a, b) && Shrunk(b, c)
    ensures Shrunk(a, c)
  {
    forall i: nat | i < |a| ensures Survivor(a, c, i) { assert Survivor(a, b, i) && Survivor(b, c, i); }
  }

  // ---- the mirror -----------------------------------------------------------------------------

  /** A cell whose edge is being replaced: the collector does not know its content. */
  datatype Hole = None | At(base: nat, k: nat)

  function Cells(o: Obj, base: nat, hole: Hole): seq<Val> {
    if hole.At? && hole.base == base && hole.k < |o.cells| then o.cells[hole.k := ZERO] else o.cells
  }

  ghost predicate EdgesOk(m: Memory, hole: Hole, i: nat)
    requires |m.edges| == |m.heap| && i < |m.heap|
  {
    m.heap[i].live ==>
      (forall t: nat :: m.edges[i][t] == Refs(Cells(m.heap[i], i, hole), t) && (t in m.edges[i] ==> Live(m, t)))
  }

  ghost predicate RootsOk(mach: Machine, m: Memory, extra: multiset<nat>, h: nat) {
    m.roots[h] == Held(mach, h) + extra[h] && (h in m.roots ==> Live(m, h))
  }

  /** What the collector knows is what the machine holds: roots are the references in root places
      (plus those `extra` in the middle of an instruction), edges are the references in live
      payloads (but for the `hole`), and everything named is alive. */
  ghost predicate Mirror(mach: Machine, m: Memory, extra: multiset<nat>, hole: Hole) {
    && mach.Sized() && |m.edges| == |m.heap| && !Live(m, 0)
    && (forall h: nat :: RootsOk(mach, m, extra, h))
    && (forall i: nat :: i < |m.heap| ==> EdgesOk(m, hole, i))
  }

  lemma FreedKeepsMirror(mach: Machine, m: Memory, extra: multiset<nat>, hole: Hole, f: set<nat>)
    requires Mirror(mach, m, extra, hole) && Collectible(m, f)
    ensures Mirror(mach, Freed(m, f), extra, hole) && Shrunk(m.heap, Freed(m, f).heap) && Freed(m, f).roots == m.roots
  {
    var m' := Freed(m, f);
    forall i: nat | i < |m'.heap| ensures EdgesOk(m', hole, i) { FreedEdges(m, hole, f, i); }
    forall i: nat | i < |m'.heap| ensures Survivor(m.heap, m'.heap, i) {}
    forall h: nat ensures RootsOk(mach, m', extra, h) { assert RootsOk(mach, m, extra, h); }
  }

  lemma FreedEdges(m: Memory, hole: Hole, f: set<nat>, i: nat)
    requires Collectible(m, f) && i < |m.heap| && EdgesOk(m, hole, i)
    ensures EdgesOk(Freed(m, f), hole, i)
  {
    var m' := Freed(m, f);
    if m'.heap[i].live {
      assert NoneIn(m.edges[i], f);
      forall t: nat ensures t in m'.edges[i] ==> Live(m', t) {
        assert t in m.edges[i] ==> Live(m, t);
      }
    }
  }

  lemma HeldReg(mach: Machine, m: Memory, extra: multiset<nat>, hole: Hole, r: nat)
    requires Mirror(mach, m, extra, hole) && r < REGS && mach.regs[r].Ref?
    ensures mach.regs[r].h in m.roots && Live(m, mach.regs[r].h)
  {
    RefsAt(mach.regs, r);
    assert RootsOk(mach, m, extra, mach.regs[r].h);
  }

  lemma HeldGlobal(mach: Machine, m: Memory, extra: multiset<nat>, hole: Hole, g: nat)
    requires Mirror(mach, m, extra, hole) && g < GLOBALS && mach.globals[g].Ref?
    ensures mach.globals[g].h in m.roots && Live(m, mach.globals[g].h)
  {
    RefsAt(mach.globals, g);
    assert RootsOk(mach, m, extra, mach.globals[g].h);
  }

  /** A reference loaded from a live payload names a live object. */
  lemma LoadedIsLive(mach: Machine, m: Memory, extra: multiset<nat>, i: nat, k: nat)
    requires Mirror(mach, m, extra, None) && Live(m, i) && k < |m.heap[i].cells| && m.heap[i].cells[k].Ref?
    ensures Live(m, m.heap[i].cells[k].h)
  {
    assert EdgesOk(m, None, i);
    RefsAt(m.heap[i].cells, k);
    assert m.edges[i][m.heap[i].cells[k].h] > 0;
  }
}
