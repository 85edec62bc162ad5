/** The virtual machine's reference barriers, instruction by instruction, with either collector. */
module VirtualMachine {
  import opened VmState
  import opened ObjectStores
  import opened CollectedHeaps
  import P = PayloadHeaps
  import T = Tarjan

  // ---- what instructions do to the machine ----------------------------------------------------

  function MOne(v: Val): multiset<nat> { if v.Ref? then multiset{v.h} else multiset{} }

  /** `e` and the references of `l`. */
  function Plus(e: multiset<nat>, l: seq<Saved>): multiset<nat>
    decreases l, e
  {
    if l == [] then e else Plus(e, l[1..]) + MOne(l[0].v)
  }

  lemma {:induction false} PlusCount(e: multiset<nat>, l: seq<Saved>, h: nat)
    ensures Plus(e, l)[h] == e[h] + SavedRefs(l, h)
    decreases |l|
  {
    if l != [] {
      PlusCount(e, l[1..], h);
      SavedFirst(l, h);
    }
  }

  function WriteReg(m: Machine, r: nat, v: Val): Machine
    requires m.Sized() && r < REGS
  {
    m.(regs := m.regs[r := v])
  }

  /** Registers `lo` up to `hi` set to plain zero. */
  function ClearRegs(m: Machine, lo: nat, hi: nat): (m': Machine)
    requires m.Sized() && lo <= hi <= REGS
    ensures m'.Sized() && m'.frames == m.frames && m'.spill == m.spill
    decreases hi - lo, m
  {
    if lo == hi then m else WriteReg(ClearRegs(m, lo, hi - 1), hi - 1, ZERO)
  }

  function WriteSaved(m: Machine, l: seq<Saved>): (m': Machine)
    requires m.Sized() && LocalsOk(l)
    ensures m'.Sized() && m'.frames == m.frames && m'.spill == m.spill
  {
    if l == [] then m else WriteReg(WriteSaved(m, l[..|l| - 1]), l[|l| - 1].reg, l[|l| - 1].v)
  }

  /** Arguments and staging registers are cleared, the caller's locals come back. */
  function Restored(m: Machine): (m': Machine)
    requires m.Sized() && m.frames != []
    ensures m'.Sized() && m'.frames == m.frames[..|m.frames| - 1] && m'.spill == m.spill
  {
    var n := |m.frames| - 1;
    WriteSaved(ClearRegs(ClearRegs(m.(frames := m.frames[..n]), 1, 11), 240, 256), m.frames[n].locals)
  }

  function UnwindFrames(m: Machine, depth: nat): (m': Machine)
    requires m.Sized()
    ensures m'.Sized() && m'.spill == m.spill
    decreases |m.frames|
  {
    if |m.frames| <= depth then m else UnwindFrames(Restored(m), depth)
  }

  function PopSpill(m: Machine): (m': Machine)
    requires m.Sized() && m.spill != []
    ensures m'.Sized() && |m'.spill| == |m.spill| - 1 && m'.frames == m.frames
  {
    var n := |m.spill| - 1;
    WriteReg(m.(spill := m.spill[..n]), m.spill[n].reg, m.spill[n].v)
  }

  function UnwindSpill(m: Machine, depth: nat): (m': Machine)
    requires m.Sized()
    ensures m'.Sized()
    decreases |m.spill|
  {
    if |m.spill| <= depth then m else UnwindSpill(PopSpill(m), depth)
  }

  /** Control and value arrive at the innermost handler. */
  function Thrown(m: Machine, v: Val): Machine
    requires m.Sized() && m.handlers != []
  {
    var n := |m.handlers| - 1;
    var t := m.handlers[n];
    var u := UnwindSpill(UnwindFrames(m.(handlers := m.handlers[..n]), t.callDepth), t.dataDepth);
    WriteReg(u, t.reg, v).(ip := t.target)
  }

  /** The local registers a call saves: from `lo` up to `top`, without the staging registers. */
  function SaveFrom(regs: seq<Val>, lo: nat, top: nat): (l: seq<Saved>)
    requires |regs| == REGS && top <= REGS
    ensures LocalsOk(l)
    decreases top - lo, regs
  {
    if lo >= top then []
    else if 240 <= lo <= 255 then SaveFrom(regs, lo + 1, top)
    else [Saved(lo, regs[lo])] + SaveFrom(regs, lo + 1, top)
  }

  lemma SaveStep(regs: seq<Val>, l: seq<Saved>, r: nat, top: nat)
    requires |regs| == REGS && r < top <= REGS
    ensures l + SaveFrom(regs, r, top) ==
      (if 240 <= r <= 255 then l else l + [Saved(r, regs[r])]) + SaveFrom(regs, r + 1, top)
  {
  }

  function SaveRegs(regs: seq<Val>, top: nat): (l: seq<Saved>)
    requires |regs| == REGS && top <= REGS
    ensures LocalsOk(l)
  {
    SaveFrom(regs, FIRST_LOCAL, top)
  }

  const FIRST_LOCAL: nat := 16

  lemma SavedOne(e: multiset<nat>, l: seq<Saved>, s: Saved)
    ensures Plus(e, l + [s]) == Plus(e, l) + MOne(s.v)
  {
    forall h: nat ensures Plus(e, l + [s])[h] == (Plus(e, l) + MOne(s.v))[h] {
      PlusCount(e, l + [s], h);
      PlusCount(e, l, h);
      SavedPush(l, s, h);
    }
  }

  lemma NextSaved(m: Machine, l: seq<Saved>, k: nat, rest: multiset<nat>)
    requires m.Sized() && LocalsOk(l) && k < |l|
    ensures Plus(rest, l[k..]) == Plus(rest, l[k + 1..]) + MOne(l[k].v)
    ensures WriteSaved(m, l[..k + 1]) == WriteReg(WriteSaved(m, l[..k]), l[k].reg, l[k].v)
  {
    assert l[k..][1..] == l[k + 1..] && l[..k + 1][..k] == l[..k];
  }

  lemma InFlightIsLive(mach: Machine, mem: Memory, e: multiset<nat>, v: Val)
    requires Mirror(mach, mem, e + MOne(v), None)
    ensures v.Ref? ==> Live(mem, v.h)
  {
    if v.Ref? { assert RootsOk(mach, mem, e + MOne(v), v.h); }
  }

  lemma MovedRegs(mach: Machine, mem: Memory, e: multiset<nat>, r: nat, v: Val)
    requires Mirror(mach, mem, e + MOne(v), None) && r < REGS
    ensures Mirror(WriteReg(mach, r, v), mem, e + MOne(mach.regs[r]), None)
  {
    var mach' := WriteReg(mach, r, v);
    forall h: nat ensures RootsOk(mach', mem, e + MOne(mach.regs[r]), h) {
      assert RootsOk(mach, mem, e + MOne(v), h);
      RefsUpdate(mach.regs, r, v, h);
      assert One(v, h) == MOne(v)[h] && One(mach.regs[r], h) == MOne(mach.regs[r])[h];
    }
  }

  lemma MovedGlobals(mach: Machine, mem: Memory, e: multiset<nat>, g: nat, v: Val)
    requires Mirror(mach, mem, e + MOne(v), None) && g < GLOBALS
    ensures Mirror(mach.(globals := mach.globals[g := v]), mem, e + MOne(mach.globals[g]), None)
  {
    var mach' := mach.(globals := mach.globals[g := v]);
    forall h: nat ensures RootsOk(mach', mem, e + MOne(mach.globals[g]), h) {
      assert RootsOk(mach, mem, e + MOne(v), h);
      RefsUpdate(mach.globals, g, v, h);
      assert One(v, h) == MOne(v)[h] && One(mach.globals[g], h) == MOne(mach.globals[g])[h];
    }
  }

  /** A popped frame's references are in flight. */
  lemma PoppedFrame(mach: Machine, mem: Memory, extra: multiset<nat>)
    requires Mirror(mach, mem, extra, None) && mach.frames != []
    ensures var n := |mach.frames| - 1;
      Mirror(mach.(frames := mach.frames[..n]), mem, Plus(extra, mach.frames[n].locals), None)
  {
    var n := |mach.frames| - 1;
    var mach', extra' := mach.(frames := mach.frames[..n]), Plus(extra, mach.frames[n].locals);
    forall h: nat ensures RootsOk(mach', mem, extra', h) {
      assert RootsOk(mach, mem, extra, h);
      PlusCount(extra, mach.frames[n].locals, h);
    }
  }

  lemma PushedFrame(mach: Machine, mem: Memory, e: multiset<nat>, f: Frame)
    requires Mirror(mach, mem, Plus(e, f.locals), None) && LocalsOk(f.locals)
    ensures Mirror(mach.(frames := mach.frames + [f]), mem, e, None)
  {
    var mach' := mach.(frames := mach.frames + [f]);
    forall h: nat ensures RootsOk(mach', mem, e, h) {
      assert RootsOk(mach, mem, Plus(e, f.locals), h);
      PlusCount(e, f.locals, h);
      FramePush(mach.frames, f, h);
    }
  }

  lemma PoppedSpill(mach: Machine, mem: Memory, extra: multiset<nat>)
    requires Mirror(mach, mem, extra, None) && mach.spill != []
    ensures var n := |mach.spill| - 1;
      Mirror(mach.(spill := mach.spill[..n]), mem, extra + MOne(mach.spill[n].v), None)
  {
    var n := |mach.spill| - 1;
    var mach', extra' := mach.(spill := mach.spill[..n]), extra + MOne(mach.spill[n].v);
    forall h: nat ensures RootsOk(mach', mem, extra', h) { assert RootsOk(mach, mem, extra, h); }
  }

  lemma PushedSpill(mach: Machine, mem: Memory, e: multiset<nat>, s: Saved)
    requires Mirror(mach, mem, e + MOne(s.v), None) && s.reg < REGS
    ensures Mirror(mach.(spill := mach.spill + [s]), mem, e, None)
  {
    var mach' := mach.(spill := mach.spill + [s]);
    forall h: nat ensures RootsOk(mach', mem, e, h) {
      assert RootsOk(mach, mem, e + MOne(s.v), h);
      SavedPush(mach.spill, s, h);
    }
  }

  /** Handlers and the instruction pointer hold no references. */
  lemma Elsewhere(mach: Machine, mach': Machine, mem: Memory, extra: multiset<nat>)
    requires Mirror(mach, mem, extra, None) && mach'.Sized()
    requires mach' == mach.(handlers := mach'.handlers, ip := mach'.ip)
    ensures Mirror(mach', mem, extra, None)
  {
    forall h: nat ensures RootsOk(mach', mem, extra, h) { assert RootsOk(mach, mem, extra, h); }
  }

  // ---- what barriers do to the memory ---------------------------------------------------------

  lemma RootAdded(mach: Machine, mem: Memory, extra: multiset<nat>, h: nat)
    requires Mirror(mach, mem, extra, None) && Live(mem, h)
    ensures Mirror(mach, mem.(roots := mem.roots + multiset{h}), extra + multiset{h}, None)
  {
    var mem' := mem.(roots := mem.roots + multiset{h});
    forall x: nat ensures RootsOk(mach, mem', extra + multiset{h}, x) { assert RootsOk(mach, mem, extra, x); }
    forall i: nat | i < |mem'.heap| ensures EdgesOk(mem', None, i) { assert EdgesOk(mem, None, i); }
  }

  lemma RootRemoved(mach: Machine, mem: Memory, e: multiset<nat>, h: nat)
    requires Mirror(mach, mem, e + multiset{h}, None)
    ensures h in mem.roots
    ensures Mirror(mach, mem.(roots := mem.roots - multiset{h}), e, None)
  {
    assert RootsOk(mach, mem, e + multiset{h}, h);
    var mem' := mem.(roots := mem.roots - multiset{h});
    forall x: nat ensures RootsOk(mach, mem', e, x) { assert RootsOk(mach, mem, e + multiset{h}, x); }
    forall i: nat | i < |mem'.heap| ensures EdgesOk(mem', None, i) { assert EdgesOk(mem, None, i); }
  }

  /** Same roots, same liveness: only the edges of `b` have changed. */
  lemma RootsUntouched(mach: Machine, mem: Memory, mem': Memory, extra: multiset<nat>, h: nat)
    requires RootsOk(mach, mem, extra, h) && mem'.roots == mem.roots && |mem'.heap| == |mem.heap|
    requires forall i: nat :: i < |mem.heap| ==> mem'.heap[i].live == mem.heap[i].live
    ensures RootsOk(mach, mem', extra, h)
  {
  }

  lemma EdgeRemoved(mach: Machine, mem: Memory, extra: multiset<nat>, b: nat, k: nat)
    requires Mirror(mach, mem, extra, None) && Live(mem, b) && k < |mem.heap[b].cells| && mem.heap[b].cells[k].Ref?
    ensures Mirror(mach, Unedged(mem, b, mem.heap[b].cells[k].h), extra, At(b, k))
  {
    var t := mem.heap[b].cells[k].h;
    var mem' := Unedged(mem, b, t);
    forall h: nat ensures RootsOk(mach, mem', extra, h) { assert RootsOk(mach, mem, extra, h); }
    forall i: nat | i < |mem'.heap| ensures EdgesOk(mem', At(b, k), i) {
      assert EdgesOk(mem, None, i);
      if i == b {
        forall x: nat ensures mem'.edges[i][x] == Refs(Cells(mem'.heap[i], i, At(b, k)), x) && (x in mem'.edges[i] ==> Live(mem', x)) {
          assert mem.edges[i][x] == Refs(Cells(mem.heap[i], i, None), x);
          RefsUpdate(mem.heap[b].cells, k, ZERO, x);
          assert mem.edges[i][t] == Refs(mem.heap[b].cells, t);
          RefsAt(mem.heap[b].cells, k);
        }
      }
    }
  }

  /** The edge of a referring cell is one the collector knows. */
  lemma EdgeKnown(mach: Machine, mem: Memory, extra: multiset<nat>, b: nat, k: nat)
    requires Mirror(mach, mem, extra, None) && Live(mem, b) && k < |mem.heap[b].cells| && mem.heap[b].cells[k].Ref?
    ensures mem.heap[b].cells[k].h in mem.edges[b]
  {
    assert EdgesOk(mem, None, b);
    RefsAt(mem.heap[b].cells, k);
    assert mem.edges[b][mem.heap[b].cells[k].h] > 0;
  }

  /** A cell without a reference may be a hole, and the other way round. */
  lemma HoleIsPlain(mach: Machine, mem: Memory, extra: multiset<nat>, b: nat, k: nat)
    requires Live(mem, b) && k < |mem.heap[b].cells| && !mem.heap[b].cells[k].Ref?
    ensures Mirror(mach, mem, extra, None) <==> Mirror(mach, mem, extra, At(b, k))
  {
    if |mem.edges| == |mem.heap| {
      forall i: nat | i < |mem.heap| ensures EdgesOk(mem, None, i) <==> EdgesOk(mem, At(b, k), i) {
        if i == b {
          forall x: nat ensures Refs(Cells(mem.heap[i], i, At(b, k)), x) == Refs(mem.heap[i].cells, x) {
            RefsUpdate(mem.heap[b].cells, k, ZERO, x);
          }
        }
      }
    }
  }

  lemma StoredInHole(mach: Machine, mem: Memory, extra: multiset<nat>, b: nat, k: nat, v: Val)
    requires Mirror(mach, mem, extra, At(b, k)) && Live(mem, b) && k < |mem.heap[b].cells|
    ensures Mirror(mach, Stored(mem, b, k, v), extra, At(b, k))
  {
    var mem' := Stored(mem, b, k, v);
    forall h: nat ensures RootsOk(mach, mem', extra, h) {
      assert RootsOk(mach, mem, extra, h);
      RootsUntouched(mach, mem, mem', extra, h);
    }
    forall i: nat | i < |mem'.heap| ensures EdgesOk(mem', At(b, k), i) {
      assert EdgesOk(mem, At(b, k), i);
      assert Cells(mem'.heap[i], i, At(b, k)) == Cells(mem.heap[i], i, At(b, k));
    }
  }

  lemma EdgeAdded(mach: Machine, mem: Memory, extra: multiset<nat>, b: nat, k: nat)
    requires Mirror(mach, mem, extra, At(b, k)) && Live(mem, b) && k < |mem.heap[b].cells|
    requires mem.heap[b].cells[k].Ref? && Live(mem, mem.heap[b].cells[k].h)
    ensures Mirror(mach, Edged(mem, b, mem.heap[b].cells[k].h), extra, None)
  {
    var t := mem.heap[b].cells[k].h;
    var mem' := Edged(mem, b, t);
    forall h: nat ensures RootsOk(mach, mem', extra, h) { assert RootsOk(mach, mem, extra, h); }
    forall i: nat | i < |mem'.heap| ensures EdgesOk(mem', None, i) {
      assert EdgesOk(mem, At(b, k), i);
      if i == b {
        forall x: nat ensures mem'.edges[i][x] == Refs(Cells(mem'.heap[i], i, None), x) && (x in mem'.edges[i] ==> Live(mem', x)) {
          assert mem.edges[i][x] == Refs(Cells(mem.heap[i], i, At(b, k)), x);
          RefsUpdate(mem.heap[b].cells, k, ZERO, x);
        }
      }
    }
  }

  // ---- allocation -----------------------------------------------------------------------------

  lemma AllocatedMirror(mach: Machine, mem: Memory, extra: multiset<nat>, h: nat, n: nat)
    requires Mirror(mach, mem, extra, None) && Allocatable(mem.heap, h)
    ensures Mirror(mach, Allocated(mem, h, n), extra, None) && Live(Allocated(mem, h, n), h)
  {
    var mem' := Allocated(mem, h, n);
    forall x: nat | Live(mem, x) ensures Live(mem', x) {}
    forall x: nat ensures RootsOk(mach, mem', extra, x) { assert RootsOk(mach, mem, extra, x); }
    forall i: nat | i < |mem'.heap| ensures EdgesOk(mem', None, i) {
      if i == h {
        forall t: nat ensures mem'.edges[i][t] == Refs(Cells(mem'.heap[i], i, None), t) { NoRefs(mem'.heap[i].cells, t); }
      } else {
        assert EdgesOk(mem, None, i);
      }
    }
  }

  // ---- instructions ---------------------------------------------------------------------------

  datatype Instr =
    | Compute(dst: nat, result: Machine -> int, kind: Kind)
    | Copy(dst: nat, src: nat)
    | PushR(r: nat)
    | PopR(r: nat)
    | GLoad(g: nat, dst: nat)
    | GStore(g: nat, src: nat)
    | Alloc(dst: nat, cells: nat)
    | HFree(r: nat)
    | HStore(base: nat, off: nat, src: nat)
    | HLoad(base: nat, off: nat, dst: nat)
    | Jump(next: Machine -> nat)
    | Call(target: nat, top: nat)
    | CallInd(r: nat, nargs: nat, entry: Val -> nat, top: nat)
    | Ret
    | TryPush(target: nat, dst: nat)
    | TryPop
    | Throw(src: nat)

  predicate InRange(i: Instr) {
    match i
    case Compute(d, _, _) => d < REGS
    case Copy(d, s) => d < REGS && s < REGS
    case PushR(r) => r < REGS
    case PopR(r) => r < REGS
    case GLoad(_, d) => d < REGS
    case GStore(_, s) => s < REGS
    case Alloc(d, n) => d < REGS && 0 < n && n * CELL < P.WRAPS
    case HFree(r) => r < REGS
    case HStore(b, o, s) => b < REGS && o < REGS && s < REGS
    case HLoad(b, o, d) => b < REGS && o < REGS && d < REGS
    case Jump(_) => true
    case Call(_, top) => top <= REGS
    case CallInd(r, n, _, top) => r < REGS && n < 255 && top <= REGS
    case Ret => true
    case TryPush(_, d) => d < REGS
    case TryPop => true
    case Throw(s) => s < REGS
  }

  datatype Outcome = Running | Halted | Panicked | Uncaught

  const CELL: int := 9
  const WORD32: int := 0x1_0000_0000

  /** Heap accesses fall on cell boundaries. */
  predicate Aligned(m: Machine, i: Instr)
    requires m.Sized() && InRange(i)
  {
    (i.HStore? || i.HLoad?) ==> Bits(m.regs[i.off]) % WORD32 % CELL == 0
  }

  /** What the instructions that need neither heap nor a stacked value do to the machine. */
  predicate Plain(i: Instr) {
    i.Compute? || i.Copy? || i.PushR? || i.HFree? || i.Jump? || i.Call? || i.TryPush?
  }

  function Effect(m: Machine, i: Instr): Machine
    requires m.Sized() && InRange(i) && Plain(i)
  {
    var next := m.ip + 1;
    match i
    case Compute(dst, result, kind) => WriteReg(m, dst, Word(result(m), kind)).(ip := next)
    case Copy(dst, src) => WriteReg(m, dst, m.regs[src]).(ip := next)
    case PushR(r) => m.(spill := m.spill + [Saved(r, m.regs[r])], ip := next)
    case HFree(_) => m.(ip := next)
    case Jump(f) => m.(ip := f(m))
    case Call(target, top) => m.(frames := m.frames + [Frame(next, SaveRegs(m.regs, top))], ip := target)
    case TryPush(target, dst) =>
      m.(handlers := m.handlers + [Handler(target, dst, |m.frames|, |m.spill|)], ip := next)
  }

  /** Arguments above `i`, up to the `n`-th, have moved up by one register. */
  function MovedUp(m: Machine, i: nat, n: nat): (m': Machine)
    requires m.Sized()
    ensures m'.Sized()
  {
    m.(regs := seq(REGS, k requires 0 <= k < REGS => if i + 2 <= k <= n + 1 then m.regs[k - 1] else m.regs[k]))
  }

  lemma MoveNone(m: Machine, n: nat)
    requires m.Sized()
    ensures MovedUp(m, n, n) == m
  {
    assert MovedUp(m, n, n).regs == m.regs;
  }

  lemma MoveNext(m: Machine, i: nat, n: nat)
    requires m.Sized() && 1 <= i <= n < 255
    ensures MovedUp(m, i - 1, n) == WriteReg(MovedUp(m, i, n), i + 1, MovedUp(m, i, n).regs[i])
  {
  }

  /** The arguments move up by one register and the closure in `r` becomes the first; a closure in a
      register that the arguments move into is read after they have moved. */
  function Shifted(m: Machine, r: nat, n: nat): (m': Machine)
    requires m.Sized() && r < REGS
    ensures m'.Sized()
  {
    m.(regs := seq(REGS, k requires 0 <= k < REGS =>
      if k == 1 then (if 2 <= r <= n + 1 then m.regs[r - 1] else m.regs[r])
      else if 2 <= k <= n + 1 then m.regs[k - 1]
      else m.regs[k]))
  }

  lemma MoveLast(m: Machine, r: nat, n: nat)
    requires m.Sized() && r < REGS && n < 255
    ensures WriteReg(MovedUp(m, 0, n), 1, MovedUp(m, 0, n).regs[r]) == Shifted(m, r, n)
  {
    assert WriteReg(MovedUp(m, 0, n), 1, MovedUp(m, 0, n).regs[r]).regs == Shifted(m, r, n).regs;
  }

  /** A closure is called through its first cell, with itself as an extra first argument; a plain
      value is the callee.  The caller's locals are saved after the arguments have moved. */
  ghost function CalledIndirectly(m: Machine, mem: Memory, r: nat, n: nat, entry: Val -> nat, top: nat): Machine
    requires m.Sized() && r < REGS && top <= REGS && (m.regs[r].Ref? ==> HasCell(mem, m.regs[r].h))
  {
    var callee := if m.regs[r].Ref? then mem.heap[m.regs[r].h].cells[0] else m.regs[r];
    var s := if m.regs[r].Ref? then Shifted(m, r, n) else m;
    s.(frames := m.frames + [Frame(m.ip + 1, SaveRegs(s.regs, top))], ip := entry(callee))
  }

  /** Cell `k` of object `b` can be read and written. */
  ghost predicate Readable(mem: Memory, b: nat, k: nat) {
    Live(mem, b) && k < |mem.heap[b].cells|
  }

  /** The object a register names, as 32 bits, and the cell its byte offset falls on. */
  function BaseOf(m: Machine, r: nat): nat
    requires m.Sized() && r < REGS
  {
    Bits(m.regs[r]) % WORD32
  }

  function CellOf(m: Machine, r: nat): nat
    requires m.Sized() && r < REGS
  {
    Bits(m.regs[r]) % WORD32 / CELL
  }

  /** A value reaches the innermost handler, or nobody. */
  ghost predicate Delivered(m: Machine, v: Val, o: Outcome, m': Machine)
    requires m.Sized()
  {
    if m.handlers == [] then o == Uncaught && m' == m else o == Running && m' == Thrown(m, v)
  }

  /** A runtime error: an object with a message in its one cell is thrown, if there is room for it. */
  ghost predicate Raised(m: Machine, mem: Memory, full: bool, o: Outcome, m': Machine, mem': Memory)
    requires m.Sized()
  {
    if full then o == Panicked else exists h: nat :: RaisedAt(m, mem, h, o, m', mem')
  }

  ghost predicate RaisedAt(m: Machine, mem: Memory, h: nat, o: Outcome, m': Machine, mem': Memory)
    requires m.Sized()
  {
    Allocatable(mem.heap, h) && Delivered(m, Ref(h), o, m') && Shrunk(Message(mem, h).heap, mem'.heap)
  }

  ghost function Message(mem: Memory, h: nat): Memory
    requires Allocatable(mem.heap, h)
  {
    Stored(mem.(heap := AllocatedIn(mem.heap, h, 1)), h, 0, Word(0, Str))
  }

  /** A load puts the cell into the register and changes nothing else; out of bounds it raises. */
  ghost predicate Loaded(m: Machine, mem: Memory, full: bool, base: nat, off: nat, dst: nat, o: Outcome, m': Machine, mem': Memory)
    requires m.Sized() && base < REGS && off < REGS && dst < REGS
  {
    var b, k := BaseOf(m, base), CellOf(m, off);
    if Readable(mem, b, k) then
      o == Running && m' == WriteReg(m, dst, mem.heap[b].cells[k]).(ip := m.ip + 1) && Shrunk(mem.heap, mem'.heap)
    else Raised(m, mem, full, o, m', mem')
  }

  /** A store puts the register into the cell and changes nothing else; out of bounds it raises.  It
      panics only if the object was not rooted and died when its old reference was given up. */
  ghost predicate StoreDone(m: Machine, mem: Memory, full: bool, base: nat, off: nat, src: nat, o: Outcome, m': Machine, mem': Memory)
    requires m.Sized() && base < REGS && off < REGS && src < REGS
  {
    var b, k := BaseOf(m, base), CellOf(m, off);
    if Readable(mem, b, k) then
      && (o == Running || (o == Panicked && b !in mem.roots && mem.heap[b].cells[k].Ref?))
      && (o == Running ==> m' == m.(ip := m.ip + 1) && Shrunk(StoredIn(mem.heap, b, k, m.regs[src]), mem'.heap))
      && (b in mem.roots ==> LiveIn(mem'.heap, b))
    else Raised(m, mem, full, o, m', mem')
  }

  /** A new object of zeroes, alive, its handle in the register; a full heap is a panic, since there is
      no room for the error either. */
  ghost predicate AllocDone(m: Machine, mem: Memory, full: bool, dst: nat, n: nat, o: Outcome, m': Machine, mem': Memory)
    requires m.Sized() && dst < REGS
  {
    if full then o == Panicked else o == Running && exists h: nat :: AllocAt(m, mem, dst, n, h, m', mem')
  }

  ghost predicate AllocAt(m: Machine, mem: Memory, dst: nat, n: nat, h: nat, m': Machine, mem': Memory)
    requires m.Sized() && dst < REGS
  {
    && Allocatable(mem.heap, h) && m' == WriteReg(m, dst, Ref(h)).(ip := m.ip + 1)
    && LiveIn(mem'.heap, h) && Shrunk(AllocatedIn(mem.heap, h, n), mem'.heap)
  }

  /** The last spilled value comes back if it was spilled from this register. */
  ghost predicate Popped(m: Machine, r: nat, o: Outcome, m': Machine)
    requires m.Sized()
  {
    if m.spill == [] then o == Running && m' == m.(ip := m.ip + 1)
    else if m.spill[|m.spill| - 1].reg != r then o == Panicked
    else o == Running && m' == PopSpill(m).(ip := m.ip + 1)
  }

  /** The handlers installed below call depth `depth`. */
  function HandlersBelow(hs: seq<Handler>, depth: nat): (r: seq<Handler>)
    ensures r <= hs && (r == [] || r[|r| - 1].callDepth < depth)
    ensures forall i :: |r| <= i < |hs| ==> hs[i].callDepth >= depth
  {
    if hs == [] || hs[|hs| - 1].callDepth < depth then hs else HandlersBelow(hs[..|hs| - 1], depth)
  }

  /** A return drops the handlers of the frame and resumes its caller; without a caller the run ends. */
  ghost predicate Returned(m: Machine, o: Outcome, m': Machine)
    requires m.Sized()
  {
    var n, u := |m.frames|, m.(handlers := HandlersBelow(m.handlers, |m.frames|));
    if n == 0 then o == Halted && m' == u
    else o == Running && m' == Restored(u).(ip := m.frames[n - 1].returnIp)
  }

  /** What an instruction without access to the heap does to the machine. */
  ghost predicate Inner(i: Instr, m: Machine, mem: Memory, o: Outcome, m': Machine)
    requires m.Sized() && InRange(i)
  {
    match i
    case Throw(src) => Delivered(m, m.regs[src], o, m')
    case CallInd(r, n, entry, top) => IndirectCall(m, mem, r, n, entry, top, o, m')
    case PopR(r) => Popped(m, r, o, m')
    case GLoad(g, dst) =>
      if g < GLOBALS then o == Running && m' == WriteReg(m, dst, m.globals[g]).(ip := m.ip + 1) else o == Panicked
    case GStore(g, src) =>
      if g < GLOBALS then o == Running && m' == m.(globals := m.globals[g := m.regs[src]], ip := m.ip + 1) else o == Panicked
    case Ret => Returned(m, o, m')
    case TryPop =>
      if m.handlers == [] then o == Panicked else o == Running && m' == m.(handlers := m.handlers[..|m.handlers| - 1], ip := m.ip + 1)
    case _ => Plain(i) && o == Running && m' == Effect(m, i)
  }

  /** One instruction, from machine and memory before to machine and memory after.  Objects only
      disappear, apart from the one written or allocated. */
  ghost predicate Executed(i: Instr, m: Machine, mem: Memory, full: bool, o: Outcome, m': Machine, mem': Memory)
    requires m.Sized() && InRange(i)
  {
    match i
    case HLoad(base, off, dst) => Loaded(m, mem, full, base, off, dst, o, m', mem')
    case HStore(base, off, src) => StoreDone(m, mem, full, base, off, src, o, m', mem')
    case Alloc(dst, n) => AllocDone(m, mem, full, dst, n, o, m', mem')
    case _ => Inner(i, m, mem, o, m') && (o != Panicked ==> Shrunk(mem.heap, mem'.heap))
  }

  /** It panics if and only if the closure has no readable cell. */
  ghost predicate IndirectCall(m: Machine, mem: Memory, r: nat, n: nat, entry: Val -> nat, top: nat, o: Outcome, m': Machine)
    requires m.Sized() && r < REGS && top <= REGS
  {
    if m.regs[r].Ref? && !HasCell(mem, m.regs[r].h) then o == Panicked
    else o == Running && m' == CalledIndirectly(m, mem, r, n, entry, top)
  }

  ghost predicate HasCell(mem: Memory, h: nat) {
    Live(mem, h) && mem.heap[h].cells != []
  }

  lemma AllocAs(m: Machine, mem: Memory, dst: nat, n: nat, h: nat, m': Machine, mem': Memory)
    requires m.Sized() && dst < REGS && Allocatable(mem.heap, h) && m' == WriteReg(m, dst, Ref(h)).(ip := m.ip + 1)
    requires LiveIn(mem'.heap, h) && Shrunk(AllocatedIn(mem.heap, h, n), mem'.heap)
    ensures AllocDone(m, mem, false, dst, n, Running, m', mem')
  {
    assert AllocAt(m, mem, dst, n, h, m', mem');
  }

  /** A store through a register that holds a reference never panics while there is room. */
  lemma HeldStoreRuns(m: Machine, mem: Memory, full: bool, base: nat, off: nat, src: nat, o: Outcome, m': Machine, mem': Memory)
    requires Mirror(m, mem, multiset{}, None) && base < REGS && off < REGS && src < REGS
    requires StoreDone(m, mem, full, base, off, src, o, m', mem')
    requires m.regs[base].Ref? && m.regs[base].h < WORD32
    ensures o != Panicked || full
  {
    HeldReg(m, mem, multiset{}, None, base);
  }

  /** Objects that disappear before a store do not matter to it. */
  lemma StoredShrunk(a: seq<Obj>, b: seq<Obj>, i: nat, k: nat, v: Val)
    requires Shrunk(a, b) && LiveIn(a, i) && LiveIn(b, i) && k < |a[i].cells|
    ensures b[i] == a[i] && Shrunk(StoredIn(a, i, k, v), StoredIn(b, i, k, v))
  {
    assert Survivor(a, b, i);
    var a', b' := StoredIn(a, i, k, v), StoredIn(b, i, k, v);
    forall j: nat | j < |a'| ensures Survivor(a', b', j) { assert Survivor(a, b, j); }
  }

  function Zeroed(): Machine { Machine(seq(REGS, _ => ZERO), seq(GLOBALS, _ => ZERO), [], [], [], 0) }

  lemma BlankMirror(mach: Machine, n: nat)
    requires mach == Zeroed()
    ensures Mirror(mach, Blank(n), multiset{}, None)
  {
    forall h: nat ensures RootsOk(mach, Blank(n), multiset{}, h) {
      NoRefs(mach.regs, h);
      NoRefs(mach.globals, h);
    }
  }

  class Vm {
    const heap: CollectedHeap
    var mach: Machine
    ghost var extra: multiset<nat>

    /** What the collector knows is what the machine holds, but for the `hole`. */
    ghost predicate Sync(hole: Hole)
      reads this, heap, heap.Repr
    {
      this !in heap.Repr && heap.Ready(hole) && Mirror(mach, heap.mem, extra, hole)
    }

    /** Between instructions: the collector's roots are exactly the references the machine holds,
        its edges exactly the references in live objects, and all of them name live objects. */
    ghost predicate Valid()
      reads this, heap, heap.Repr
    {
      Sync(None) && extra == multiset{}
    }

    constructor (heap: CollectedHeap)
      requires heap.Ready(None) && heap.mem == Blank(|heap.mem.heap|)
      ensures Valid() && this.heap == heap && mach == Zeroed() && heap.mem == old(heap.mem)
    {
      this.heap := heap;
      mach := Zeroed();
      extra := multiset{};
      new;
      BlankMirror(mach, |heap.mem.heap|);
    }

    // barriers

    method RootAdd(h: nat)
      requires Sync(None) && Live(heap.mem, h)
      modifies this, heap.Repr
      ensures Sync(None) && mach == old(mach) && extra == old(extra) + multiset{h}
      ensures Shrunk(old(heap.mem).heap, heap.mem.heap)
    {
      ghost var m := heap.mem.(roots := heap.mem.roots + multiset{h});
      RootAdded(mach, heap.mem, extra, h);
      ghost var f := heap.RootAdd(h);
      extra := extra + multiset{h};
      FreedKeepsMirror(mach, m, extra, None, f);
    }

    method RootRemove(h: nat, ghost e: multiset<nat>)
      requires Sync(None) && extra == e + multiset{h}
      modifies this, heap.Repr
      ensures Sync(None) && mach == old(mach) && extra == e
      ensures Shrunk(old(heap.mem).heap, heap.mem.heap)
    {
      ghost var m := heap.mem.(roots := heap.mem.roots - multiset{h});
      assert RootsOk(mach, heap.mem, extra, h);
      RootRemoved(mach, heap.mem, e, h);
      ghost var f := heap.RootRemove(h);
      extra := e;
      FreedKeepsMirror(mach, m, extra, None, f);
    }

    method Acquire(v: Val)
      requires Sync(None) && (v.Ref? ==> Live(heap.mem, v.h))
      modifies this, heap.Repr
      ensures Sync(None) && mach == old(mach) && extra == old(extra) + MOne(v)
      ensures Shrunk(old(heap.mem).heap, heap.mem.heap)
    {
      if v.Ref? { RootAdd(v.h); }
    }

    method Release(v: Val, ghost e: multiset<nat>)
      requires Sync(None) && extra == e + MOne(v)
      modifies this, heap.Repr
      ensures Sync(None) && mach == old(mach) && extra == e
      ensures Shrunk(old(heap.mem).heap, heap.mem.heap)
    {
      if v.Ref? { RootRemove(v.h, e); }
    }

    // places

    /** Acquire the new reference, write, release the old one. */
    method SetReg(r: nat, v: Val)
      requires Sync(None) && r < REGS && (v.Ref? ==> Live(heap.mem, v.h))
      modifies this, heap.Repr
      ensures Sync(None) && extra == old(extra)
      ensures mach == WriteReg(old(mach), r, v) && Shrunk(old(heap.mem).heap, heap.mem.heap)
    {
      var was := mach.regs[r];
      if was.Ref? && was == v {
        assert mach.regs[r := v] == mach.regs;
        return;
      }
      ghost var e := extra;
      Acquire(v);
      ghost var m1 := heap.mem;
      MovedRegs(mach, heap.mem, e, r, v);
      mach := mach.(regs := mach.regs[r := v]);
      extra := e + MOne(was);
      Release(was, e);
      ShrunkTwice(old(heap.mem).heap, m1.heap, heap.mem.heap);
    }

    method SetGlobal(g: nat, v: Val)
      requires Sync(None) && g < GLOBALS && (v.Ref? ==> Live(heap.mem, v.h))
      modifies this, heap.Repr
      ensures Sync(None) && extra == old(extra)
      ensures mach == old(mach).(globals := old(mach).globals[g := v]) && Shrunk(old(heap.mem).heap, heap.mem.heap)
    {
      var was := mach.globals[g];
      if was.Ref? && was == v {
        assert mach.globals[g := v] == mach.globals;
        return;
      }
      ghost var e := extra;
      Acquire(v);
      ghost var m1 := heap.mem;
      MovedGlobals(mach, heap.mem, e, g, v);
      mach := mach.(globals := mach.globals[g := v]);
      extra := e + MOne(was);
      Release(was, e);
      ShrunkTwice(old(heap.mem).heap, m1.heap, heap.mem.heap);
    }

    method CopyReg(dst: nat, src: nat)
      requires Sync(None) && dst < REGS && src < REGS
      modifies this, heap.Repr
      ensures Sync(None) && extra == old(extra)
      ensures mach == WriteReg(old(mach), dst, old(mach).regs[src]) && Shrunk(old(heap.mem).heap, heap.mem.heap)
    {
      if mach.regs[src].Ref? { HeldReg(mach, heap.mem, extra, None, src); }
      SetReg(dst, mach.regs[src]);
    }

    /** Install an in-flight value, then release the reference that carried it. */
    method Install(r: nat, v: Val, ghost e: multiset<nat>)
      requires Sync(None) && r < REGS && extra == e + MOne(v)
      modifies this, heap.Repr
      ensures Sync(None) && extra == e
      ensures mach == WriteReg(old(mach), r, v) && Shrunk(old(heap.mem).heap, heap.mem.heap)
    {
      InFlightIsLive(mach, heap.mem, e, v);
      SetReg(r, v);
      ghost var m1 := heap.mem;
      Release(v, e);
      ShrunkTwice(old(heap.mem).heap, m1.heap, heap.mem.heap);
    }

    // calls

    method ClearRange(lo: nat, hi: nat)
      requires Sync(None) && lo <= hi <= REGS
      modifies this, heap.Repr
      ensures Sync(None) && extra == old(extra)
      ensures mach == ClearRegs(old(mach), lo, hi) && Shrunk(old(heap.mem).heap, heap.mem.heap)
    {
      ghost var m0, h0 := mach, heap.mem.heap;
      ShrunkSelf(h0);
      var r := lo;
      while r < hi
        invariant lo <= r <= hi && Sync(None) && extra == old(extra) && mach == ClearRegs(m0, lo, r) && Shrunk(h0, heap.mem.heap)
      {
        r := ClearNext(r, lo, m0, h0);
      }
    }

    method ClearNext(r: nat, ghost lo: nat, ghost m0: Machine, ghost h0: seq<Obj>) returns (r': nat)
      requires Sync(None) && lo <= r < REGS && m0.Sized() && mach == ClearRegs(m0, lo, r) && Shrunk(h0, heap.mem.heap)
      modifies this, heap.Repr
      ensures r' == r + 1 && Sync(None) && extra == old(extra) && mach == ClearRegs(m0, lo, r') && Shrunk(h0, heap.mem.heap)
    {
      ghost var m1 := heap.mem;
      SetReg(r, ZERO);
      ShrunkTwice(h0, m1.heap, heap.mem.heap);
      r' := r + 1;
    }

    /** Save the caller's locals: every saved reference is one more root. */
    method PushCallFrame(returnIp: nat, top: nat)
      requires Sync(None) && top <= REGS
      modifies this, heap.Repr
      ensures Sync(None) && extra == old(extra)
      ensures mach == old(mach).(frames := old(mach).frames + [Frame(returnIp, SaveRegs(old(mach).regs, top))])
      ensures Shrunk(old(heap.mem).heap, heap.mem.heap)
    {
      var locals := RootLocals(top);
      PushedFrame(mach, heap.mem, old(extra), Frame(returnIp, locals));
      extra := old(extra);
      mach := mach.(frames := mach.frames + [Frame(returnIp, locals)]);
    }

    method AcquireReg(r: nat)
      requires Sync(None) && r < REGS
      modifies this, heap.Repr
      ensures Sync(None) && mach == old(mach) && extra == old(extra) + MOne(mach.regs[r])
      ensures Shrunk(old(heap.mem).heap, heap.mem.heap)
    {
      if mach.regs[r].Ref? { HeldReg(mach, heap.mem, extra, None, r); }
      Acquire(mach.regs[r]);
    }

    method RootLocals(top: nat) returns (locals: seq<Saved>)
      requires Sync(None) && top <= REGS
      modifies this, heap.Repr
      ensures Sync(None) && mach == old(mach)
      ensures locals == SaveRegs(mach.regs, top) && extra == Plus(old(extra), locals)
      ensures Shrunk(old(heap.mem).heap, heap.mem.heap)
    {
      locals := [];
      var r := FIRST_LOCAL;
      while r < top
        invariant Sync(None) && mach == old(mach)
        invariant SaveRegs(mach.regs, top) == locals + SaveFrom(mach.regs, r, top)
        invariant extra == Plus(old(extra), locals) && Shrunk(old(heap.mem).heap, heap.mem.heap)
        decreases top - r
      {
        SaveStep(mach.regs, locals, r, top);
        if r < 240 || 255 < r { locals := RootLocal(r, locals, old(extra), old(heap.mem).heap); }
        r := r + 1;
      }
    }

    method RootLocal(r: nat, locals: seq<Saved>, ghost e: multiset<nat>, ghost h0: seq<Obj>) returns (locals': seq<Saved>)
      requires Sync(None) && r < REGS && extra == Plus(e, locals) && Shrunk(h0, heap.mem.heap)
      modifies this, heap.Repr
      ensures Sync(None) && mach == old(mach) && locals' == locals + [Saved(r, mach.regs[r])]
      ensures extra == Plus(e, locals') && Shrunk(h0, heap.mem.heap)
    {
      ghost var m1 := heap.mem;
      AcquireReg(r);
      ShrunkTwice(h0, m1.heap, heap.mem.heap);
      SavedOne(e, locals, Saved(r, mach.regs[r]));
      locals' := locals + [Saved(r, mach.regs[r])];
    }

    method RestoreCallFrame()
      requires Sync(None) && mach.frames != []
      modifies this, heap.Repr
      ensures Sync(None) && extra == old(extra)
      ensures mach == Restored(old(mach)) && Shrunk(old(heap.mem).heap, heap.mem.heap)
    {
      var n := |mach.frames| - 1;
      var locals := mach.frames[n].locals;
      PoppedFrame(mach, heap.mem, extra);
      mach := mach.(frames := mach.frames[..n]);
      extra := Plus(extra, locals);
      ClearScratch();
      ghost var m1 := heap.mem;
      InstallSaved(locals, old(extra));
      ShrunkTwice(old(heap.mem).heap, m1.heap, heap.mem.heap);
    }

    method ClearScratch()
      requires Sync(None)
      modifies this, heap.Repr
      ensures Sync(None) && extra == old(extra)
      ensures mach == ClearRegs(ClearRegs(old(mach), 1, 11), 240, 256) && Shrunk(old(heap.mem).heap, heap.mem.heap)
    {
      ClearRange(1, 11);
      ghost var m1 := heap.mem;
      ClearRange(240, 256);
      ShrunkTwice(old(heap.mem).heap, m1.heap, heap.mem.heap);
    }

    method InstallSaved(locals: seq<Saved>, ghost e: multiset<nat>)
      requires Sync(None) && LocalsOk(locals) && extra == Plus(e, locals)
      modifies this, heap.Repr
      ensures Sync(None) && extra == e
      ensures mach == WriteSaved(old(mach), locals) && Shrunk(old(heap.mem).heap, heap.mem.heap)
    {
      assert locals[0..] == locals && locals[..0] == [];
      for k := 0 to |locals|
        invariant Sync(None) && extra == Plus(e, locals[k..])
        invariant mach == WriteSaved(old(mach), locals[..k]) && Shrunk(old(heap.mem).heap, heap.mem.heap)
      {
        ghost var m1 := heap.mem;
        NextSaved(old(mach), locals, k, e);
        Install(locals[k].reg, locals[k].v, Plus(e, locals[k + 1..]));
        ShrunkTwice(old(heap.mem).heap, m1.heap, heap.mem.heap);
      }
      assert locals[..|locals|] == locals && locals[|locals|..] == [];
    }

    // exceptions

    method PopSpillEntry()
      requires Sync(None) && mach.spill != []
      modifies this, heap.Repr
      ensures Sync(None) && extra == old(extra)
      ensures mach == PopSpill(old(mach)) && Shrunk(old(heap.mem).heap, heap.mem.heap)
    {
      var n := |mach.spill| - 1;
      var s := mach.spill[n];
      PoppedSpill(mach, heap.mem, extra);
      mach := mach.(spill := mach.spill[..n]);
      extra := extra + MOne(s.v);
      Install(s.reg, s.v, old(extra));
    }

    /** Deliver a value to the innermost handler; the value is rooted all the way. */
    method ThrowValue(v: Val) returns (caught: bool)
      requires Sync(None) && (v.Ref? ==> Live(heap.mem, v.h))
      modifies this, heap.Repr
      ensures Sync(None) && extra == old(extra)
      ensures caught == (old(mach).handlers != [])
      ensures mach == if caught then Thrown(old(mach), v) else old(mach)
      ensures Shrunk(old(heap.mem).heap, heap.mem.heap)
    {
      caught := mach.handlers != [];
      if caught {
        var n := |mach.handlers| - 1;
        var t := mach.handlers[n];
        Elsewhere(mach, mach.(handlers := mach.handlers[..n]), heap.mem, extra);
        mach := mach.(handlers := mach.handlers[..n]);
        Deliver(t, v);
      }
    }

    method Deliver(t: Handler, v: Val)
      requires Sync(None) && (v.Ref? ==> Live(heap.mem, v.h)) && t.reg < REGS
      modifies this, heap.Repr
      ensures Sync(None) && extra == old(extra) && Shrunk(old(heap.mem).heap, heap.mem.heap)
      ensures mach == WriteReg(UnwindSpill(UnwindFrames(old(mach), t.callDepth), t.dataDepth), t.reg, v).(ip := t.target)
    {
      Acquire(v);
      ghost var m1 := heap.mem;
      Unwind(t.callDepth, t.dataDepth);
      ShrunkTwice(old(heap.mem).heap, m1.heap, heap.mem.heap);
      Land(t, v, old(extra), old(heap.mem).heap);
    }

    method Land(t: Handler, v: Val, ghost e: multiset<nat>, ghost before: seq<Obj>)
      requires Sync(None) && extra == e + MOne(v) && t.reg < REGS && Shrunk(before, heap.mem.heap)
      modifies this, heap.Repr
      ensures Sync(None) && extra == e && Shrunk(before, heap.mem.heap)
      ensures mach == WriteReg(old(mach), t.reg, v).(ip := t.target)
    {
      ghost var m2 := heap.mem;
      Install(t.reg, v, e);
      ShrunkTwice(before, m2.heap, heap.mem.heap);
      Elsewhere(mach, mach.(ip := t.target), heap.mem, extra);
      mach := mach.(ip := t.target);
    }

    method Unwind(callDepth: nat, dataDepth: nat)
      requires Sync(None)
      modifies this, heap.Repr
      ensures Sync(None) && extra == old(extra)
      ensures mach == UnwindSpill(UnwindFrames(old(mach), callDepth), dataDepth) && Shrunk(old(heap.mem).heap, heap.mem.heap)
    {
      while |mach.frames| > callDepth
        invariant Sync(None) && extra == old(extra)
        invariant UnwindFrames(mach, callDepth) == UnwindFrames(old(mach), callDepth) && Shrunk(old(heap.mem).heap, heap.mem.heap)
        decreases |mach.frames|
      {
        ghost var m1 := heap.mem;
        RestoreCallFrame();
        ShrunkTwice(old(heap.mem).heap, m1.heap, heap.mem.heap);
      }
      ghost var u := mach;
      while |mach.spill| > dataDepth
        invariant Sync(None) && extra == old(extra)
        invariant UnwindSpill(mach, dataDepth) == UnwindSpill(u, dataDepth) && Shrunk(old(heap.mem).heap, heap.mem.heap)
        decreases |mach.spill|
      {
        ghost var m1 := heap.mem;
        PopSpillEntry();
        ShrunkTwice(old(heap.mem).heap, m1.heap, heap.mem.heap);
      }
    }

    // the heap

    method TryAlloc(cells: nat) returns (ok: bool, h: nat)
      requires Sync(None)
      modifies this, heap.Repr
      ensures Sync(None) && mach == old(mach) && extra == old(extra)
      ensures ok <==> !old(heap.store.Full())
      ensures ok ==> Allocatable(old(heap.mem).heap, h) && |old(heap.mem).edges| == |old(heap.mem).heap|
      ensures ok ==> Live(heap.mem, h) && heap.mem == Allocated(old(heap.mem), h, cells)
      ensures !ok ==> heap.mem == old(heap.mem) && heap.store.Full()
    {
      ghost var m := heap.mem;
      forall x: nat | x in m.roots ensures Live(m, x) { assert RootsOk(mach, m, extra, x); }
      ok, h := heap.Alloc(cells);
      if ok { AllocatedMirror(mach, m, extra, h, cells); }
    }

    /** A runtime error becomes a heap object that is thrown. */
    method Raise() returns (o: Outcome)
      requires Valid()
      modifies this, heap.Repr
      ensures o != Panicked ==> Valid()
      ensures Raised(old(mach), old(heap.mem), old(heap.store.Full()), o, mach, heap.mem)
    {
      ghost var m0, mem0 := mach, heap.mem;
      var ok, h := TryAlloc(1);
      if !ok { return Panicked; }
      WriteMessage(h, mem0);
      ghost var mem1 := heap.mem;
      var caught := ThrowValue(Ref(h));
      o := if caught then Running else Uncaught;
      assert RaisedAt(m0, mem0, h, o, mach, heap.mem);
    }

    method WriteMessage(h: nat, ghost mem0: Memory)
      requires Valid() && Allocatable(mem0.heap, h) && |mem0.edges| == |mem0.heap| && heap.mem == Allocated(mem0, h, 1)
      modifies this, heap.Repr
      ensures Valid() && mach == old(mach) && heap.mem.heap == Message(mem0, h).heap && Live(heap.mem, h)
    {
      assert heap.mem.heap[h] == Obj(true, seq(1, _ => ZERO));
      PlainHole(h, 0);
      WriteHole(h, 0, Word(0, Str));
      PlainHole(h, 0);
    }

    /** Give the edge in cell `k` of `b` up while the cell still shows it. */
    method DropEdge(b: nat, k: nat)
      requires Sync(None) && Live(heap.mem, b) && k < |heap.mem.heap[b].cells| && heap.mem.heap[b].cells[k].Ref?
      modifies this, heap.Repr
      ensures Sync(At(b, k)) && mach == old(mach) && extra == old(extra)
      ensures heap.mem.roots == old(heap.mem).roots && Shrunk(old(heap.mem).heap, heap.mem.heap)
    {
      EdgeRemoved(mach, heap.mem, extra, b, k);
      EdgeKnown(mach, heap.mem, extra, b, k);
      ghost var m := Unedged(heap.mem, b, heap.mem.heap[b].cells[k].h);
      ghost var f := heap.EdgeRemove(b, k);
      FreedKeepsMirror(mach, m, extra, At(b, k), f);
    }

    /** Tell the collector of the edge now in cell `k` of `b`. */
    method TakeEdge(b: nat, k: nat)
      requires Sync(At(b, k)) && Live(heap.mem, b) && k < |heap.mem.heap[b].cells|
      requires heap.mem.heap[b].cells[k].Ref? && Live(heap.mem, heap.mem.heap[b].cells[k].h)
      modifies this, heap.Repr
      ensures Sync(None) && mach == old(mach) && extra == old(extra)
      ensures heap.mem.roots == old(heap.mem).roots && Shrunk(old(heap.mem).heap, heap.mem.heap)
    {
      EdgeAdded(mach, heap.mem, extra, b, k);
      ghost var m := Edged(heap.mem, b, heap.mem.heap[b].cells[k].h);
      ghost var f := heap.EdgeAdd(b, k);
      FreedKeepsMirror(mach, m, extra, None, f);
    }

    method WriteHole(b: nat, k: nat, v: Val)
      requires Sync(At(b, k)) && Live(heap.mem, b) && k < |heap.mem.heap[b].cells|
      modifies this, heap.Repr
      ensures Sync(At(b, k)) && mach == old(mach) && extra == old(extra) && heap.mem == Stored(old(heap.mem), b, k, v)
    {
      StoredInHole(mach, heap.mem, extra, b, k, v);
      heap.Write(b, k, v);
    }

    /** A cell without a reference may be a hole, and the other way round. */
    lemma PlainHole(b: nat, k: nat)
      requires Live(heap.mem, b) && k < |heap.mem.heap[b].cells| && !heap.mem.heap[b].cells[k].Ref?
      ensures Sync(None) <==> Sync(At(b, k))
    {
      HoleIsPlain(mach, heap.mem, extra, b, k);
      heap.PlainHole(b, k);
    }

    /** Replace cell `k` of object `b`: drop the old edge, write, add the new edge. */
    method StoreCell(b: nat, k: nat, v: Val) returns (ok: bool)
      requires Sync(None) && Live(heap.mem, b) && k < |heap.mem.heap[b].cells|
      requires v.Ref? ==> v.h in heap.mem.roots
      modifies this, heap.Repr
      ensures mach == old(mach) && extra == old(extra)
      ensures ok ==> Sync(None) && Shrunk(StoredIn(old(heap.mem).heap, b, k, v), heap.mem.heap)
      ensures !ok ==> old(heap.mem).heap[b].cells[k].Ref?
      ensures b in old(heap.mem).roots ==> ok && Live(heap.mem, b)
    {
      var _, was := heap.Load(b, k);
      assert RootsOk(mach, heap.mem, extra, b);
      ghost var h0 := heap.mem.heap;
      if was.Ref? && was == v {
        assert h0[b].cells[k := v] == h0[b].cells && StoredIn(h0, b, k, v) == h0;
        ShrunkSelf(h0);
        return true;
      }
      OpenHole(b, k);
      assert RootsOk(mach, heap.mem, extra, b);
      assert Survivor(old(heap.mem).heap, heap.mem.heap, b);
      ok := heap.IsLive(b);
      if ok {
        ghost var h1 := heap.mem.heap;
        FillHole(b, k, v);
        StoredShrunk(h0, h1, b, k, v);
        ShrunkTwice(StoredIn(h0, b, k, v), StoredIn(h1, b, k, v), heap.mem.heap);
      }
    }

    /** The collector forgets what the cell shows, if it shows a reference. */
    method OpenHole(b: nat, k: nat)
      requires Sync(None) && Live(heap.mem, b) && k < |heap.mem.heap[b].cells|
      modifies this, heap.Repr
      ensures Sync(At(b, k)) && mach == old(mach) && extra == old(extra)
      ensures heap.mem.roots == old(heap.mem).roots && Shrunk(old(heap.mem).heap, heap.mem.heap)
      ensures !old(heap.mem).heap[b].cells[k].Ref? ==> heap.mem == old(heap.mem)
    {
      var _, was := heap.Load(b, k);
      if was.Ref? {
        DropEdge(b, k);
      } else {
        PlainHole(b, k);
        ShrunkSelf(heap.mem.heap);
      }
    }

    method FillHole(b: nat, k: nat, v: Val)
      requires Sync(At(b, k)) && Live(heap.mem, b) && k < |heap.mem.heap[b].cells|
      requires v.Ref? ==> v.h in heap.mem.roots
      modifies this, heap.Repr
      ensures Sync(None) && mach == old(mach) && extra == old(extra)
      ensures Shrunk(StoredIn(old(heap.mem).heap, b, k, v), heap.mem.heap)
      ensures b in old(heap.mem).roots ==> Live(heap.mem, b)
    {
      assert RootsOk(mach, heap.mem, extra, if v.Ref? then v.h else 0);
      WriteHole(b, k, v);
      ghost var m := heap.mem;
      if v.Ref? {
        TakeEdge(b, k);
        assert Survivor(m.heap, heap.mem.heap, b) && RootsOk(mach, heap.mem, extra, b);
      } else {
        PlainHole(b, k);
        ShrunkSelf(m.heap);
      }
    }

    // one instruction

    method Advance(ip: nat)
      requires Valid()
      modifies this, heap.Repr
      ensures Valid() && mach == old(mach).(ip := ip) && heap.mem == old(heap.mem)
    {
      Elsewhere(mach, mach.(ip := ip), heap.mem, extra);
      mach := mach.(ip := ip);
    }

    method ShiftArguments(r: nat, nargs: nat)
      requires Valid() && r < REGS && nargs < 255
      modifies this, heap.Repr
      ensures Valid() && mach == Shifted(old(mach), r, nargs) && Shrunk(old(heap.mem).heap, heap.mem.heap)
    {
      ghost var m0 := mach;
      MoveArguments(nargs);
      MoveLast(m0, r, nargs);
      ghost var m1 := heap.mem;
      CopyReg(1, r);
      ShrunkTwice(old(heap.mem).heap, m1.heap, heap.mem.heap);
    }

    /** From the last argument down, so that none is overwritten before it has moved. */
    method MoveArguments(nargs: nat)
      requires Valid() && nargs < 255
      modifies this, heap.Repr
      ensures Valid() && mach == MovedUp(old(mach), 0, nargs) && Shrunk(old(heap.mem).heap, heap.mem.heap)
    {
      var i: nat := nargs;
      MoveNone(mach, nargs);
      ShrunkSelf(heap.mem.heap);
      while i >= 1
        invariant Valid() && i <= nargs && mach == MovedUp(old(mach), i, nargs) && Shrunk(old(heap.mem).heap, heap.mem.heap)
      {
        i := MoveArgument(i, nargs, old(mach), old(heap.mem).heap);
      }
    }

    method MoveArgument(i: nat, ghost nargs: nat, ghost m0: Machine, ghost h0: seq<Obj>) returns (i': nat)
      requires Valid() && 1 <= i <= nargs < 255 && m0.Sized() && mach == MovedUp(m0, i, nargs) && Shrunk(h0, heap.mem.heap)
      modifies this, heap.Repr
      ensures i' == i - 1 && Valid() && mach == MovedUp(m0, i', nargs) && Shrunk(h0, heap.mem.heap)
    {
      MoveNext(m0, i, nargs);
      ghost var m1 := heap.mem;
      CopyReg(i + 1, i);
      ShrunkTwice(h0, m1.heap, heap.mem.heap);
      i' := i - 1;
    }

    method DropHandlers()
      requires Valid()
      modifies this, heap.Repr
      ensures Valid() && heap.mem == old(heap.mem)
      ensures mach == old(mach).(handlers := HandlersBelow(old(mach).handlers, |old(mach).frames|))
    {
      while mach.handlers != [] && mach.handlers[|mach.handlers| - 1].callDepth >= |mach.frames|
        invariant Valid() && heap.mem == old(heap.mem) && mach == old(mach).(handlers := mach.handlers)
        invariant HandlersBelow(mach.handlers, |mach.frames|) == HandlersBelow(old(mach).handlers, |mach.frames|)
        decreases |mach.handlers|
      {
        var m := mach.(handlers := mach.handlers[..|mach.handlers| - 1]);
        Elsewhere(mach, m, heap.mem, extra);
        mach := m;
      }
    }

    /** Every instruction does to the machine and its memory what it says, whatever the collector frees
        along the way, and starts and ends with the collector's view exact; only a panic, which ends the
        run, may leave it otherwise. */
    method Exec(i: Instr) returns (o: Outcome)
      requires Valid() && InRange(i) && Aligned(mach, i)
      modifies this, heap.Repr
      ensures o != Panicked ==> Valid()
      ensures Executed(i, old(mach), old(heap.mem), old(heap.store.Full()), o, mach, heap.mem)
    {
      if Plain(i) {
        ExecPlain(i);
        o := Running;
      } else if i.HStore? || i.HLoad? || i.Alloc? {
        o := ExecHeap(i);
      } else {
        o := ExecOther(i);
      }
    }

    method ExecPlain(i: Instr)
      requires Valid() && InRange(i) && Plain(i)
      modifies this, heap.Repr
      ensures Valid() && mach == Effect(old(mach), i) && Shrunk(old(heap.mem).heap, heap.mem.heap)
    {
      if i.Call? {
        ExecCall(i.target, i.top);
      } else {
        var next := mach.ip + 1;
        ShrunkSelf(heap.mem.heap);
        match i {
          case Compute(dst, result, kind) => SetReg(dst, Word(result(mach), kind));
          case Copy(dst, src) => CopyReg(dst, src);
          case PushR(r) => SpillReg(r);
          case TryPush(target, dst) => PushHandler(target, dst);
          case HFree(r) =>
          case Jump(f) => next := f(mach);
        }
        Advance(next);
      }
    }

    method ExecCall(target: nat, top: nat)
      requires Valid() && top <= REGS
      modifies this, heap.Repr
      ensures Valid() && mach == Effect(old(mach), Call(target, top)) && Shrunk(old(heap.mem).heap, heap.mem.heap)
    {
      Enter(mach.ip + 1, top, target);
    }

    method ExecHeap(i: Instr) returns (o: Outcome)
      requires Valid() && InRange(i) && Aligned(mach, i) && (i.HStore? || i.HLoad? || i.Alloc?)
      modifies this, heap.Repr
      ensures o != Panicked ==> Valid()
      ensures Executed(i, old(mach), old(heap.mem), old(heap.store.Full()), o, mach, heap.mem)
    {
      match i
      case Alloc(dst, cells) => o := ExecAlloc(dst, cells);
      case HStore(base, off, src) => o := ExecStore(base, off, src);
      case HLoad(base, off, dst) => o := ExecLoad(base, off, dst);
    }

    method ExecOther(i: Instr) returns (o: Outcome)
      requires Valid() && InRange(i) && !Plain(i) && !i.HStore? && !i.HLoad? && !i.Alloc?
      modifies this, heap.Repr
      ensures o != Panicked ==> Valid() && Shrunk(old(heap.mem).heap, heap.mem.heap)
      ensures Inner(i, old(mach), old(heap.mem), o, mach)
    {
      match i
      case PopR(r) => o := ExecPop(r);
      case GLoad(g, dst) => o := ExecGlobalLoad(g, dst);
      case GStore(g, src) => o := ExecGlobalStore(g, src);
      case CallInd(r, nargs, entry, top) => o := ExecCallInd(r, nargs, entry, top);
      case Ret => o := ExecRet();
      case TryPop => o := ExecTryPop();
      case Throw(src) =>
        if mach.regs[src].Ref? { HeldReg(mach, heap.mem, extra, None, src); }
        var caught := ThrowValue(mach.regs[src]);
        o := if caught then Running else Uncaught;
    }

    method ExecPop(r: nat) returns (o: Outcome)
      requires Valid() && r < REGS
      modifies this, heap.Repr
      ensures o != Panicked ==> Valid() && Shrunk(old(heap.mem).heap, heap.mem.heap)
      ensures Popped(old(mach), r, o, mach)
    {
      ShrunkSelf(heap.mem.heap);
      if mach.spill != [] {
        if mach.spill[|mach.spill| - 1].reg != r { return Panicked; }
        PopSpillEntry();
      }
      Advance(mach.ip + 1);
      o := Running;
    }

    method ExecGlobalLoad(g: nat, r: nat) returns (o: Outcome)
      requires Valid() && r < REGS
      modifies this, heap.Repr
      ensures o == (if g < GLOBALS then Running else Panicked) && Valid() && Shrunk(old(heap.mem).heap, heap.mem.heap)
      ensures g < GLOBALS ==> mach == WriteReg(old(mach), r, old(mach).globals[g]).(ip := old(mach).ip + 1)
    {
      ShrunkSelf(heap.mem.heap);
      if g >= GLOBALS { return Panicked; }
      if mach.globals[g].Ref? { HeldGlobal(mach, heap.mem, extra, None, g); }
      SetReg(r, mach.globals[g]);
      Advance(mach.ip + 1);
      o := Running;
    }

    method ExecGlobalStore(g: nat, r: nat) returns (o: Outcome)
      requires Valid() && r < REGS
      modifies this, heap.Repr
      ensures o == (if g < GLOBALS then Running else Panicked) && Valid() && Shrunk(old(heap.mem).heap, heap.mem.heap)
      ensures g < GLOBALS ==> mach == old(mach).(globals := old(mach).globals[g := old(mach).regs[r]], ip := old(mach).ip + 1)
    {
      ShrunkSelf(heap.mem.heap);
      if g >= GLOBALS { return Panicked; }
      if mach.regs[r].Ref? { HeldReg(mach, heap.mem, extra, None, r); }
      SetGlobal(g, mach.regs[r]);
      Advance(mach.ip + 1);
      o := Running;
    }

    method SpillReg(r: nat)
      requires Valid() && r < REGS
      modifies this, heap.Repr
      ensures Valid() && mach == old(mach).(spill := old(mach).spill + [Saved(r, old(mach).regs[r])])
      ensures Shrunk(old(heap.mem).heap, heap.mem.heap)
    {
      var v := mach.regs[r];
      if v.Ref? { HeldReg(mach, heap.mem, extra, None, r); }
      Acquire(v);
      PushedSpill(mach, heap.mem, multiset{}, Saved(r, v));
      extra := multiset{};
      mach := mach.(spill := mach.spill + [Saved(r, v)]);
    }

    method PushHandler(target: nat, dst: nat)
      requires Valid() && dst < REGS
      modifies this, heap.Repr
      ensures Valid() && heap.mem == old(heap.mem)
      ensures mach == old(mach).(handlers := old(mach).handlers + [Handler(target, dst, |old(mach).frames|, |old(mach).spill|)])
    {
      var m := mach.(handlers := mach.handlers + [Handler(target, dst, |mach.frames|, |mach.spill|)]);
      Elsewhere(mach, m, heap.mem, extra);
      mach := m;
    }

    method ExecAlloc(dst: nat, cells: nat) returns (o: Outcome)
      requires Valid() && dst < REGS
      modifies this, heap.Repr
      ensures o != Panicked ==> Valid()
      ensures AllocDone(old(mach), old(heap.mem), old(heap.store.Full()), dst, cells, o, mach, heap.mem)
    {
      ghost var m0, mem0 := mach, heap.mem;
      var ok, h := TryAlloc(cells);
      if ok {
        Root(dst, h);
        AllocAs(m0, mem0, dst, cells, h, mach, heap.mem);
        o := Running;
      } else {
        o := Raise();
      }
    }

    /** The register takes the handle; the object lives because the register holds it. */
    method Root(dst: nat, h: nat)
      requires Valid() && dst < REGS && Live(heap.mem, h)
      modifies this, heap.Repr
      ensures Valid() && mach == WriteReg(old(mach), dst, Ref(h)).(ip := old(mach).ip + 1)
      ensures Shrunk(old(heap.mem).heap, heap.mem.heap) && Live(heap.mem, h)
    {
      SetReg(dst, Ref(h));
      HeldReg(mach, heap.mem, extra, None, dst);
      Advance(mach.ip + 1);
    }

    method Locate(base: nat, off: nat) returns (ok: bool, b: nat, k: nat)
      requires Valid() && base < REGS && off < REGS && Bits(mach.regs[off]) % WORD32 % CELL == 0
      ensures b == BaseOf(mach, base) && k == CellOf(mach, off) && k * CELL == Bits(mach.regs[off]) % WORD32
      ensures ok <==> Readable(heap.mem, b, k)
    {
      b := Bits(mach.regs[base]) % WORD32;
      var byteOff := Bits(mach.regs[off]) % WORD32;
      k := byteOff / CELL;
      var v;
      ok, v := heap.Load(b, k);
    }

    method ExecStore(base: nat, off: nat, src: nat) returns (o: Outcome)
      requires Valid() && base < REGS && off < REGS && src < REGS && Bits(mach.regs[off]) % WORD32 % CELL == 0
      modifies this, heap.Repr
      ensures o != Panicked ==> Valid()
      ensures StoreDone(old(mach), old(heap.mem), old(heap.store.Full()), base, off, src, o, mach, heap.mem)
    {
      var ok, b, k := Locate(base, off);
      if !ok {
        o := Raise();
        return;
      }
      var v := mach.regs[src];
      if v.Ref? { HeldReg(mach, heap.mem, extra, None, src); }
      ok := StoreCell(b, k, v);
      if !ok { return Panicked; }
      Advance(mach.ip + 1);
      o := Running;
    }

    method ExecLoad(base: nat, off: nat, dst: nat) returns (o: Outcome)
      requires Valid() && base < REGS && off < REGS && dst < REGS && Bits(mach.regs[off]) % WORD32 % CELL == 0
      modifies this, heap.Repr
      ensures o != Panicked ==> Valid()
      ensures Loaded(old(mach), old(heap.mem), old(heap.store.Full()), base, off, dst, o, mach, heap.mem)
    {
      var ok, b, k := Locate(base, off);
      if !ok {
        o := Raise();
        return;
      }
      var _, v := heap.Load(b, k);
      if v.Ref? { LoadedIsLive(mach, heap.mem, extra, b, k); }
      SetReg(dst, v);
      Advance(mach.ip + 1);
      o := Running;
    }

    method ExecCallInd(r: nat, nargs: nat, entry: Val -> nat, top: nat) returns (o: Outcome)
      requires Valid() && r < REGS && nargs < 255 && top <= REGS
      modifies this, heap.Repr
      ensures o != Panicked ==> Valid() && Shrunk(old(heap.mem).heap, heap.mem.heap)
      ensures IndirectCall(old(mach), old(heap.mem), r, nargs, entry, top, o, mach)
    {
      var next, target := mach.ip + 1, entry(mach.regs[r]);
      ShrunkSelf(heap.mem.heap);
      if mach.regs[r].Ref? {
        var c := mach.regs[r].h;
        var ok, f := heap.Load(c, 0);
        if !ok { return Panicked; }
        target := entry(f);
        ShiftArguments(r, nargs);
      }
      ghost var m1 := heap.mem;
      Enter(next, top, target);
      ShrunkTwice(old(heap.mem).heap, m1.heap, heap.mem.heap);
      o := Running;
    }

    method Enter(next: nat, top: nat, target: nat)
      requires Valid() && top <= REGS
      modifies this, heap.Repr
      ensures Valid() && Shrunk(old(heap.mem).heap, heap.mem.heap)
      ensures mach == old(mach).(frames := old(mach).frames + [Frame(next, SaveRegs(old(mach).regs, top))], ip := target)
    {
      PushCallFrame(next, top);
      Advance(target);
    }

    method ExecRet() returns (o: Outcome)
      requires Valid()
      modifies this, heap.Repr
      ensures o != Panicked && Valid() && Returned(old(mach), o, mach) && Shrunk(old(heap.mem).heap, heap.mem.heap)
    {
      DropHandlers();
      ShrunkSelf(heap.mem.heap);
      if mach.frames == [] { return Halted; }
      ReturnToCaller();
      o := Running;
    }

    method ReturnToCaller()
      requires Valid() && mach.frames != []
      modifies this, heap.Repr
      ensures Valid() && Shrunk(old(heap.mem).heap, heap.mem.heap)
      ensures mach == Restored(old(mach)).(ip := old(mach).frames[|old(mach).frames| - 1].returnIp)
    {
      var ip := mach.frames[|mach.frames| - 1].returnIp;
      RestoreCallFrame();
      Advance(ip);
    }

    method ExecTryPop() returns (o: Outcome)
      requires Valid()
      modifies this, heap.Repr
      ensures o != Panicked ==> Valid() && Shrunk(old(heap.mem).heap, heap.mem.heap)
      ensures if old(mach).handlers == [] then o == Panicked
              else o == Running && mach == old(mach).(handlers := old(mach).handlers[..|old(mach).handlers| - 1], ip := old(mach).ip + 1)
    {
      if mach.handlers == [] { return Panicked; }
      var m := mach.(handlers := mach.handlers[..|mach.handlers| - 1], ip := mach.ip + 1);
      Elsewhere(mach, m, heap.mem, extra);
      mach := m;
      ShrunkSelf(heap.mem.heap);
      o := Running;
    }

    /** Any program, run for any number of instructions: one after the other, the instruction at the
        machine's position is executed, until one does not go on or the number is reached. */
    method Run(code: seq<Instr>, steps: nat) returns (o: Outcome, ghost trace: seq<Config>)
      requires Valid() && forall k :: 0 <= k < |code| ==> InRange(code[k])
      modifies this, heap.Repr
      ensures o != Panicked ==> Valid()
      ensures Ran(code, steps, trace, o, Now()) && trace[0] == old(Now())
    {
      o, trace := Running, [Now()];
      for n := 0 to steps
        invariant o == Running && Valid() && |trace| == n + 1 && trace[0] == old(Now()) && trace[n] == Now() && Steps(code, trace)
      {
        if mach.ip >= |code| || !Aligned(mach, code[mach.ip]) { return Panicked, trace; }
        ghost var c := Now();
        o := Exec(code[mach.ip]);
        if o != Running { return; }
        StepsOn(code, trace, Now());
        trace := trace + [Now()];
      }
    }

    ghost function Now(): Config
      reads this, heap, heap.store
    {
      Config(mach, heap.mem, heap.store.Full())
    }
  }

  // ---- runs -----------------------------------------------------------------------------------

  /** Machine and memory between two instructions, and whether the slot space is used up. */
  datatype Config = Config(m: Machine, mem: Memory, full: bool)

  /** The instruction at the machine's position leads from `c` to `c'`. */
  ghost predicate StepsTo(code: seq<Instr>, c: Config, o: Outcome, c': Config) {
    && c.m.Sized() && c.m.ip < |code| && InRange(code[c.m.ip]) && Aligned(c.m, code[c.m.ip])
    && Executed(code[c.m.ip], c.m, c.mem, c.full, o, c'.m, c'.mem)
  }

  ghost predicate Steps(code: seq<Instr>, trace: seq<Config>) {
    forall k: nat :: k + 1 < |trace| ==> StepAt(code, trace, k)
  }

  ghost predicate StepAt(code: seq<Instr>, trace: seq<Config>, k: nat)
    requires k + 1 < |trace|
  {
    StepsTo(code, trace[k], Running, trace[k + 1])
  }

  /** The run ends in `c`: its instruction does not go on, or there is none that may be executed. */
  ghost predicate Ends(code: seq<Instr>, c: Config, o: Outcome, c': Config) {
    || StepsTo(code, c, o, c')
    || (o == Panicked && (c.m.ip >= |code| || (c.m.Sized() && InRange(code[c.m.ip]) && !Aligned(c.m, code[c.m.ip]))))
  }

  /** At most `steps` instructions have been executed one after the other, and as many if nothing ended
      the run. */
  ghost predicate Ran(code: seq<Instr>, steps: nat, trace: seq<Config>, o: Outcome, now: Config) {
    && trace != [] && Steps(code, trace)
    && if o == Running then |trace| == steps + 1 && trace[steps] == now
       else |trace| <= steps && Ends(code, trace[|trace| - 1], o, now)
  }

  /** At first all registers are zero and no object lives. */
  ghost predicate Starts(trace: seq<Config>) {
    trace != [] && trace[0].m == Zeroed() && trace[0].mem == Blank(|trace[0].mem.heap|)
  }

  lemma StepsOn(code: seq<Instr>, trace: seq<Config>, c: Config)
    requires trace != [] && Steps(code, trace) && StepsTo(code, trace[|trace| - 1], Running, c)
    ensures Steps(code, trace + [c])
  {
    var t := trace + [c];
    forall k: nat | k + 1 < |t| ensures StepAt(code, t, k) {
      if k + 1 < |trace| { assert StepAt(code, trace, k); }
    }
  }

  /** No register, global, spill entry or saved register names a dead object, nor does a cell of a
      live one, and the root count of every object is the number of places that name it. */
  ghost predicate NoneDangles(mach: Machine, mem: Memory) {
    forall h: nat :: HoldsUp(mach, mem, h)
  }

  ghost predicate HoldsUp(mach: Machine, mem: Memory, h: nat) {
    && mem.roots[h] == Held(mach, h) && (Held(mach, h) > 0 ==> Live(mem, h))
    && forall i: nat, k: nat :: Live(mem, i) && k < |mem.heap[i].cells| && mem.heap[i].cells[k] == Ref(h) ==> Live(mem, h)
  }

  lemma NothingDangles(mach: Machine, mem: Memory)
    requires Mirror(mach, mem, multiset{}, None)
    ensures NoneDangles(mach, mem)
  {
    forall h: nat ensures HoldsUp(mach, mem, h) {
      assert RootsOk(mach, mem, multiset{}, h);
      forall i: nat, k: nat | Live(mem, i) && k < |mem.heap[i].cells| && mem.heap[i].cells[k] == Ref(h) ensures Live(mem, h) {
        LoadedIsLive(mach, mem, multiset{}, i, k);
      }
    }
  }

  // ---- whole runs, with either collector ------------------------------------------------------

  /** Any program under reference counting, whose counts and reclamations are the backend's own. */
  method RunCounting(code: seq<Instr>, steps: nat) returns (vm: Vm, o: Outcome, ghost trace: seq<Config>)
    requires forall k :: 0 <= k < |code| ==> InRange(code[k])
    ensures vm.heap.gc.Counting? && Ran(code, steps, trace, o, vm.Now()) && Starts(trace)
    ensures o != Panicked ==> vm.Valid() && NoneDangles(vm.mach, vm.heap.mem)
  {
    var store := new ObjectStore(0);
    var heap := new CollectedHeap.Counted(store);
    vm := new Vm(heap);
    o, trace := vm.Run(code, steps);
    if o != Panicked { NothingDangles(vm.mach, vm.heap.mem); }
  }

  const DEFAULT_SLOTS: nat := 0x10_0000

  /** Any program under the cycle collector, whatever its policy for scans, over a reserved number
      of slots. */
  method RunCollecting(slots: nat, due: (nat, nat) -> bool, code: seq<Instr>, steps: nat)
    returns (vm: Vm, o: Outcome, ghost trace: seq<Config>)
    requires slots < T.UNVISITED && forall k :: 0 <= k < |code| ==> InRange(code[k])
    ensures vm.heap.gc.Collecting? && Ran(code, steps, trace, o, vm.Now()) && Starts(trace)
    ensures o != Panicked ==> vm.Valid() && NoneDangles(vm.mach, vm.heap.mem)
  {
    var store := new ObjectStore(if slots == 0 then DEFAULT_SLOTS else slots);
    var heap := new CollectedHeap.Traced(store, due);
    vm := new Vm(heap);
    o, trace := vm.Run(code, steps);
    if o != Panicked { NothingDangles(vm.mach, vm.heap.mem); }
  }
}
