/** What calls, returns, spills and exceptions do to registers, seen across several instructions. */
module MachineLaws {
  import opened VmState
  import opened VirtualMachine

  // ---- clearing and restoring registers -------------------------------------------------------

  lemma {:induction false} ClearedAt(m: Machine, lo: nat, hi: nat, r: nat)
    requires m.Sized() && lo <= hi <= REGS && r < REGS
    ensures ClearRegs(m, lo, hi) == m.(regs := ClearRegs(m, lo, hi).regs)
    ensures ClearRegs(m, lo, hi).regs[r] == if lo <= r < hi then ZERO else m.regs[r]
    decreases hi
  {
    if lo < hi { ClearedAt(m, lo, hi - 1, r); }
  }

  /** Writing a list back starts with its first entry. */
  lemma {:induction false} WriteFirst(m: Machine, s: Saved, l: seq<Saved>)
    requires m.Sized() && s.reg < REGS && LocalsOk(l)
    ensures LocalsOk([s] + l) && WriteSaved(m, [s] + l) == WriteSaved(WriteReg(m, s.reg, s.v), l)
    decreases |l|
  {
    var w := [s] + l;
    if l == [] {
      WriteOne(m, s, w);
    } else {
      WriteFirst(m, s, l[..|l| - 1]);
      assert w[..|w| - 1] == [s] + l[..|l| - 1];
    }
  }

  lemma WriteOne(m: Machine, s: Saved, w: seq<Saved>)
    requires m.Sized() && s.reg < REGS && w == [s]
    ensures LocalsOk(w) && WriteSaved(m, w) == WriteReg(m, s.reg, s.v)
  {
    assert w[..0] == [];
  }

  predicate IsLocal(r: nat, top: nat) { FIRST_LOCAL <= r < top && !(240 <= r <= 255) }

  /** Saving registers from `lo` and writing them back puts exactly the locals back. */
  lemma {:induction false} SavedBack(m: Machine, regs: seq<Val>, lo: nat, top: nat, r: nat)
    requires m.Sized() && |regs| == REGS && top <= REGS && r < REGS
    ensures WriteSaved(m, SaveFrom(regs, lo, top)).regs[r] == SavedOr(m, regs, lo, top, r)
    decreases top - lo
  {
    if lo < top {
      SavedNext(m, regs, lo, top);
      SavedBack(if 240 <= lo <= 255 then m else WriteReg(m, lo, regs[lo]), regs, lo + 1, top, r);
    } else {
      NothingSaved(m, regs, lo, top);
    }
  }

  lemma NothingSaved(m: Machine, regs: seq<Val>, lo: nat, top: nat)
    requires m.Sized() && |regs| == REGS && top <= REGS && lo >= top
    ensures WriteSaved(m, SaveFrom(regs, lo, top)) == m
  {
  }

  lemma SavedNext(m: Machine, regs: seq<Val>, lo: nat, top: nat)
    requires m.Sized() && |regs| == REGS && lo < top <= REGS
    ensures WriteSaved(m, SaveFrom(regs, lo, top)) ==
            WriteSaved(if 240 <= lo <= 255 then m else WriteReg(m, lo, regs[lo]), SaveFrom(regs, lo + 1, top))
  {
    SaveNext(regs, lo, top);
    WriteFirst(m, Saved(lo, regs[lo]), SaveFrom(regs, lo + 1, top));
  }

  function SavedOr(m: Machine, regs: seq<Val>, lo: nat, top: nat, r: nat): Val
    requires m.Sized() && |regs| == REGS && r < REGS
  {
    if lo <= r < top && !(240 <= r <= 255) then regs[r] else m.regs[r]
  }

  lemma SaveNext(regs: seq<Val>, lo: nat, top: nat)
    requires |regs| == REGS && lo < top <= REGS
    ensures SaveFrom(regs, lo, top) ==
            if 240 <= lo <= 255 then SaveFrom(regs, lo + 1, top) else [Saved(lo, regs[lo])] + SaveFrom(regs, lo + 1, top)
  {
  }

  /** What a register holds once the frame saved from `regs` has been restored over `m`. */
  function AfterReturn(m: Machine, regs: seq<Val>, top: nat, r: nat): Val
    requires m.Sized() && |regs| == REGS && r < REGS
  {
    if IsLocal(r, top) then regs[r] else if 1 <= r <= 10 || 240 <= r <= 255 then ZERO else m.regs[r]
  }

  ghost predicate SavedAt(m: Machine, d: nat, regs: seq<Val>, top: nat) {
    |regs| == REGS && top <= REGS && d < |m.frames| && m.frames[d].locals == SaveRegs(regs, top)
  }

  /** A return gives the caller its locals back, clears arguments and staging registers, and leaves the
      result register and everything else to the callee. */
  lemma RestoredAt(m: Machine, regs: seq<Val>, top: nat, r: nat)
    requires m.Sized() && m.frames != [] && SavedAt(m, |m.frames| - 1, regs, top) && r < REGS
    ensures Restored(m) == m.(regs := Restored(m).regs, frames := m.frames[..|m.frames| - 1])
    ensures Restored(m).regs[r] == AfterReturn(m, regs, top, r)
  {
    var m0 := m.(frames := m.frames[..|m.frames| - 1]);
    var m1 := ClearRegs(m0, 1, 11);
    var m2 := ClearRegs(m1, 240, 256);
    ClearedAt(m0, 1, 11, r);
    ClearedAt(m1, 240, 256, r);
    SavedBack(m2, regs, FIRST_LOCAL, top, r);
    WrittenElsewhere(m2, SaveRegs(regs, top));
  }

  /** From a call to its return: whatever the callee has done to the registers, the caller's locals are
      as they were, and the result register is the callee's. */
  lemma CallReturns(m: Machine, target: nat, top: nat, u: Machine, r: nat)
    requires m.Sized() && u.Sized() && top <= REGS && u.frames == Effect(m, Call(target, top)).frames && r < REGS
    ensures Restored(u).frames == m.frames && Restored(u).regs[r] == AfterReturn(u, m.regs, top, r)
    ensures u.frames[|u.frames| - 1].returnIp == m.ip + 1 && Restored(u).regs[0] == u.regs[0]
  {
    RestoredAt(u, m.regs, top, r);
    RestoredAt(u, m.regs, top, 0);
    assert u.frames[..|u.frames| - 1] == m.frames;
  }

  // ---- unwinding ------------------------------------------------------------------------------

  /** Unwinding to depth `d` restores the frame saved there last, so its locals are the ones that
      count. */
  lemma {:induction false} UnwoundAt(m: Machine, d: nat, regs: seq<Val>, top: nat, r: nat)
    requires m.Sized() && SavedAt(m, d, regs, top) && r < REGS && (IsLocal(r, top) || 1 <= r <= 10 || 240 <= r <= 255)
    ensures UnwindFrames(m, d).regs[r] == if IsLocal(r, top) then regs[r] else ZERO
    decreases |m.frames|
  {
    if |m.frames| == d + 1 {
      RestoredAt(m, regs, top, r);
    } else {
      UnwoundAt(Restored(m), d, regs, top, r);
    }
  }

  lemma {:induction false} UnwoundFrames(m: Machine, d: nat)
    requires m.Sized()
    ensures UnwindFrames(m, d).frames == if |m.frames| <= d then m.frames else m.frames[..d]
    ensures UnwindFrames(m, d).handlers == m.handlers && UnwindFrames(m, d).globals == m.globals
    decreases |m.frames|
  {
    if |m.frames| > d {
      RestoredElsewhere(m);
      UnwoundFrames(Restored(m), d);
    }
  }

  lemma {:induction false} WrittenElsewhere(m: Machine, l: seq<Saved>)
    requires m.Sized() && LocalsOk(l)
    ensures WriteSaved(m, l) == m.(regs := WriteSaved(m, l).regs)
    decreases |l|
  {
    if l != [] { WrittenElsewhere(m, l[..|l| - 1]); }
  }

  lemma RestoredElsewhere(m: Machine)
    requires m.Sized() && m.frames != []
    ensures Restored(m) == m.(regs := Restored(m).regs, frames := m.frames[..|m.frames| - 1])
  {
    var m0 := m.(frames := m.frames[..|m.frames| - 1]);
    var m1 := ClearRegs(m0, 1, 11);
    ClearedAt(m0, 1, 11, 0);
    ClearedAt(m1, 240, 256, 0);
    WrittenElsewhere(ClearRegs(m1, 240, 256), m.frames[|m.frames| - 1].locals);
  }

  /** The oldest value spilled from register `r` in `l`, if any. */
  function Oldest(l: seq<Saved>, r: nat, otherwise: Val): Val {
    if l == [] then otherwise else if l[0].reg == r then l[0].v else Oldest(l[1..], r, otherwise)
  }

  lemma {:induction false} OldestLast(l: seq<Saved>, s: Saved, r: nat, v: Val)
    ensures Oldest(l + [s], r, v) == Oldest(l, r, if s.reg == r then s.v else v)
    decreases |l|
  {
    if l == [] {
      assert ([s])[1..] == [] && l + [s] == [s];
    } else {
      assert (l + [s])[1..] == l[1..] + [s];
      OldestLast(l[1..], s, r, v);
    }
  }

  /** Unwinding spills to depth `d`: each register gets the oldest value spilled from it since then. */
  lemma {:induction false} UnspilledAt(m: Machine, d: nat, r: nat)
    requires m.Sized() && d <= |m.spill| && r < REGS
    ensures UnwindSpill(m, d) == m.(regs := UnwindSpill(m, d).regs, spill := m.spill[..d])
    ensures UnwindSpill(m, d).regs[r] == Oldest(m.spill[d..], r, m.regs[r])
    decreases |m.spill|
  {
    var n := |m.spill| - 1;
    if d <= n {
      UnspilledAt(PopSpill(m), d, r);
      assert m.spill[d..] == m.spill[..n][d..] + [m.spill[n]];
      OldestLast(m.spill[..n][d..], m.spill[n], r, m.regs[r]);
    } else {
      assert m.spill[d..] == [] && m.spill[..d] == m.spill;
    }
  }

  /** What is thrown inside a protected region arrives at its handler, with calls and spills as deep as
      when the region was entered, and the handler gone. */
  lemma ThrownArrives(a: Machine, target: nat, dst: nat, m: Machine, v: Val)
    requires a.Sized() && m.Sized() && dst < REGS && m.handlers == Effect(a, TryPush(target, dst)).handlers
    requires a.frames <= m.frames && a.spill <= m.spill
    ensures Thrown(m, v).ip == target && Thrown(m, v).regs[dst] == v && Thrown(m, v).handlers == a.handlers
    ensures Thrown(m, v).frames == a.frames && Thrown(m, v).spill == a.spill && Thrown(m, v).globals == m.globals
  {
    var m0 := m.(handlers := m.handlers[..|m.handlers| - 1]);
    assert m0.handlers == a.handlers;
    UnwoundTo(a, m0, dst);
  }

  lemma UnwoundTo(a: Machine, m: Machine, dst: nat)
    requires a.Sized() && m.Sized() && dst < REGS && m.handlers == a.handlers && a.frames <= m.frames && a.spill <= m.spill
    ensures var u := UnwindSpill(UnwindFrames(m, |a.frames|), |a.spill|);
      u.frames == a.frames && u.spill == a.spill && u.handlers == a.handlers && u.globals == m.globals
  {
    UnwoundFrames(m, |a.frames|);
    UnspilledAt(UnwindFrames(m, |a.frames|), |a.spill|, dst);
  }

  // ---- across two instructions ----------------------------------------------------------------

  /** A register that is spilled and popped again holds what it held, whatever was in it meanwhile. */
  lemma SpillReturns(m: Machine, r: nat, u: Machine, o: Outcome, m': Machine)
    requires m.Sized() && u.Sized() && r < REGS && u.spill == Effect(m, PushR(r)).spill && Popped(u, r, o, m')
    ensures o == Running && m'.spill == m.spill && m'.regs == u.regs[r := m.regs[r]]
  {
  }

  /** A load through the same registers finds what was stored, as long as the object is rooted. */
  lemma StoreThenLoad(m: Machine, mem: Memory, full: bool, full': bool, base: nat, off: nat, src: nat, dst: nat,
                      o: Outcome, m1: Machine, mem1: Memory, o': Outcome, m2: Machine, mem2: Memory)
    requires m.Sized() && base < REGS && off < REGS && src < REGS && dst < REGS
    requires Readable(mem, BaseOf(m, base), CellOf(m, off)) && BaseOf(m, base) in mem.roots
    requires StoreDone(m, mem, full, base, off, src, o, m1, mem1) && Loaded(m1, mem1, full', base, off, dst, o', m2, mem2)
    ensures o == Running && o' == Running && m2.regs == m.regs[dst := m.regs[src]] && m2.ip == m.ip + 2
  {
    var b, k := BaseOf(m, base), CellOf(m, off);
    assert Survivor(StoredIn(mem.heap, b, k, m.regs[src]), mem1.heap, b);
  }
}
