/** Emitting code bytes with open addresses, and patching them once every label is known. */
module Assembler {
  import opened Bytecode

  /** An open address: four bytes at `at` wait for the offset of `target`. */
  datatype Site = Site(at: nat, target: nat)

  // ---- the bytes before and after patching ----------------------------------------------------

  predicate Below(sites: seq<Site>, n: nat) {
    forall j :: 0 <= j < |sites| ==> sites[j].target < n
  }

  predicate InSite(sites: seq<Site>, b: nat) {
    exists j :: 0 <= j < |sites| && sites[j].at <= b < sites[j].at + 4
  }

  ghost predicate SiteOk(final: seq<Byte>, s: Site, offset: nat -> nat) {
    s.at + 4 <= |final| && final[s.at..s.at + 4] == ToBytes(offset(s.target), 4)
  }

  /** `now` becomes `final` when every site receives the offset of its label. */
  ghost predicate Patchable(now: seq<Byte>, final: seq<Byte>, sites: seq<Site>, offset: nat -> nat) {
    && |now| == |final|
    && (forall b: nat :: b < |now| ==> now[b] == final[b] || InSite(sites, b))
    && (forall j :: 0 <= j < |sites| ==> SiteOk(final, sites[j], offset))
  }

  lemma PatchableAppend(now: seq<Byte>, final: seq<Byte>, sites: seq<Site>, offset: nat -> nat, x: seq<Byte>)
    requires Patchable(now, final, sites, offset)
    ensures Patchable(now + x, final + x, sites, offset)
  {
    forall j | 0 <= j < |sites| ensures SiteOk(final + x, sites[j], offset) {
      assert SiteOk(final, sites[j], offset);
      assert (final + x)[sites[j].at..sites[j].at + 4] == final[sites[j].at..sites[j].at + 4];
    }
  }

  lemma PatchableOpen(now: seq<Byte>, final: seq<Byte>, sites: seq<Site>, offset: nat -> nat, target: nat)
    requires Patchable(now, final, sites, offset)
    ensures Patchable(now + ToBytes(0, 4), final + ToBytes(offset(target), 4), sites + [Site(|now|, target)], offset)
  {
    var x, y := ToBytes(0, 4), ToBytes(offset(target), 4);
    var sites' := sites + [Site(|now|, target)];
    forall j | 0 <= j < |sites'| ensures SiteOk(final + y, sites'[j], offset) {
      if j < |sites| {
        assert SiteOk(final, sites[j], offset);
        assert (final + y)[sites[j].at..sites[j].at + 4] == final[sites[j].at..sites[j].at + 4];
      } else {
        assert (final + y)[|now|..|now| + 4] == y;
      }
    }
    forall b: nat | b < |now + x| ensures (now + x)[b] == (final + y)[b] || InSite(sites', b) {
      if b < |now| {
        if InSite(sites, b) {
          var j :| 0 <= j < |sites| && sites[j].at <= b < sites[j].at + 4;
          assert sites'[j] == sites[j];
        }
      } else {
        assert sites'[|sites|].at <= b < sites'[|sites|].at + 4;
      }
    }
  }

  /** One site patched: nothing that was final changes, and the site becomes final. */
  lemma PatchOne(now: seq<Byte>, final: seq<Byte>, sites: seq<Site>, offset: nat -> nat)
    requires Patchable(now, final, sites, offset) && sites != []
    ensures var s := sites[0];
      && s.at + 4 <= |now|
      && Patchable(Overwrite(now, s.at, ToBytes(offset(s.target), 4)), final, sites[1..], offset)
  {
    var s := sites[0];
    assert SiteOk(final, s, offset);
    var x := ToBytes(offset(s.target), 4);
    var next := Overwrite(now, s.at, x);
    forall b: nat | b < |next| ensures next[b] == final[b] || InSite(sites[1..], b) {
      if s.at <= b < s.at + 4 {
        assert final[b] == final[s.at..s.at + 4][b - s.at];
      } else if InSite(sites, b) {
        var j :| 0 <= j < |sites| && sites[j].at <= b < sites[j].at + 4;
        assert j != 0;
        assert sites[1..][j - 1] == sites[j];
      }
    }
    forall j | 0 <= j < |sites[1..]| ensures SiteOk(final, sites[1..][j], offset) {
      assert sites[1..][j] == sites[j + 1];
    }
  }

  // ---- programs with labels -------------------------------------------------------------------

  /** Addresses replaced, everything else as it was. */
  function Relink(o: Operand, offset: nat -> nat): Operand {
    if o.Addr? then Addr(offset(o.a)) else o
  }

  function RelinkArgs(args: seq<Operand>, offset: nat -> nat): seq<Operand> {
    seq(|args|, k requires 0 <= k < |args| => Relink(args[k], offset))
  }

  function RelinkAll(prog: seq<Instr>, offset: nat -> nat): seq<Instr> {
    seq(|prog|, k requires 0 <= k < |prog| => Instr(prog[k].op, RelinkArgs(prog[k].args, offset)))
  }

  /** A label is the index of the instruction it stands before; its offset is where that
      instruction's bytes begin. */
  function Offsets(prog: seq<Instr>): nat -> nat {
    (k: nat) => if k <= |prog| then Offset(prog, k) else 0
  }

  /** The program with its labels turned into byte addresses. */
  function Linked(prog: seq<Instr>): seq<Instr> { RelinkAll(prog, Offsets(prog)) }

  lemma {:induction false} RelinkArgsSize(args: seq<Operand>, offset: nat -> nat, n: nat)
    requires n <= |args|
    ensures ArgsSize(RelinkArgs(args, offset), n) == ArgsSize(args, n)
    decreases n
  {
    if n > 0 { RelinkArgsSize(args, offset, n - 1); }
  }

  /** Linking moves nothing. */
  lemma {:induction false} LinkKeepsOffsets(prog: seq<Instr>, offset: nat -> nat, n: nat)
    requires n <= |prog|
    ensures Offset(RelinkAll(prog, offset), n) == Offset(prog, n)
    decreases n
  {
    if n > 0 {
      LinkKeepsOffsets(prog, offset, n - 1);
      RelinkArgsSize(prog[n - 1].args, offset, |prog[n - 1].args|);
    }
  }

  /** Every label names an instruction, and the whole code fits 32-bit addresses. */
  predicate Linkable(prog: seq<Instr>) {
    && ProgramOk(prog) && Offset(prog, |prog|) < WORD32
    && forall i, k :: 0 <= i < |prog| && 0 <= k < |prog[i].args| && prog[i].args[k].Addr? ==> prog[i].args[k].a < |prog|
  }

  lemma {:induction false} OffsetsGrow(prog: seq<Instr>, k: nat, n: nat)
    requires k <= n <= |prog|
    ensures Offset(prog, k) <= Offset(prog, n) && (k < n ==> Offset(prog, k) < Offset(prog, n))
    decreases n
  {
    if k < n { OffsetsGrow(prog, k, n - 1); }
  }

  lemma LinkOk(prog: seq<Instr>)
    requires Linkable(prog)
    ensures ProgramOk(Linked(prog))
  {
    var l := Linked(prog);
    forall i | 0 <= i < |l| ensures InstrOk(l[i]) {
      assert InstrOk(prog[i]);
      forall k | 0 <= k < |l[i].args| ensures OperandOk(l[i].args[k]) {
        assert OperandOk(prog[i].args[k]);
        if prog[i].args[k].Addr? { OffsetsGrow(prog, prog[i].args[k].a, |prog|); }
      }
    }
  }

  // ---- the emitter ----------------------------------------------------------------------------

  class Chunk {
    var code: seq<Byte>
    var patches: seq<Site>

    constructor ()
      ensures code == [] && patches == []
    {
      code, patches := [], [];
    }

    method EmitByte(b: Byte)
      modifies this`code
      ensures code == old(code) + [b]
    {
      code := code + [b];
    }

    /** `n` bytes, least significant first. */
    method EmitWord(v: nat, n: nat)
      modifies this`code
      ensures code == old(code) + ToBytes(v, n)
    {
      var rest, i := v, 0;
      while i < n
        invariant i <= n && code + ToBytes(rest, n - i) == old(code) + ToBytes(v, n)
      {
        assert ToBytes(rest, n - i) == [rest % 256] + ToBytes(rest / 256, n - i - 1);
        code := code + [rest % 256];
        rest, i := rest / 256, i + 1;
      }
    }

    method PatchU32(at: nat, v: nat)
      requires at + 4 <= |code|
      modifies this`code
      ensures code == Overwrite(old(code), at, ToBytes(v, 4))
    {
      var b0, b1, b2, b3 := v % 256, v / 256 % 256, v / 65536 % 256, v / 16777216 % 256;
      code := code[at := b0][at + 1 := b1][at + 2 := b2][at + 3 := b3];
      FourBytes(v);
    }

    /** A register in its short or wide form, an immediate, or an open address. */
    method EmitOperand(o: Operand)
      requires OperandOk(o)
      modifies this
      ensures code == old(code) + EncodeOperand(if o.Addr? then Addr(0) else o)
      ensures patches == if o.Addr? then old(patches) + [Site(|old(code)| + 1, o.a)] else old(patches)
    {
      match o
      case Reg(r) => EmitReg(r);
      case Imm(v) => EmitTagged(TAG_IMM, Unsigned(v), 8);
      case StrIdx(i) => EmitTagged(TAG_STR, i, 4);
      case Addr(a) =>
        patches := patches + [Site(|code| + 1, a)];
        EmitTagged(TAG_ADDR, 0, 4);
      case Null => EmitByte(TAG_NULL);
      case Float(b) => EmitTagged(TAG_FLOAT, Unsigned(b), 8);
    }

    method EmitReg(r: nat)
      requires r < REGS
      modifies this`code
      ensures code == old(code) + EncodeOperand(Reg(r))
    {
      if r < 256 {
        EmitByte(TAG_REG);
        EmitByte(r);
      } else {
        EmitByte(TAG_WIDE);
        EmitByte(r % 256);
        EmitByte(r / 256);
      }
    }

    method EmitTagged(tag: Byte, v: nat, n: nat)
      modifies this`code
      ensures code == old(code) + ([tag] + ToBytes(v, n))
    {
      EmitByte(tag);
      EmitWord(v, n);
    }

    method EmitInstr(i: Instr, ghost final: seq<Byte>, ghost offset: nat -> nat, ghost bound: nat)
      requires InstrOk(i) && Patchable(code, final, patches, offset) && Below(patches, bound)
      requires forall k :: 0 <= k < |i.args| && i.args[k].Addr? ==> i.args[k].a < bound
      requires InstrOk(Instr(i.op, RelinkArgs(i.args, offset)))
      modifies this
      ensures Patchable(code, final + EncodeInstr(Instr(i.op, RelinkArgs(i.args, offset))), patches, offset)
      ensures Below(patches, bound)
    {
      PatchableAppend(code, final, patches, offset, [i.op]);
      EmitByte(i.op);
      EmitArgs(i.args, final + [i.op], offset, bound);
      EncodeTogether(final, i.op, RelinkArgs(i.args, offset));
    }

    method EmitArgs(args: seq<Operand>, ghost final: seq<Byte>, ghost offset: nat -> nat, ghost bound: nat)
      requires Patchable(code, final, patches, offset) && Below(patches, bound)
      requires forall k :: 0 <= k < |args| ==> OperandOk(args[k]) && (args[k].Addr? ==> args[k].a < bound)
      requires forall k :: 0 <= k < |args| ==> OperandOk(RelinkArgs(args, offset)[k])
      modifies this
      ensures Patchable(code, final + EncodeArgs(RelinkArgs(args, offset), |args|), patches, offset)
      ensures Below(patches, bound)
    {
      ghost var linked := RelinkArgs(args, offset);
      for k := 0 to |args|
        invariant Patchable(code, final + EncodeArgs(linked, k), patches, offset) && Below(patches, bound)
      {
        EmitArg(args[k], final + EncodeArgs(linked, k), offset, bound);
        NextArg(final, linked, k);
      }
    }

    method EmitArg(o: Operand, ghost final: seq<Byte>, ghost offset: nat -> nat, ghost bound: nat)
      requires Patchable(code, final, patches, offset) && Below(patches, bound)
      requires OperandOk(o) && OperandOk(Relink(o, offset)) && (o.Addr? ==> o.a < bound)
      modifies this
      ensures Patchable(code, final + EncodeOperand(Relink(o, offset)), patches, offset) && Below(patches, bound)
    {
      OperandPatchable(code, final, patches, offset, o);
      EmitOperand(o);
    }

    /** Emit everything, note where each instruction starts, then fill in the addresses: the result
        is the encoding of the linked program. */
    method Assemble(prog: seq<Instr>) returns (labels: seq<nat>)
      requires Linkable(prog) && code == [] && patches == []
      modifies this
      ensures Labelled(labels, prog, |prog|)
      ensures ProgramOk(Linked(prog)) && code == Encode(Linked(prog), |prog|)
    {
      LinkOk(prog);
      labels := EmitAll(prog);
      forall k: nat | k < |prog| ensures labels[k] == Offset(prog, k) { assert LabelAt(labels, prog, k); }
      PatchAll(labels, Encode(Linked(prog), |prog|), Offsets(prog), |prog|);
    }

    method EmitAll(prog: seq<Instr>) returns (labels: seq<nat>)
      requires Linkable(prog) && ProgramOk(Linked(prog)) && code == [] && patches == []
      modifies this
      ensures Labelled(labels, prog, |prog|) && Emitted(prog, |prog|)
    {
      labels := [];
      NothingEmitted(code, prog, patches, 0);
      for n := 0 to |prog|
        invariant Labelled(labels, prog, n)
        invariant Emitted(prog, n)
      {
        var at := EmitNext(prog, n);
        LabelledNext(labels, prog, n);
        labels := labels + [at];
      }
    }

    /** The first `n` instructions are there, but for the addresses. */
    ghost predicate Emitted(prog: seq<Instr>, n: nat)
      requires n <= |prog| && ProgramOk(Linked(prog))
      reads this
    {
      Patchable(code, Encode(Linked(prog), n), patches, Offsets(prog)) && Below(patches, |prog|)
    }

    method EmitNext(prog: seq<Instr>, n: nat) returns (at: nat)
      requires Linkable(prog) && n < |prog| && ProgramOk(Linked(prog)) && Emitted(prog, n)
      modifies this
      ensures at == Offset(prog, n) && Emitted(prog, n + 1)
    {
      LinkKeepsOffsets(prog, Offsets(prog), n);
      at := |code|;
      assert InstrOk(Linked(prog)[n]) && InstrOk(prog[n]);
      EmitInstr(prog[n], Encode(Linked(prog), n), Offsets(prog), |prog|);
    }

    method PatchAll(labels: seq<nat>, ghost final: seq<Byte>, ghost offset: nat -> nat, ghost n: nat)
      requires Patchable(code, final, patches, offset) && |labels| == n
      requires Below(patches, n)
      requires forall k: nat :: k < n ==> labels[k] == offset(k)
      modifies this`code
      ensures code == final
    {
      for j := 0 to |patches|
        invariant Patchable(code, final, patches[j..], offset)
      {
        var s := patches[j];
        PatchOne(code, final, patches[j..], offset);
        assert patches[j..][1..] == patches[j + 1..];
        PatchU32(s.at, labels[s.target]);
      }
      assert patches[|patches|..] == [];
    }
  }

  /** Every label so far is where its instruction starts. */
  ghost predicate Labelled(labels: seq<nat>, prog: seq<Instr>, n: nat) {
    |labels| == n <= |prog| && forall k: nat :: k < n ==> LabelAt(labels, prog, k)
  }

  ghost predicate LabelAt(labels: seq<nat>, prog: seq<Instr>, k: nat)
    requires k < |labels| && k < |prog|
  {
    labels[k] == Offset(prog, k)
  }

  lemma LabelledNext(labels: seq<nat>, prog: seq<Instr>, n: nat)
    requires Labelled(labels, prog, n) && n < |prog|
    ensures Labelled(labels + [Offset(prog, n)], prog, n + 1)
  {
    forall k: nat | k <= n ensures LabelAt(labels + [Offset(prog, n)], prog, k) { assert k < n ==> LabelAt(labels, prog, k); }
  }

  lemma NothingEmitted(code: seq<Byte>, prog: seq<Instr>, sites: seq<Site>, n: nat)
    requires n == 0 && code == [] && sites == [] && ProgramOk(Linked(prog))
    ensures Patchable(code, Encode(Linked(prog), n), sites, Offsets(prog))
  {
  }

  lemma EncodeTogether(final: seq<Byte>, op: Byte, args: seq<Operand>)
    requires InstrOk(Instr(op, args))
    ensures final + [op] + EncodeArgs(args, |args|) == final + EncodeInstr(Instr(op, args))
  {
  }

  lemma NextArg(f: seq<Byte>, args: seq<Operand>, k: nat)
    requires k < |args| && forall i :: 0 <= i < |args| ==> OperandOk(args[i])
    ensures f + EncodeArgs(args, k) + EncodeOperand(args[k]) == f + EncodeArgs(args, k + 1)
  {
  }

  lemma FourBytes(v: nat)
    ensures ToBytes(v, 4) == [v % 256, v / 256 % 256, v / 65536 % 256, v / 16777216 % 256]
  {
    assert ToBytes(v / 16777216, 1) == [v / 16777216 % 256];
    assert v / 256 / 256 == v / 65536 && v / 65536 / 256 == v / 16777216;
    assert ToBytes(v / 65536, 2) == [v / 65536 % 256] + ToBytes(v / 16777216, 1);
    assert ToBytes(v / 256, 3) == [v / 256 % 256] + ToBytes(v / 65536, 2);
  }

  lemma AddrBytes(code: seq<Byte>, a: nat)
    requires OperandOk(Addr(a))
    ensures code + [TAG_ADDR] + ToBytes(a, 4) == code + EncodeOperand(Addr(a))
  {
  }

  lemma OperandPatchable(now: seq<Byte>, final: seq<Byte>, sites: seq<Site>, offset: nat -> nat, o: Operand)
    requires Patchable(now, final, sites, offset) && OperandOk(o) && OperandOk(Relink(o, offset))
    ensures Patchable(now + EncodeOperand(if o.Addr? then Addr(0) else o), final + EncodeOperand(Relink(o, offset)),
                      if o.Addr? then sites + [Site(|now| + 1, o.a)] else sites, offset)
  {
    if o.Addr? {
      PatchableAppend(now, final, sites, offset, [TAG_ADDR]);
      PatchableOpen(now + [TAG_ADDR], final + [TAG_ADDR], sites, offset, o.a);
      AddrBytes(now, 0);
      AddrBytes(final, offset(o.a));
    } else {
      PatchableAppend(now, final, sites, offset, EncodeOperand(o));
    }
  }
}
