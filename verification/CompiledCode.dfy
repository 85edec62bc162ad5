/** From a body to bytes and back: the decoded bytes of a compiled body simulate it. */
module CompiledCode {
  import opened Mir
  import opened MirSim
  import B = Bytecode
  import A = Assembler

  const SELF: Labels := (k: nat) => k

  // ---- linking commutes with emission ---------------------------------------------------------

  /** `f` applied to every address of `c`. */
  function Relinked(c: seq<Instr>, f: Labels): (d: seq<Instr>)
    ensures |d| == |c|
  {
    A.RelinkAll(c, f)
  }

  lemma RelinkedAppend(a: seq<Instr>, b: seq<Instr>, f: Labels)
    ensures Relinked(a + b, f) == Relinked(a, f) + Relinked(b, f)
  {
  }

  ghost predicate Plain(i: Instr) {
    forall k :: 0 <= k < |i.args| ==> !i.args[k].Addr?
  }

  lemma RelinkPlain(c: seq<Instr>, f: Labels)
    requires forall i :: 0 <= i < |c| ==> Plain(c[i])
    ensures Relinked(c, f) == c
  {
    forall i | 0 <= i < |c| ensures Relinked(c, f)[i] == c[i] {
      assert Plain(c[i]);
      assert A.RelinkArgs(c[i].args, f) == c[i].args;
    }
  }

  lemma RelinkJumps(op: B.Byte, a: nat, f: Labels)
    ensures Relinked([Jmp(a)], f) == [Jmp(f(a))]
    ensures Relinked([Branch(op, a)], f) == [Branch(op, f(a))]
  {
    assert A.RelinkArgs([B.Addr(a), B.Addr(a)], f) == [B.Addr(f(a)), B.Addr(f(a))];
    assert A.RelinkArgs([B.Addr(a)], f) == [B.Addr(f(a))];
  }

  lemma OperandPlain(o: Operand, reg: nat)
    requires o.Local? ==> o.l < MAX_LOCALS
    ensures forall i :: 0 <= i < |EmitOperand(o, reg)| ==> Plain(EmitOperand(o, reg)[i])
  {
  }

  lemma RelinkTail(c: CmpOp, p: nat, t: nat, f: Labels)
    ensures Relinked(CompareTail(c, p, t, SELF), f) == CompareTail(c, p, t, f)
  {
    var a, b := CompareTail(c, p, t, SELF), CompareTail(c, p, t, f);
    forall i | 0 <= i < |a| ensures Relinked(a, f)[i] == b[i] {
      OneInstr(a[i], f);
    }
  }

  /** The address of a single instruction, if it has one. */
  lemma OneInstr(i: Instr, f: Labels)
    ensures |i.args| == 2 && i.args[0].Reg? && i.args[1].Imm? ==> A.RelinkArgs(i.args, f) == i.args
    ensures |i.args| == 2 && i.args[0].Reg? && i.args[1].Reg? ==> A.RelinkArgs(i.args, f) == i.args
    ensures |i.args| == 1 && i.args[0].Addr? ==> A.RelinkArgs(i.args, f) == [B.Addr(f(i.args[0].a))]
    ensures |i.args| == 2 && i.args[0].Addr? && i.args[1].Addr? ==>
      A.RelinkArgs(i.args, f) == [B.Addr(f(i.args[0].a)), B.Addr(f(i.args[1].a))]
  {
  }

  lemma RelinkNot(p: nat, t: nat, f: Labels)
    ensures Relinked(NotTail(p, t, SELF), f) == NotTail(p, t, f)
  {
    var a, b := NotTail(p, t, SELF), NotTail(p, t, f);
    forall i | 0 <= i < |a| ensures Relinked(a, f)[i] == b[i] { OneInstr(a[i], f); }
  }

  lemma RelinkStmt(s: Stmt, base: nat, f: Labels)
    requires StmtOk(s, MAX_LOCALS)
    ensures Relinked(EmitStmt(s, base, SELF), f) == EmitStmt(s, base, f)
  {
    if s.Marker? {
      RelinkPlain(EmitStmt(s, base, SELF), f);
    } else {
      var p := LocalToReg(s.place);
      match s.rv
      case Use(o) =>
        OperandPlain(o, p);
        RelinkPlain(EmitOperand(o, p), f);
      case Binary(b, l, r) =>
        OperandPlain(l, LEFT);
        OperandPlain(r, RIGHT);
        RelinkPlain(EmitStmt(s, base, SELF), f);
      case Compare(c, l, r) => RelinkCompare(s.place, c, l, r, base, f);
      case Negate(o) =>
        OperandPlain(o, LEFT);
        RelinkPlain(EmitStmt(s, base, SELF), f);
      case Not(o) =>
        OperandPlain(o, LEFT);
        RelinkPlain(EmitOperand(o, LEFT), f);
        RelinkNot(p, base + 1, f);
        RelinkedAppend(EmitOperand(o, LEFT), NotTail(p, base + 1, SELF), f);
    }
  }

  lemma RelinkCompare(place: nat, c: CmpOp, l: Operand, r: Operand, base: nat, f: Labels)
    requires place < MAX_LOCALS && OperandOk(l, MAX_LOCALS) && OperandOk(r, MAX_LOCALS)
    ensures Relinked(EmitRvalue(place, Compare(c, l, r), base, SELF), f) == EmitRvalue(place, Compare(c, l, r), base, f)
  {
    var head := EmitOperand(l, LEFT) + EmitOperand(r, RIGHT) + [Cmp(LEFT, RIGHT)];
    OperandPlain(l, LEFT);
    OperandPlain(r, RIGHT);
    RelinkPlain(head, f);
    RelinkTail(c, LocalToReg(place), base + 3, f);
    RelinkedAppend(head, CompareTail(c, LocalToReg(place), base + 3, SELF), f);
  }

  lemma {:induction false} RelinkCases(cs: seq<(int, nat)>, start: Labels, f: Labels)
    ensures Relinked(EmitCases(cs, start, SELF), f) == EmitCases(cs, start, f)
    decreases |cs|
  {
    if cs != [] {
      var t := start(cs[0].1);
      var head := [Push(CASE, cs[0].0), Cmp(DISCR, CASE)];
      RelinkPlain(head, f);
      RelinkJumps(B.JZ, t, f);
      RelinkedAppend(head, [Branch(B.JZ, t)], f);
      RelinkCases(cs[1..], start, f);
      RelinkedAppend(head + [Branch(B.JZ, t)], EmitCases(cs[1..], start, SELF), f);
      assert head + [Branch(B.JZ, t)] == [Push(CASE, cs[0].0), Cmp(DISCR, CASE), Branch(B.JZ, t)];
      assert head + [Branch(B.JZ, f(t))] == [Push(CASE, cs[0].0), Cmp(DISCR, CASE), Branch(B.JZ, f(t))];
    }
  }

  lemma RelinkTerm(t: Term, start: Labels, f: Labels)
    requires t.Switch? ==> OperandOk(t.discr, MAX_LOCALS)
    ensures Relinked(EmitTerm(t, start, SELF), f) == EmitTerm(t, start, f)
  {
    match t
    case Goto(b) => RelinkJumps(B.JZ, start(b), f);
    case Switch(d, cs, o) =>
      var ops, mid, last := EmitOperand(d, DISCR), EmitCases(cs, start, SELF), [Jmp(start(o))];
      OperandPlain(d, DISCR);
      RelinkPlain(ops, f);
      RelinkCases(cs, start, f);
      RelinkJumps(B.JZ, start(o), f);
      RelinkedAppend(ops, mid, f);
      RelinkedAppend(ops + mid, last, f);
    case Return => RelinkPlain(EmitTerm(t, start, SELF), f);
  }

  lemma {:induction false} RelinkStmts(b: Block, n: nat, base: nat, f: Labels)
    requires Widened(b) && n <= |b.stmts|
    ensures Relinked(EmitStmts(b, n, base, SELF), f) == EmitStmts(b, n, base, f)
    decreases n
  {
    if n > 0 {
      RelinkStmts(b, n - 1, base, f);
      RelinkStmtCode(b, n - 1, base, f);
      RelinkedAppend(EmitStmts(b, n - 1, base, SELF), StmtCode(b, n - 1, base, SELF), f);
      StmtsUnfold(b, n, base, SELF);
      StmtsUnfold(b, n, base, f);
    }
  }

  lemma StmtsUnfold(b: Block, n: nat, base: nat, addr: Labels)
    requires Widened(b) && 0 < n <= |b.stmts|
    ensures EmitStmts(b, n, base, addr) == EmitStmts(b, n - 1, base, addr) + StmtCode(b, n - 1, base, addr)
  {
  }

  lemma RelinkStmtCode(b: Block, i: nat, base: nat, f: Labels)
    requires Widened(b) && i < |b.stmts|
    ensures Relinked(StmtCode(b, i, base, SELF), f) == StmtCode(b, i, base, f)
  {
    RelinkStmt(b.stmts[i], StmtAt(b, i, base), f);
  }

  lemma {:induction false} RelinkPrologue(n: nat, f: Labels)
    requires n < MAX_LOCALS
    ensures Relinked(Prologue(n), f) == Prologue(n)
  {
    if n > 0 {
      RelinkPrologue(n - 1, f);
      RelinkPlain([Move(LocalToReg(n), n)], f);
      RelinkedAppend(Prologue(n - 1), [Move(LocalToReg(n), n)], f);
    }
  }

  ghost predicate BlockRelinks(y: Body, k: nat, f: Labels)
    requires AllWidened(y) && k < |y.blocks|
  {
    Relinked(BlockCode(y, k, SELF), f) == BlockCode(y, k, f)
  }

  ghost predicate BlocksRelink(y: Body, n: nat, f: Labels)
    requires BodyOk(y) && AllWidened(y) && n <= |y.blocks|
  {
    Relinked(EmitBlocks(y, n, SELF), f) == EmitBlocks(y, n, f)
  }

  lemma RelinkNextBlock(y: Body, n: nat, f: Labels)
    requires BodyOk(y) && AllWidened(y) && 0 < n <= |y.blocks| && BlockRelinks(y, n - 1, f) && BlocksRelink(y, n - 1, f)
    ensures BlocksRelink(y, n, f)
  {
    RelinkedAppend(EmitBlocks(y, n - 1, SELF), BlockCode(y, n - 1, SELF), f);
  }

  lemma RelinkNoBlock(y: Body, n: nat, f: Labels)
    requires BodyOk(y) && AllWidened(y) && n == 0
    ensures BlocksRelink(y, n, f)
  {
    RelinkPrologue(y.params, f);
  }

  lemma {:induction false} RelinkBlocks(y: Body, n: nat, f: Labels)
    requires BodyOk(y) && AllWidened(y) && n <= |y.blocks| && forall k: nat :: k < |y.blocks| ==> BlockRelinks(y, k, f)
    ensures BlocksRelink(y, n, f)
    decreases n
  {
    if n == 0 {
      RelinkNoBlock(y, n, f);
    } else {
      RelinkBlocks(y, n - 1, f);
      assert BlockRelinks(y, n - 1, f);
      RelinkNextBlock(y, n, f);
    }
  }

  lemma RelinkBlock(b: Block, base: nat, start: Labels, f: Labels)
    requires Widened(b)
    ensures Relinked(EmitBlock(b, base, start, SELF), f) == EmitBlock(b, base, start, f)
  {
    RelinkStmts(b, |b.stmts|, base, f);
    RelinkTerm(b.term, start, f);
    RelinkedAppend(EmitStmts(b, |b.stmts|, base, SELF), EmitTerm(b.term, start, SELF), f);
  }

  /** Patching labels after emission gives the code emitted with the final addresses. */
  lemma LinkedIsEmitted(y: Body, f: Labels)
    requires BodyOk(y)
    ensures A.RelinkAll(EmitBody(y, SELF), f) == EmitBody(y, f)
  {
    BodyWidened(y);
    forall k: nat | k < |y.blocks| ensures BlockRelinks(y, k, f) {
      RelinkBlock(y.blocks[k], BlockStart(y, k), Starts(y), f);
    }
    RelinkBlocks(y, |y.blocks|, f);
  }

  // ---- addresses resolve ----------------------------------------------------------------------

  /** The index of the decoded instruction that starts at byte `a`, or -1. */
  function Find(d: seq<B.Decoded>, a: nat, n: nat): int
    requires n <= |d|
    decreases n, d
  {
    if n == 0 then -1 else if d[n - 1].offset == a then n - 1 else Find(d, a, n - 1)
  }

  lemma {:induction false} FindFinds(prog: seq<Instr>, k: nat, n: nat)
    requires k < n <= |prog|
    ensures Find(B.WithOffsets(prog, |prog|), B.Offset(prog, k), n) == k
    decreases n
  {
    B.WithOffsetsAt(prog, |prog|, n - 1);
    if k < n - 1 {
      A.OffsetsGrow(prog, k, n - 1);
      FindFinds(prog, k, n - 1);
    }
  }

  /** The environment of a program: the decoded bytes, the final addresses, and the map from byte
      offsets to instructions. */
  function Loaded(prog: seq<Instr>, alu: Alu): Env {
    var code := A.Linked(prog);
    var d := B.WithOffsets(code, |code|);
    Env(code, A.Offsets(prog), (a: nat) => Find(d, a, |d|), alu)
  }

  lemma LoadedResolves(prog: seq<Instr>, alu: Alu)
    ensures EnvOk(Loaded(prog, alu))
  {
    var v := Loaded(prog, alu);
    forall k: nat | k < |v.code| ensures Resolves(v, k) {
      A.LinkKeepsOffsets(prog, A.Offsets(prog), k);
      FindFinds(v.code, k, |v.code|);
    }
  }

  lemma LoadedCompiled(y: Body, alu: Alu)
    requires BodyOk(y)
    ensures Compiled(y, Loaded(EmitBody(y, SELF), alu))
  {
    BodyWidened(y);
    LinkedIsEmitted(y, A.Offsets(EmitBody(y, SELF)));
    LoadedResolves(EmitBody(y, SELF), alu);
  }

  // ---- entering a body ------------------------------------------------------------------------

  /** The locals on entry: parameters from the argument registers, the rest as the registers are. */
  function Entry(y: Body, s: IntMachine): (l: seq<int>)
    requires BodyOk(y) && |s.regs| == B.REGS
    ensures |l| == y.locals
  {
    seq(y.locals, i requires 0 <= i < y.locals => if 1 <= i <= y.params then s.regs[i] else s.regs[LocalToReg(i)])
  }

  ghost predicate MovedIn(s: IntMachine, t: IntMachine, n: nat) {
    && |t.regs| == |s.regs| == B.REGS && t.pc == n
    && forall r :: 0 <= r < B.REGS ==> t.regs[r] == Arrived(s, n, r)
  }

  /** What register `r` holds after `n` parameters have been moved. */
  function Arrived(s: IntMachine, n: nat, r: nat): int
    requires |s.regs| == B.REGS && r < B.REGS
  {
    if 16 <= r < 16 + n then s.regs[r - 15] else s.regs[r]
  }

  lemma {:induction false} PrologueStands(y: Body, n: nat, addr: Labels)
    requires BodyOk(y) && AllWidened(y) && n <= |y.blocks|
    ensures Stands(EmitBlocks(y, n, addr), 0, Prologue(y.params))
    decreases n
  {
    if n == 0 {
      WholeStands(Prologue(y.params));
    } else {
      PrologueStands(y, n - 1, addr);
      PrologueNext(y, n, addr);
    }
  }

  lemma WholeStands(c: seq<Instr>)
    ensures Stands(c, 0, c)
  {
    assert c[0..|c|] == c;
  }

  lemma PrologueNext(y: Body, n: nat, addr: Labels)
    requires BodyOk(y) && AllWidened(y) && 0 < n <= |y.blocks| && Stands(EmitBlocks(y, n - 1, addr), 0, Prologue(y.params))
    ensures Stands(EmitBlocks(y, n, addr), 0, Prologue(y.params))
  {
    StandsInside(EmitBlocks(y, n - 1, addr), BlockCode(y, n - 1, addr), 0, Prologue(y.params));
  }

  lemma {:induction false} PrologueAt(n: nat, k: nat)
    requires k < n < MAX_LOCALS
    ensures Prologue(n)[k] == Move(LocalToReg(k + 1), k + 1)
    decreases n
  {
    if k < n - 1 { PrologueAt(n - 1, k); }
  }

  lemma MovedOne(s: IntMachine, a: IntMachine, n: nat)
    requires 0 < n <= MAX_PARAMS && MovedIn(s, a, n - 1)
    ensures MovedIn(s, a.(regs := a.regs[LocalToReg(n) := a.regs[n]], pc := a.pc + 1), n)
  {
    assert LocalToReg(n) == n + 15 && a.regs[n] == s.regs[n];
    var t := a.(regs := a.regs[LocalToReg(n) := a.regs[n]], pc := a.pc + 1);
    forall r | 0 <= r < B.REGS ensures t.regs[r] == Arrived(s, n, r) { assert a.regs[r] == Arrived(s, n - 1, r); }
  }

  lemma {:induction false} RunPrologue(v: Env, s: IntMachine, params: nat, n: nat) returns (t: IntMachine)
    requires |s.regs| == B.REGS && s.pc == 0 && n <= params <= MAX_PARAMS && Stands(v.code, 0, Prologue(params))
    ensures Reaches(v, s, t) && MovedIn(s, t, n)
    decreases n
  {
    if n == 0 {
      ReachesSelf(v, s);
      t := s;
    } else {
      var a := RunPrologue(v, s, params, n - 1);
      MoveHere(v, params, n - 1);
      DoMove(v, s, a, LocalToReg(n), n);
      t := a.(regs := a.regs[LocalToReg(n) := a.regs[n]], pc := a.pc + 1);
      MovedOne(s, a, n);
    }
  }

  lemma MoveHere(v: Env, params: nat, k: nat)
    requires k < params <= MAX_PARAMS && Stands(v.code, 0, Prologue(params))
    ensures k < |v.code| && v.code[k] == Move(LocalToReg(k + 1), k + 1)
  {
    PrologueAt(params, k);
    StandsAt(v.code, 0, Prologue(params), k);
  }

  lemma EntryAgrees(y: Body, s: IntMachine, t: IntMachine, l: nat)
    requires BodyOk(y) && MovedIn(s, t, y.params) && l < y.locals
    ensures t.regs[LocalToReg(l)] == Entry(y, s)[l]
  {
    assert t.regs[LocalToReg(l)] == Arrived(s, y.params, LocalToReg(l));
    if 1 <= l <= y.params {
      assert LocalToReg(l) == l + 15;
    } else {
      assert !(16 <= LocalToReg(l) < 16 + y.params);
    }
  }

  /** A call enters the body with its parameters in place. */
  lemma Enters(y: Body, v: Env, s: IntMachine) returns (t: IntMachine)
    requires Compiled(y, v) && |s.regs| == B.REGS && s.pc == 0
    ensures Reaches(v, s, t) && Sim(y, MirState(0, 0, Entry(y, s)), t)
  {
    PrologueStands(y, |y.blocks|, v.addr);
    t := RunPrologue(v, s, y.params, y.params);
    var locals := Entry(y, s);
    forall l: nat | l < |locals| ensures AgreeAt(locals, t, l) { EntryAgrees(y, s, t, l); }
  }

  // ---- emitted code can be linked -------------------------------------------------------------

  predicate Fine(i: Instr, bound: nat) {
    B.InstrOk(i) && forall k :: 0 <= k < |i.args| && i.args[k].Addr? ==> i.args[k].a < bound
  }

  ghost predicate AllFine(c: seq<Instr>, bound: nat) {
    forall i :: 0 <= i < |c| ==> Fine(c[i], bound)
  }

  lemma FineAppend(a: seq<Instr>, b: seq<Instr>, bound: nat)
    requires AllFine(a, bound) && AllFine(b, bound)
    ensures AllFine(a + b, bound)
  {
  }

  lemma FineJoin(whole: seq<Instr>, a: seq<Instr>, b: seq<Instr>, bound: nat)
    requires AllFine(a, bound) && AllFine(b, bound) && whole == a + b
    ensures AllFine(whole, bound)
  {
    FineAppend(a, b, bound);
  }

  lemma SimpleFine(r: nat, s: nat, x: int, bound: nat)
    requires r < B.REGS && s < B.REGS && -B.HALF64 <= x < B.HALF64
    ensures Fine(Push(r, x), bound) && Fine(Move(r, s), bound) && Fine(Cmp(r, s), bound)
  {
  }

  lemma JumpFine(a: nat, bound: nat)
    requires a < bound < B.WORD32
    ensures Fine(Jmp(a), bound) && Fine(Branch(B.JZ, a), bound) && Fine(Branch(B.JNZ, a), bound) && Fine(Branch(B.JN, a), bound)
  {
  }

  lemma ArithFine(b: BinOp, d: nat, l: nat, r: nat, bound: nat)
    requires d < B.REGS && l < B.REGS && r < B.REGS
    ensures Fine(Arith(b, d, l, r), bound)
  {
  }

  lemma OperandFine(o: Operand, reg: nat, bound: nat)
    requires OperandOk(o, MAX_LOCALS) && reg < B.REGS
    ensures AllFine(EmitOperand(o, reg), bound)
  {
    match o
    case Const(x) => SimpleFine(reg, 0, x, bound);
    case Local(l) => SimpleFine(reg, LocalToReg(l), 0, bound);
  }

  lemma TailFine(c: CmpOp, p: nat, t: nat, bound: nat)
    requires p < B.REGS && t + TailSize(c) < bound < B.WORD32
    ensures AllFine(CompareTail(c, p, t, SELF), bound)
  {
    SimpleFine(p, 0, 0, bound);
    SimpleFine(p, 0, 1, bound);
    JumpFine(t + 3, bound);
    if !(c.Eq? || c.Ne? || c.Lt?) { JumpFine(t + 4, bound); }
    if c.Gt? { JumpFine(t + 5, bound); }
  }

  lemma NotFine(p: nat, t: nat, bound: nat)
    requires p < B.REGS && t + 6 < bound < B.WORD32
    ensures AllFine(NotTail(p, t, SELF), bound)
  {
    SimpleFine(RIGHT, 0, 0, bound);
    SimpleFine(LEFT, RIGHT, 0, bound);
    SimpleFine(p, 0, 0, bound);
    SimpleFine(p, 0, 1, bound);
    JumpFine(t + 5, bound);
    JumpFine(t + 6, bound);
  }

  lemma StmtFine(s: Stmt, base: nat, bound: nat, c: seq<Instr>)
    requires StmtOk(s, MAX_LOCALS) && base + StmtSize(s) < bound < B.WORD32 && c == EmitStmt(s, base, SELF)
    ensures AllFine(c, bound)
  {
    if s.Marker? {
      assert c == [B.Instr(B.NOP, [])];
      assert Fine(c[0], bound);
    } else if s.rv.Use? {
      OperandFine(s.rv.o, LocalToReg(s.place), bound);
    } else if s.rv.Binary? {
      BinaryFine(LocalToReg(s.place), s.rv.b, s.rv.l, s.rv.r, bound);
    } else if s.rv.Compare? {
      CompareFine(LocalToReg(s.place), s.rv.c, s.rv.l, s.rv.r, base, bound);
    } else {
      UnaryFine(LocalToReg(s.place), s.rv.o, base, bound, s.rv.Not?);
    }
  }

  lemma BinaryFine(p: nat, b: BinOp, l: Operand, r: Operand, bound: nat)
    requires p < B.REGS && OperandOk(l, MAX_LOCALS) && OperandOk(r, MAX_LOCALS)
    ensures AllFine(EmitOperand(l, LEFT) + EmitOperand(r, RIGHT) + [Arith(b, p, LEFT, RIGHT)], bound)
  {
    StagedFine(l, r, bound);
    ArithFine(b, p, LEFT, RIGHT, bound);
    FineAppend(EmitOperand(l, LEFT) + EmitOperand(r, RIGHT), [Arith(b, p, LEFT, RIGHT)], bound);
  }

  lemma CompareFine(p: nat, c: CmpOp, l: Operand, r: Operand, base: nat, bound: nat)
    requires p < B.REGS && OperandOk(l, MAX_LOCALS) && OperandOk(r, MAX_LOCALS) && base + 3 + TailSize(c) < bound < B.WORD32
    ensures AllFine(EmitOperand(l, LEFT) + EmitOperand(r, RIGHT) + [Cmp(LEFT, RIGHT)] + CompareTail(c, p, base + 3, SELF), bound)
  {
    ComparedFine(l, r, bound);
    TailFineAfter(EmitOperand(l, LEFT) + EmitOperand(r, RIGHT) + [Cmp(LEFT, RIGHT)], c, p, base + 3, bound);
  }

  lemma TailFineAfter(head: seq<Instr>, c: CmpOp, p: nat, t: nat, bound: nat)
    requires AllFine(head, bound) && p < B.REGS && t + TailSize(c) < bound < B.WORD32
    ensures AllFine(head + CompareTail(c, p, t, SELF), bound)
  {
    TailFine(c, p, t, bound);
    FineAppend(head, CompareTail(c, p, t, SELF), bound);
  }

  lemma ComparedFine(l: Operand, r: Operand, bound: nat)
    requires OperandOk(l, MAX_LOCALS) && OperandOk(r, MAX_LOCALS)
    ensures AllFine(EmitOperand(l, LEFT) + EmitOperand(r, RIGHT) + [Cmp(LEFT, RIGHT)], bound)
  {
    StagedFine(l, r, bound);
    SimpleFine(LEFT, RIGHT, 0, bound);
    FineAppend(EmitOperand(l, LEFT) + EmitOperand(r, RIGHT), [Cmp(LEFT, RIGHT)], bound);
  }

  lemma UnaryFine(p: nat, o: Operand, base: nat, bound: nat, negated: bool)
    requires p < B.REGS && OperandOk(o, MAX_LOCALS) && base + (if negated then 7 else 3) < bound < B.WORD32
    ensures AllFine(EmitOperand(o, LEFT) + (if negated then NotTail(p, base + 1, SELF) else [Push(p, 0), Arith(Sub, p, p, LEFT)]), bound)
  {
    OperandFine(o, LEFT, bound);
    if negated {
      NotFine(p, base + 1, bound);
      FineAppend(EmitOperand(o, LEFT), NotTail(p, base + 1, SELF), bound);
    } else {
      SimpleFine(p, 0, 0, bound);
      ArithFine(Sub, p, p, LEFT, bound);
      FineAppend(EmitOperand(o, LEFT), [Push(p, 0), Arith(Sub, p, p, LEFT)], bound);
    }
  }

  lemma StagedFine(l: Operand, r: Operand, bound: nat)
    requires OperandOk(l, MAX_LOCALS) && OperandOk(r, MAX_LOCALS)
    ensures AllFine(EmitOperand(l, LEFT) + EmitOperand(r, RIGHT), bound)
  {
    OperandFine(l, LEFT, bound);
    OperandFine(r, RIGHT, bound);
    FineAppend(EmitOperand(l, LEFT), EmitOperand(r, RIGHT), bound);
  }

  lemma {:induction false} CasesFine(cs: seq<(int, nat)>, start: Labels, bound: nat, blocks: nat)
    requires bound < B.WORD32 && forall i :: 0 <= i < |cs| ==> CaseOk(cs[i], blocks) && start(cs[i].1) < bound
    ensures AllFine(EmitCases(cs, start, SELF), bound)
    decreases |cs|
  {
    if cs != [] {
      assert CaseOk(cs[0], blocks);
      SimpleFine(CASE, 0, cs[0].0, bound);
      SimpleFine(DISCR, CASE, 0, bound);
      JumpFine(start(cs[0].1), bound);
      CasesFine(cs[1..], start, bound, blocks);
    }
  }

  lemma TermFine(t: Term, n: nat, blocks: nat, start: Labels, bound: nat)
    requires TermOk(t, n, blocks) && n <= MAX_LOCALS && bound < B.WORD32 && forall k: nat :: k < blocks ==> start(k) < bound
    ensures AllFine(EmitTerm(t, start, SELF), bound)
  {
    match t
    case Goto(b) => JumpFine(start(b), bound);
    case Switch(d, cs, o) =>
      OperandFine(d, DISCR, bound);
      forall i | 0 <= i < |cs| ensures CaseOk(cs[i], blocks) && start(cs[i].1) < bound {}
      CasesFine(cs, start, bound, blocks);
      JumpFine(start(o), bound);
    case Return =>
  }

  ghost predicate StmtIsFine(b: Block, i: nat, base: nat, bound: nat)
    requires Widened(b) && i < |b.stmts|
  {
    AllFine(StmtCode(b, i, base, SELF), bound)
  }

  lemma StmtIsFineAt(b: Block, i: nat, base: nat, bound: nat)
    requires Widened(b) && i < |b.stmts| && base + StmtsSize(b, |b.stmts|) < bound < B.WORD32
    ensures StmtIsFine(b, i, base, bound)
  {
    StmtsGrow(b, i, |b.stmts|);
    StmtFine(b.stmts[i], StmtAt(b, i, base), bound, StmtCode(b, i, base, SELF));
  }

  lemma JoinStmts(b: Block, n: nat, base: nat, bound: nat)
    requires Widened(b) && 0 < n <= |b.stmts| && AllFine(EmitStmts(b, n - 1, base, SELF), bound)
    requires StmtIsFine(b, n - 1, base, bound)
    ensures AllFine(EmitStmts(b, n, base, SELF), bound)
  {
    StmtsUnfold(b, n, base, SELF);
    FineJoin(EmitStmts(b, n, base, SELF), EmitStmts(b, n - 1, base, SELF), StmtCode(b, n - 1, base, SELF), bound);
  }

  lemma {:induction false} StmtsFine(b: Block, n: nat, base: nat, bound: nat)
    requires Widened(b) && n <= |b.stmts| && forall i: nat :: i < |b.stmts| ==> StmtIsFine(b, i, base, bound)
    ensures AllFine(EmitStmts(b, n, base, SELF), bound)
    decreases n
  {
    if n > 0 {
      StmtsFine(b, n - 1, base, bound);
      assert StmtIsFine(b, n - 1, base, bound);
      JoinStmts(b, n, base, bound);
    }
  }

  lemma {:induction false} PrologueFine(n: nat, bound: nat)
    requires n <= MAX_PARAMS
    ensures AllFine(Prologue(n), bound)
  {
    if n > 0 {
      PrologueFine(n - 1, bound);
      SimpleFine(LocalToReg(n), n, 0, bound);
    }
  }

  ghost predicate BlockIsFine(y: Body, k: nat, bound: nat)
    requires AllWidened(y) && k < |y.blocks|
  {
    AllFine(BlockCode(y, k, SELF), bound)
  }

  lemma JoinBlocks(y: Body, n: nat, bound: nat)
    requires BodyOk(y) && AllWidened(y) && 0 < n <= |y.blocks| && AllFine(EmitBlocks(y, n - 1, SELF), bound)
    requires BlockIsFine(y, n - 1, bound)
    ensures AllFine(EmitBlocks(y, n, SELF), bound)
  {
    BlocksUnfold(y, n);
    FineJoin(EmitBlocks(y, n, SELF), EmitBlocks(y, n - 1, SELF),
             BlockCode(y, n - 1, SELF), bound);
  }

  lemma {:induction false} BlocksFine(y: Body, n: nat, bound: nat)
    requires BodyOk(y) && AllWidened(y) && n <= |y.blocks| && forall k: nat :: k < |y.blocks| ==> BlockIsFine(y, k, bound)
    ensures AllFine(EmitBlocks(y, n, SELF), bound)
    decreases n
  {
    if n == 0 {
      PrologueFine(y.params, bound);
    } else {
      BlocksFine(y, n - 1, bound);
      assert BlockIsFine(y, n - 1, bound);
      JoinBlocks(y, n, bound);
    }
  }

  lemma BlocksUnfold(y: Body, n: nat)
    requires BodyOk(y) && AllWidened(y) && 0 < n <= |y.blocks|
    ensures EmitBlocks(y, n, SELF) ==
            EmitBlocks(y, n - 1, SELF) + BlockCode(y, n - 1, SELF)
  {
  }

  lemma BlockFine(y: Body, k: nat, bound: nat)
    requires BodyOk(y) && AllWidened(y) && k < |y.blocks| && bound == BlockStart(y, |y.blocks|) < B.WORD32
    ensures BlockIsFine(y, k, bound)
  {
    var b, at := y.blocks[k], BlockStart(y, k);
    assert BlockOk(b, y.locals, |y.blocks|);
    forall j: nat | j < |y.blocks| ensures Starts(y)(j) < bound { StartsInside(y, j, |y.blocks|); }
    StartsInside(y, k, |y.blocks|);
    forall i: nat | i < |b.stmts| ensures StmtIsFine(b, i, at, bound) { StmtIsFineAt(b, i, at, bound); }
    StmtsFine(b, |b.stmts|, at, bound);
    TermFine(b.term, y.locals, |y.blocks|, Starts(y), bound);
    FineAppend(EmitStmts(b, |b.stmts|, at, SELF), EmitTerm(b.term, Starts(y), SELF), bound);
  }

  lemma {:induction false} AtLeastIndex(prog: seq<Instr>, n: nat)
    requires n <= |prog|
    ensures B.Offset(prog, n) >= n
  {
    if n > 0 { AtLeastIndex(prog, n - 1); }
  }

  lemma BodyFine(y: Body)
    requires BodyOk(y) && |EmitBody(y, SELF)| < B.WORD32
    ensures AllFine(EmitBody(y, SELF), |EmitBody(y, SELF)|)
  {
    BodyWidened(y);
    var bound := |EmitBody(y, SELF)|;
    forall k: nat | k < |y.blocks| ensures BlockIsFine(y, k, bound) { BlockFine(y, k, bound); }
    BlocksFine(y, |y.blocks|, bound);
  }

  /** A body whose code fits 32-bit addresses always links: every operand is encodable and every
      label names an instruction. */
  lemma BodyLinks(y: Body)
    requires BodyOk(y)
    requires var prog := EmitBody(y, SELF); B.Offset(prog, |prog|) < B.WORD32
    ensures A.Linkable(EmitBody(y, SELF))
  {
    AtLeastIndex(EmitBody(y, SELF), |EmitBody(y, SELF)|);
    BodyFine(y);
  }

  /** The bytes of a linked program decode to its instructions and to nothing else. */
  ghost predicate Decodes(prog: seq<Instr>) {
    && B.ProgramOk(A.Linked(prog))
    && B.Chained(B.Encode(A.Linked(prog), |prog|), B.WithOffsets(A.Linked(prog), |prog|), |B.Encode(A.Linked(prog), |prog|)|)
  }

  lemma BytesDecode(prog: seq<Instr>)
    requires A.Linkable(prog)
    ensures Decodes(prog)
  {
    A.LinkOk(prog);
    B.ProgramRoundTrip(A.Linked(prog));
  }

  /** The bytes of a compiled body, decoded and run from their start, do what the body does: after
      any number of its steps, the same locals, the same return value, or the same trap. */
  lemma BytesSimulate(y: Body, s: IntMachine, n: nat, alu: Alu) returns (t: IntMachine)
    requires BodyOk(y) && |s.regs| == B.REGS && s.pc == 0
    requires var prog := EmitBody(y, SELF); B.Offset(prog, |prog|) < B.WORD32
    ensures Decodes(EmitBody(y, SELF))
    ensures StateOk(y, MirState(0, 0, Entry(y, s)))
    ensures Reaches(Loaded(EmitBody(y, SELF), alu), s, t)
    ensures Matches(y, Loaded(EmitBody(y, SELF), alu), MirRun(y, MirState(0, 0, Entry(y, s)), n, alu), t)
  {
    BodyLinks(y);
    BytesDecode(EmitBody(y, SELF));
    var v := Loaded(EmitBody(y, SELF), alu);
    LoadedCompiled(y, alu);
    var a := Enters(y, v, s);
    t := RunSimulates(y, v, MirState(0, 0, Entry(y, s)), a, n);
    ReachesTrans(v, s, a, t);
  }
}
