/** The emitted code does what the body says, step for step. */
module MirSim {
  import opened Mir
  import B = Bytecode

  // ---- layout ---------------------------------------------------------------------------------

  function OperandSize(o: Operand, reg: nat): nat
    requires o.Local? ==> o.l < MAX_LOCALS
  {
    if o.Local? && LocalToReg(o.l) == reg then 0 else 1
  }

  function TailSize(c: CmpOp): nat {
    match c case Eq => 3 case Ne => 3 case Lt => 3 case Le => 4 case Gt => 5 case Ge => 4
  }

  function StmtSize(s: Stmt): nat
    requires StmtOk(s, MAX_LOCALS)
  {
    if s.Marker? then 1
    else
      match s.rv
      case Use(o) => OperandSize(o, LocalToReg(s.place))
      case Binary(_, _, _) => 3
      case Compare(c, _, _) => 3 + TailSize(c)
      case Negate(_) => 3
      case Not(_) => 7
  }

  lemma StmtSizeIs(s: Stmt, base: nat, addr: Labels)
    requires StmtOk(s, MAX_LOCALS)
    ensures |EmitStmt(s, base, addr)| == StmtSize(s)
  {
  }

  lemma {:induction false} CasesSize(cs: seq<(int, nat)>, start: Labels, addr: Labels)
    ensures |EmitCases(cs, start, addr)| == 3 * |cs|
    decreases |cs|
  {
    if cs != [] { CasesSize(cs[1..], start, addr); }
  }

  function TermSize(t: Term): nat
    requires t.Switch? ==> OperandOk(t.discr, MAX_LOCALS)
  {
    if t.Switch? then 2 + 3 * |t.cases| else 1
  }

  lemma TermSizeIs(t: Term, start: Labels, addr: Labels)
    requires t.Switch? ==> OperandOk(t.discr, MAX_LOCALS)
    ensures |EmitTerm(t, start, addr)| == TermSize(t)
  {
    if t.Switch? { CasesSize(t.cases, start, addr); }
  }

  predicate Widened(b: Block) {
    (forall i :: 0 <= i < |b.stmts| ==> StmtOk(b.stmts[i], MAX_LOCALS)) && (b.term.Switch? ==> OperandOk(b.term.discr, MAX_LOCALS))
  }

  lemma BlockWidened(b: Block, n: nat, blocks: nat)
    requires BlockOk(b, n, blocks) && n <= MAX_LOCALS
    ensures Widened(b)
  {
    forall i | 0 <= i < |b.stmts| ensures StmtOk(b.stmts[i], MAX_LOCALS) { assert StmtOk(b.stmts[i], n); }
  }

  function StmtsSize(b: Block, n: nat): nat
    requires Widened(b) && n <= |b.stmts|
    decreases n, b
  {
    if n == 0 then 0 else StmtsSize(b, n - 1) + StmtSize(b.stmts[n - 1])
  }

  /** Where statement `i` of a block that starts at `base` begins. */
  function StmtAt(b: Block, i: nat, base: nat): nat
    requires Widened(b) && i <= |b.stmts|
  {
    base + StmtsSize(b, i)
  }

  function BlockSize(b: Block): nat
    requires Widened(b)
  {
    StmtsSize(b, |b.stmts|) + TermSize(b.term)
  }

  predicate AllWidened(y: Body) { forall k :: 0 <= k < |y.blocks| ==> Widened(y.blocks[k]) }

  lemma BodyWidened(y: Body)
    requires BodyOk(y)
    ensures AllWidened(y)
  {
    forall k | 0 <= k < |y.blocks| ensures Widened(y.blocks[k]) { BlockWidened(y.blocks[k], y.locals, |y.blocks|); }
  }

  /** The index of the first instruction of block `k`; the parameter moves come first. */
  function BlockStart(y: Body, k: nat): nat
    requires AllWidened(y) && k <= |y.blocks|
    decreases k, y
  {
    if k == 0 then y.params else BlockStart(y, k - 1) + BlockSize(y.blocks[k - 1])
  }

  function Starts(y: Body): Labels
    requires AllWidened(y)
  {
    (k: nat) => if k <= |y.blocks| then BlockStart(y, k) else 0
  }

  // ---- the code of a body ---------------------------------------------------------------------

  function EmitStmts(b: Block, n: nat, base: nat, addr: Labels): (c: seq<Instr>)
    requires Widened(b) && n <= |b.stmts|
    ensures |c| == StmtsSize(b, n)
    decreases n, b
  {
    if n == 0 then []
    else
      StmtSizeIs(b.stmts[n - 1], StmtAt(b, n - 1, base), addr);
      EmitStmts(b, n - 1, base, addr) + EmitStmt(b.stmts[n - 1], StmtAt(b, n - 1, base), addr)
  }

  function EmitBlock(b: Block, base: nat, start: Labels, addr: Labels): (c: seq<Instr>)
    requires Widened(b)
    ensures |c| == BlockSize(b)
  {
    TermSizeIs(b.term, start, addr);
    EmitStmts(b, |b.stmts|, base, addr) + EmitTerm(b.term, start, addr)
  }

  /** Incoming arguments move to the registers of the parameters. */
  function Prologue(n: nat): (c: seq<Instr>)
    requires n < MAX_LOCALS
    ensures |c| == n
  {
    if n == 0 then [] else Prologue(n - 1) + [Move(LocalToReg(n), n)]
  }

  function EmitBlocks(y: Body, n: nat, addr: Labels): (c: seq<Instr>)
    requires BodyOk(y) && AllWidened(y) && n <= |y.blocks|
    ensures |c| == BlockStart(y, n)
    decreases n, y
  {
    if n == 0 then Prologue(y.params)
    else
      assert BlockStart(y, n) == BlockStart(y, n - 1) + BlockSize(y.blocks[n - 1]);
      EmitBlocks(y, n - 1, addr) + BlockCode(y, n - 1, addr)
  }

  /** The code of block `k` where it stands. */
  function BlockCode(y: Body, k: nat, addr: Labels): (c: seq<Instr>)
    requires AllWidened(y) && k < |y.blocks|
    ensures |c| == BlockSize(y.blocks[k])
  {
    EmitBlock(y.blocks[k], BlockStart(y, k), Starts(y), addr)
  }

  function EmitBody(y: Body, addr: Labels): (c: seq<Instr>)
    requires BodyOk(y)
  {
    BodyWidened(y);
    EmitBlocks(y, |y.blocks|, addr)
  }

  /** `c` stands in `code` at `at`. */
  ghost predicate Stands(code: seq<Instr>, at: nat, c: seq<Instr>) {
    at + |c| <= |code| && code[at..at + |c|] == c
  }

  lemma StandsAt(code: seq<Instr>, at: nat, c: seq<Instr>, k: nat)
    requires Stands(code, at, c) && k < |c|
    ensures at + k < |code| && code[at + k] == c[k]
  {
    assert code[at..at + |c|][k] == c[k];
  }

  lemma StandsSplit(code: seq<Instr>, at: nat, a: seq<Instr>, b: seq<Instr>)
    requires Stands(code, at, a + b)
    ensures Stands(code, at, a) && Stands(code, at + |a|, b)
  {
    var c := code[at..at + |a + b|];
    assert code[at..at + |a|] == c[..|a|];
    assert code[at + |a|..at + |a| + |b|] == c[|a|..];
  }

  lemma StandsInside(a: seq<Instr>, b: seq<Instr>, at: nat, c: seq<Instr>)
    ensures Stands(a, at, c) ==> Stands(a + b, at, c)
    ensures Stands(a + b, |a|, b)
  {
    if Stands(a, at, c) { assert (a + b)[at..at + |c|] == a[at..at + |c|]; }
    assert (a + b)[|a|..|a| + |b|] == b;
  }

  lemma LastBlockStands(y: Body, n: nat, addr: Labels, k: nat)
    requires BodyOk(y) && AllWidened(y) && k < n <= |y.blocks|
    requires k < n - 1 ==> Stands(EmitBlocks(y, n - 1, addr), BlockStart(y, k), BlockCode(y, k, addr))
    ensures Stands(EmitBlocks(y, n, addr), BlockStart(y, k), BlockCode(y, k, addr))
  {
    StandsInside(EmitBlocks(y, n - 1, addr), BlockCode(y, n - 1, addr), BlockStart(y, k), BlockCode(y, k, addr));
  }

  lemma {:induction false} BlockStands(y: Body, n: nat, addr: Labels, k: nat)
    requires BodyOk(y) && AllWidened(y) && k < n <= |y.blocks|
    ensures Stands(EmitBlocks(y, n, addr), BlockStart(y, k), BlockCode(y, k, addr))
    decreases n
  {
    if k < n - 1 { BlockStands(y, n - 1, addr, k); }
    LastBlockStands(y, n, addr, k);
  }

  /** The code of statement `i` where it stands. */
  function StmtCode(b: Block, i: nat, base: nat, addr: Labels): seq<Instr>
    requires Widened(b) && i < |b.stmts|
  {
    EmitStmt(b.stmts[i], StmtAt(b, i, base), addr)
  }

  lemma StmtsStand(code: seq<Instr>, b: Block, n: nat, base: nat, addr: Labels)
    requires Widened(b) && 0 < n <= |b.stmts| && Stands(code, base, EmitStmts(b, n, base, addr))
    ensures Stands(code, base, EmitStmts(b, n - 1, base, addr))
    ensures Stands(code, StmtAt(b, n - 1, base), StmtCode(b, n - 1, base, addr))
  {
    StandsSplit(code, base, EmitStmts(b, n - 1, base, addr), StmtCode(b, n - 1, base, addr));
  }

  lemma {:induction false} StmtStands(code: seq<Instr>, b: Block, n: nat, base: nat, addr: Labels, i: nat)
    requires Widened(b) && i < n <= |b.stmts| && Stands(code, base, EmitStmts(b, n, base, addr))
    ensures Stands(code, StmtAt(b, i, base), StmtCode(b, i, base, addr))
    decreases n
  {
    StmtsStand(code, b, n, base, addr);
    if i < n - 1 { StmtStands(code, b, n - 1, base, addr, i); }
  }

  // ---- runs -----------------------------------------------------------------------------------

  datatype Env = Env(code: seq<Instr>, addr: Labels, at: Resolver, alu: Alu)

  /** Addresses resolve back to the instructions they belong to. */
  ghost predicate EnvOk(v: Env) {
    forall k: nat :: k < |v.code| ==> Resolves(v, k)
  }

  ghost predicate Resolves(v: Env, k: nat) { v.at(v.addr(k)) == k }

  function Runs(v: Env, s: IntMachine, n: nat): VmStep
    decreases n, s
  {
    if n == 0 then Go(s)
    else
      var r := Runs(v, s, n - 1);
      if r.Go? then VmNext(r.s, v.code, v.at, v.alu) else r
  }

  ghost predicate Reaches(v: Env, s: IntMachine, s': IntMachine) {
    exists n: nat :: Runs(v, s, n) == Go(s')
  }

  lemma {:induction false} RunsOn(v: Env, s: IntMachine, m: nat, t: IntMachine, n: nat)
    requires Runs(v, s, m) == Go(t)
    ensures Runs(v, s, m + n) == Runs(v, t, n)
  {
    if n > 0 { RunsOn(v, s, m, t, n - 1); }
  }

  lemma ReachesSelf(v: Env, s: IntMachine)
    ensures Reaches(v, s, s)
  {
    assert Runs(v, s, 0) == Go(s);
  }

  lemma ReachesStep(v: Env, s: IntMachine, t: IntMachine, u: IntMachine)
    requires Reaches(v, s, t) && VmNext(t, v.code, v.at, v.alu) == Go(u)
    ensures Reaches(v, s, u)
  {
    var n: nat :| Runs(v, s, n) == Go(t);
    assert Runs(v, s, n + 1) == Go(u);
  }

  lemma ReachesTrans(v: Env, s: IntMachine, t: IntMachine, u: IntMachine)
    requires Reaches(v, s, t) && Reaches(v, t, u)
    ensures Reaches(v, s, u)
  {
    var m: nat :| Runs(v, s, m) == Go(t);
    var n: nat :| Runs(v, t, n) == Go(u);
    RunsOn(v, s, m, t, n);
  }

  // ---- single instructions --------------------------------------------------------------------

  lemma DoPush(v: Env, s: IntMachine, t: IntMachine, r: nat, x: int)
    requires Reaches(v, s, t) && t.pc < |v.code| && v.code[t.pc] == Push(r, x) && r < |t.regs|
    ensures Reaches(v, s, t.(regs := t.regs[r := x], pc := t.pc + 1))
  {
    ReachesStep(v, s, t, t.(regs := t.regs[r := x], pc := t.pc + 1));
  }

  lemma DoMove(v: Env, s: IntMachine, t: IntMachine, r: nat, q: nat)
    requires Reaches(v, s, t) && t.pc < |v.code| && v.code[t.pc] == Move(r, q) && r < |t.regs| && q < |t.regs|
    ensures Reaches(v, s, t.(regs := t.regs[r := t.regs[q]], pc := t.pc + 1))
  {
    ReachesStep(v, s, t, t.(regs := t.regs[r := t.regs[q]], pc := t.pc + 1));
  }

  lemma DoCmp(v: Env, s: IntMachine, t: IntMachine, a: nat, b: nat)
    requires Reaches(v, s, t) && t.pc < |v.code| && v.code[t.pc] == Cmp(a, b) && a < |t.regs| && b < |t.regs|
    ensures Reaches(v, s, t.(zero := t.regs[a] == t.regs[b], neg := t.regs[a] < t.regs[b], pc := t.pc + 1))
  {
    ReachesStep(v, s, t, t.(zero := t.regs[a] == t.regs[b], neg := t.regs[a] < t.regs[b], pc := t.pc + 1));
  }

  lemma DoJmp(v: Env, s: IntMachine, t: IntMachine, k: nat)
    requires Reaches(v, s, t) && t.pc < |v.code| && v.code[t.pc] == Jmp(v.addr(k)) && Resolves(v, k)
    ensures Reaches(v, s, t.(pc := k))
  {
    ReachesStep(v, s, t, t.(pc := k));
  }

  function Taken(op: B.Byte, t: IntMachine): bool {
    if op == B.JZ then t.zero else if op == B.JNZ then !t.zero else t.neg
  }

  lemma DoBranch(v: Env, s: IntMachine, t: IntMachine, op: B.Byte, k: nat)
    requires op == B.JZ || op == B.JNZ || op == B.JN
    requires Reaches(v, s, t) && t.pc < |v.code| && v.code[t.pc] == Branch(op, v.addr(k)) && Resolves(v, k)
    ensures Reaches(v, s, t.(pc := if Taken(op, t) then k else t.pc + 1))
  {
    ReachesStep(v, s, t, t.(pc := if Taken(op, t) then k else t.pc + 1));
  }

  // ---- locals and registers -------------------------------------------------------------------

  ghost predicate Agree(locals: seq<int>, s: IntMachine) {
    && |s.regs| == B.REGS && |locals| <= MAX_LOCALS
    && forall l: nat :: l < |locals| ==> AgreeAt(locals, s, l)
  }

  ghost predicate AgreeAt(locals: seq<int>, s: IntMachine, l: nat)
    requires l < |locals| && l < MAX_LOCALS && |s.regs| == B.REGS
  {
    s.regs[LocalToReg(l)] == locals[l]
  }

  /** Staging registers hold no local. */
  lemma AgreeStaged(locals: seq<int>, s: IntMachine, t: IntMachine)
    requires Agree(locals, s) && |t.regs| == B.REGS
    requires forall r :: 0 <= r < B.REGS && !(240 <= r <= 255) ==> t.regs[r] == s.regs[r]
    ensures Agree(locals, t)
  {
    forall l: nat | l < |locals| ensures AgreeAt(locals, t, l) { assert AgreeAt(locals, s, l); }
  }

  /** Writing the register of one local changes that local only. */
  lemma AgreeWritten(locals: seq<int>, s: IntMachine, t: IntMachine, place: nat, x: int)
    requires Agree(locals, s) && place < |locals| && |t.regs| == B.REGS
    requires t.regs[LocalToReg(place)] == x
    requires forall r :: 0 <= r < B.REGS && !(240 <= r <= 255) && r != LocalToReg(place) ==> t.regs[r] == s.regs[r]
    ensures Agree(locals[place := x], t)
  {
    var after := locals[place := x];
    forall l: nat | l < |locals| ensures AgreeAt(after, t, l) {
      assert AgreeAt(locals, s, l);
      if l != place && LocalToReg(l) == LocalToReg(place) { LocalToRegInjective(l, place); }
    }
  }

  // ---- pieces of a statement ------------------------------------------------------------------

  function Write(t: IntMachine, r: nat, x: int, n: nat): IntMachine
    requires r < |t.regs|
  {
    t.(regs := t.regs[r := x], pc := t.pc + n)
  }

  lemma RunOperand(v: Env, s: IntMachine, t: IntMachine, o: Operand, reg: nat, locals: seq<int>)
    requires Reaches(v, s, t) && Agree(locals, t) && OperandOk(o, |locals|) && reg < B.REGS
    requires Stands(v.code, t.pc, EmitOperand(o, reg))
    ensures Reaches(v, s, Write(t, reg, Value(o, locals), OperandSize(o, reg)))
  {
    var c := EmitOperand(o, reg);
    match o
    case Const(x) =>
      StandsAt(v.code, t.pc, c, 0);
      DoPush(v, s, t, reg, x);
    case Local(l) =>
      assert AgreeAt(locals, t, l);
      if LocalToReg(l) != reg {
        StandsAt(v.code, t.pc, c, 0);
        DoMove(v, s, t, reg, LocalToReg(l));
      } else {
        assert t.regs[reg := locals[l]] == t.regs;
      }
  }

  /** Both operands staged. */
  lemma RunOperands(v: Env, s: IntMachine, l: Operand, r: Operand, locals: seq<int>) returns (t: IntMachine)
    requires Agree(locals, s) && OperandOk(l, |locals|) && OperandOk(r, |locals|)
    requires Stands(v.code, s.pc, EmitOperand(l, LEFT) + EmitOperand(r, RIGHT))
    ensures Reaches(v, s, t) && Agree(locals, t) && t.pc == s.pc + 2
    ensures t.regs[LEFT] == Value(l, locals) && t.regs[RIGHT] == Value(r, locals)
    ensures forall q :: 0 <= q < B.REGS && !(240 <= q <= 255) ==> t.regs[q] == s.regs[q]
  {
    StandsSplit(v.code, s.pc, EmitOperand(l, LEFT), EmitOperand(r, RIGHT));
    ReachesSelf(v, s);
    RunOperand(v, s, s, l, LEFT, locals);
    var a := Write(s, LEFT, Value(l, locals), 1);
    AgreeStaged(locals, s, a);
    RunOperand(v, s, a, r, RIGHT, locals);
    t := Write(a, RIGHT, Value(r, locals), 1);
    AgreeStaged(locals, a, t);
  }

  /** The branches after a comparison leave 1 or 0 and meet behind the last of them. */
  lemma RunTail(v: Env, s: IntMachine, t: IntMachine, c: CmpOp, p: nat, x: int, y: int)
    requires Reaches(v, s, t) && p < |t.regs| && t.zero == (x == y) && t.neg == (x < y)
    requires Stands(v.code, t.pc, CompareTail(c, p, t.pc, v.addr)) && EnvOk(v) && t.pc + TailSize(c) < |v.code|
    ensures Reaches(v, s, Write(t, p, Flag(Compared(c, x, y)), TailSize(c)))
  {
    var k := CompareTail(c, p, t.pc, v.addr);
    StandsAt(v.code, t.pc, k, 0);
    DoPush(v, s, t, p, 1);
    var a := Write(t, p, 1, 1);
    assert a.regs[p := 0] == t.regs[p := 0] && a.regs[p := 1] == t.regs[p := 1];
    StandsAt(v.code, t.pc, k, 1);
    StandsAt(v.code, t.pc, k, 2);
    if c.Eq? || c.Ne? || c.Lt? {
      RunShort(v, s, a, if c.Eq? then B.JZ else if c.Ne? then B.JNZ else B.JN, p);
    } else {
      StandsAt(v.code, t.pc, k, 3);
      RunLong(v, s, t, c, p, x, y, a);
    }
  }

  lemma RunLong(v: Env, s: IntMachine, t: IntMachine, c: CmpOp, p: nat, x: int, y: int, a: IntMachine)
    requires Reaches(v, s, a) && p < |t.regs| && t.zero == (x == y) && t.neg == (x < y) && a == Write(t, p, 1, 1)
    requires Stands(v.code, t.pc, CompareTail(c, p, t.pc, v.addr)) && EnvOk(v) && t.pc + TailSize(c) < |v.code|
    requires c.Le? || c.Gt? || c.Ge?
    ensures Reaches(v, s, Write(t, p, Flag(Compared(c, x, y)), TailSize(c)))
  {
    var k := CompareTail(c, p, t.pc, v.addr);
    assert a.regs[p := 0] == t.regs[p := 0] && a.regs[p := 1] == t.regs[p := 1];
    StandsAt(v.code, t.pc, k, 1);
    StandsAt(v.code, t.pc, k, 2);
    StandsAt(v.code, t.pc, k, 3);
    match c
    case Le => RunLe(v, s, a, p);
    case Gt =>
      StandsAt(v.code, t.pc, k, 4);
      RunGt(v, s, a, p);
    case Ge => RunGe(v, s, a, p);
  }

  lemma RunShort(v: Env, s: IntMachine, a: IntMachine, op: B.Byte, p: nat)
    requires Reaches(v, s, a) && p < |a.regs| && a.regs[p] == 1 && EnvOk(v) && a.pc + 2 < |v.code|
    requires op == B.JZ || op == B.JNZ || op == B.JN
    requires v.code[a.pc] == Branch(op, v.addr(a.pc + 2)) && v.code[a.pc + 1] == Push(p, 0)
    ensures Reaches(v, s, Write(a, p, Flag(Taken(op, a)), 2))
  {
    assert Resolves(v, a.pc + 2);
    DoBranch(v, s, a, op, a.pc + 2);
    if Taken(op, a) {
      assert a.regs[p := 1] == a.regs;
    } else {
      DoPush(v, s, a.(pc := a.pc + 1), p, 0);
    }
  }

  lemma RunLe(v: Env, s: IntMachine, a: IntMachine, p: nat)
    requires Reaches(v, s, a) && p < |a.regs| && a.regs[p] == 1 && EnvOk(v) && a.pc + 3 < |v.code|
    requires v.code[a.pc] == Branch(B.JZ, v.addr(a.pc + 3)) && v.code[a.pc + 1] == Branch(B.JN, v.addr(a.pc + 3))
    requires v.code[a.pc + 2] == Push(p, 0)
    ensures Reaches(v, s, Write(a, p, Flag(a.zero || a.neg), 3))
  {
    assert Resolves(v, a.pc + 3);
    DoBranch(v, s, a, B.JZ, a.pc + 3);
    if a.zero {
      assert a.regs[p := 1] == a.regs;
    } else {
      var b := a.(pc := a.pc + 1);
      DoBranch(v, s, b, B.JN, a.pc + 3);
      if a.neg {
        assert a.regs[p := 1] == a.regs;
      } else {
        DoPush(v, s, b.(pc := a.pc + 2), p, 0);
      }
    }
  }

  lemma RunGt(v: Env, s: IntMachine, a: IntMachine, p: nat)
    requires Reaches(v, s, a) && p < |a.regs| && a.regs[p] == 1 && EnvOk(v) && a.pc + 4 < |v.code|
    requires v.code[a.pc] == Branch(B.JZ, v.addr(a.pc + 3)) && v.code[a.pc + 1] == Branch(B.JN, v.addr(a.pc + 3))
    requires v.code[a.pc + 2] == Jmp(v.addr(a.pc + 4)) && v.code[a.pc + 3] == Push(p, 0)
    ensures Reaches(v, s, Write(a, p, Flag(!(a.zero || a.neg)), 4))
  {
    assert Resolves(v, a.pc + 3) && Resolves(v, a.pc + 4);
    DoBranch(v, s, a, B.JZ, a.pc + 3);
    if a.zero {
      DoPush(v, s, a.(pc := a.pc + 3), p, 0);
    } else {
      var b := a.(pc := a.pc + 1);
      DoBranch(v, s, b, B.JN, a.pc + 3);
      if a.neg {
        DoPush(v, s, a.(pc := a.pc + 3), p, 0);
      } else {
        DoJmp(v, s, a.(pc := a.pc + 2), a.pc + 4);
        assert a.regs[p := 1] == a.regs;
      }
    }
  }

  lemma RunGe(v: Env, s: IntMachine, a: IntMachine, p: nat)
    requires Reaches(v, s, a) && p < |a.regs| && a.regs[p] == 1 && EnvOk(v) && a.pc + 3 < |v.code|
    requires v.code[a.pc] == Branch(B.JN, v.addr(a.pc + 2)) && v.code[a.pc + 1] == Jmp(v.addr(a.pc + 3))
    requires v.code[a.pc + 2] == Push(p, 0)
    ensures Reaches(v, s, Write(a, p, Flag(!a.neg), 3))
  {
    assert Resolves(v, a.pc + 2) && Resolves(v, a.pc + 3);
    DoBranch(v, s, a, B.JN, a.pc + 2);
    if a.neg {
      DoPush(v, s, a.(pc := a.pc + 2), p, 0);
    } else {
      DoJmp(v, s, a.(pc := a.pc + 1), a.pc + 3);
      assert a.regs[p := 1] == a.regs;
    }
  }

  // ---- statements -----------------------------------------------------------------------------

  lemma OpOfByte(b: BinOp)
    ensures ByteOf(b) in {B.ADD, B.SUB, B.MUL, B.DIV, B.REM, B.SHL, B.SHR, B.BITAND, B.BITOR, B.BITXOR}
    ensures OpOf(ByteOf(b)) == b && (ByteOf(b) == B.ADD <==> b == Add)
  {
  }

  lemma DoArith(v: Env, s: IntMachine, t: IntMachine, b: BinOp, d: nat, l: nat, r: nat)
    requires Reaches(v, s, t) && t.pc < |v.code| && v.code[t.pc] == Arith(b, d, l, r)
    requires d < |t.regs| && l < |t.regs| && r < |t.regs|
    ensures Traps(b, t.regs[r]) ==> VmNext(t, v.code, v.at, v.alu) == Trapped
    ensures !Traps(b, t.regs[r]) ==> Reaches(v, s, Write(t, d, v.alu(b, t.regs[l], t.regs[r]), 1))
  {
    OpOfByte(b);
    if !Traps(b, t.regs[r]) {
      ReachesStep(v, s, t, Write(t, d, v.alu(b, t.regs[l], t.regs[r]), 1));
    }
  }

  lemma RunBinary(v: Env, s: IntMachine, place: nat, b: BinOp, l: Operand, r: Operand, locals: seq<int>) returns (t: IntMachine)
    requires Agree(locals, s) && place < |locals| && OperandOk(l, |locals|) && OperandOk(r, |locals|)
    requires Stands(v.code, s.pc, EmitOperand(l, LEFT) + EmitOperand(r, RIGHT) + [Arith(b, LocalToReg(place), LEFT, RIGHT)])
    ensures Reaches(v, s, t)
    ensures if Traps(b, Value(r, locals)) then VmNext(t, v.code, v.at, v.alu) == Trapped
            else t.pc == s.pc + 3 && Agree(locals[place := v.alu(b, Value(l, locals), Value(r, locals))], t)
  {
    var ops := EmitOperand(l, LEFT) + EmitOperand(r, RIGHT);
    var p := LocalToReg(place);
    StandsSplit(v.code, s.pc, ops, [Arith(b, p, LEFT, RIGHT)]);
    var a := RunOperands(v, s, l, r, locals);
    StandsAt(v.code, s.pc + 2, [Arith(b, p, LEFT, RIGHT)], 0);
    DoArith(v, s, a, b, p, LEFT, RIGHT);
    t := a;
    if !Traps(b, Value(r, locals)) {
      t := WriteLocal(locals, a, place, v.alu(b, Value(l, locals), Value(r, locals)));
    }
  }

  lemma WriteLocal(locals: seq<int>, a: IntMachine, place: nat, x: int) returns (t: IntMachine)
    requires Agree(locals, a) && place < |locals|
    ensures t == Write(a, LocalToReg(place), x, 1) && Agree(locals[place := x], t)
  {
    t := Write(a, LocalToReg(place), x, 1);
    AgreeWritten(locals, a, t, place, x);
  }

  lemma RunCompare(v: Env, s: IntMachine, place: nat, c: CmpOp, l: Operand, r: Operand, locals: seq<int>) returns (t: IntMachine)
    requires Agree(locals, s) && place < |locals| && OperandOk(l, |locals|) && OperandOk(r, |locals|) && EnvOk(v)
    requires Stands(v.code, s.pc, EmitRvalue(place, Compare(c, l, r), s.pc, v.addr)) && s.pc + 3 + TailSize(c) < |v.code|
    ensures Reaches(v, s, t) && t.pc == s.pc + 3 + TailSize(c)
    ensures Agree(locals[place := Flag(Compared(c, Value(l, locals), Value(r, locals)))], t)
  {
    var p, x, y := LocalToReg(place), Value(l, locals), Value(r, locals);
    var head, tail := EmitOperand(l, LEFT) + EmitOperand(r, RIGHT) + [Cmp(LEFT, RIGHT)], CompareTail(c, p, s.pc + 3, v.addr);
    StandsSplit(v.code, s.pc, head, tail);
    var b := RunTest(v, s, l, r, locals);
    RunTail(v, s, b, c, p, x, y);
    t := Write(b, p, Flag(Compared(c, x, y)), TailSize(c));
    AgreeWritten(locals, b, t, place, Flag(Compared(c, x, y)));
  }

  lemma RunTest(v: Env, s: IntMachine, l: Operand, r: Operand, locals: seq<int>) returns (b: IntMachine)
    requires Agree(locals, s) && OperandOk(l, |locals|) && OperandOk(r, |locals|)
    requires Stands(v.code, s.pc, EmitOperand(l, LEFT) + EmitOperand(r, RIGHT) + [Cmp(LEFT, RIGHT)])
    ensures Reaches(v, s, b) && b.pc == s.pc + 3 && Agree(locals, b)
    ensures b.zero == (Value(l, locals) == Value(r, locals)) && b.neg == (Value(l, locals) < Value(r, locals))
  {
    StandsSplit(v.code, s.pc, EmitOperand(l, LEFT) + EmitOperand(r, RIGHT), [Cmp(LEFT, RIGHT)]);
    var a := RunOperands(v, s, l, r, locals);
    StandsAt(v.code, s.pc + 2, [Cmp(LEFT, RIGHT)], 0);
    DoCmp(v, s, a, LEFT, RIGHT);
    b := a.(zero := a.regs[LEFT] == a.regs[RIGHT], neg := a.regs[LEFT] < a.regs[RIGHT], pc := a.pc + 1);
    AgreeStaged(locals, a, b);
  }

  lemma RunNegate(v: Env, s: IntMachine, place: nat, o: Operand, locals: seq<int>) returns (t: IntMachine)
    requires Agree(locals, s) && place < |locals| && OperandOk(o, |locals|)
    requires Stands(v.code, s.pc, EmitRvalue(place, Negate(o), s.pc, v.addr))
    ensures Reaches(v, s, t) && t.pc == s.pc + 3 && Agree(locals[place := v.alu(Sub, 0, Value(o, locals))], t)
  {
    var p, x := LocalToReg(place), Value(o, locals);
    var rest := [Push(p, 0), Arith(Sub, p, p, LEFT)];
    StandsSplit(v.code, s.pc, EmitOperand(o, LEFT), rest);
    ReachesSelf(v, s);
    RunOperand(v, s, s, o, LEFT, locals);
    t := RunNegateTail(v, s, Write(s, LEFT, x, 1), p, x);
    AgreeWritten(locals, s, t, place, v.alu(Sub, 0, x));
  }

  lemma RunNegateTail(v: Env, s: IntMachine, a: IntMachine, p: nat, x: int) returns (t: IntMachine)
    requires Reaches(v, s, a) && |a.regs| == B.REGS && p < B.REGS && p != LEFT && a.regs[LEFT] == x
    requires Stands(v.code, a.pc, [Push(p, 0), Arith(Sub, p, p, LEFT)])
    ensures Reaches(v, s, t) && t.pc == a.pc + 2 && |t.regs| == B.REGS && t.regs[p] == v.alu(Sub, 0, x)
    ensures forall q :: 0 <= q < B.REGS && q != p ==> t.regs[q] == a.regs[q]
  {
    var rest := [Push(p, 0), Arith(Sub, p, p, LEFT)];
    StandsAt(v.code, a.pc, rest, 0);
    StandsAt(v.code, a.pc, rest, 1);
    DoPush(v, s, a, p, 0);
    var b := Write(a, p, 0, 1);
    DoArith(v, s, b, Sub, p, p, LEFT);
    t := Write(b, p, v.alu(Sub, 0, x), 1);
  }

  lemma RunNot(v: Env, s: IntMachine, place: nat, o: Operand, locals: seq<int>) returns (t: IntMachine)
    requires Agree(locals, s) && place < |locals| && OperandOk(o, |locals|) && EnvOk(v)
    requires Stands(v.code, s.pc, EmitRvalue(place, Not(o), s.pc, v.addr)) && s.pc + 7 < |v.code|
    ensures Reaches(v, s, t) && t.pc == s.pc + 7 && Agree(locals[place := Flag(Value(o, locals) == 0)], t)
  {
    var p, x := LocalToReg(place), Value(o, locals);
    var k := NotTail(p, s.pc + 1, v.addr);
    StandsSplit(v.code, s.pc, EmitOperand(o, LEFT), k);
    ReachesSelf(v, s);
    RunOperand(v, s, s, o, LEFT, locals);
    var a := Write(s, LEFT, x, 1);
    t := RunNotTail(v, s, a, p, x);
    AgreeWritten(locals, s, t, place, Flag(x == 0));
  }

  lemma RunNotTail(v: Env, s: IntMachine, a: IntMachine, p: nat, x: int) returns (t: IntMachine)
    requires p < 240 || 255 < p
    requires Reaches(v, s, a) && |a.regs| == B.REGS && p < B.REGS && a.regs[LEFT] == x && EnvOk(v)
    requires Stands(v.code, a.pc, NotTail(p, a.pc, v.addr)) && a.pc + 6 < |v.code|
    ensures Reaches(v, s, t) && t.pc == a.pc + 6 && |t.regs| == B.REGS && t.regs[p] == Flag(x == 0)
    ensures forall q :: 0 <= q < B.REGS && !(240 <= q <= 255) && q != p ==> t.regs[q] == a.regs[q]
  {
    var k := NotTail(p, a.pc, v.addr);
    StandsAt(v.code, a.pc, k, 2);
    var c := RunNotTest(v, s, a, p, x);
    assert Resolves(v, a.pc + 5) && Resolves(v, a.pc + 6);
    DoBranch(v, s, c, B.JZ, a.pc + 5);
    StandsAt(v.code, a.pc, k, 3);
    StandsAt(v.code, a.pc, k, 4);
    StandsAt(v.code, a.pc, k, 5);
    t := RunNotSet(v, s, c, p, x, a.pc);
  }

  /** Behind the test: one branch sets 1, the other sets 0 and jumps past. */
  lemma RunNotSet(v: Env, s: IntMachine, c: IntMachine, p: nat, x: int, at: nat) returns (t: IntMachine)
    requires Reaches(v, s, c.(pc := if x == 0 then at + 5 else at + 3)) && p < |c.regs| == B.REGS && EnvOk(v) && at + 6 < |v.code|
    requires v.code[at + 3] == Push(p, 0) && v.code[at + 4] == Jmp(v.addr(at + 6)) && v.code[at + 5] == Push(p, 1)
    requires Resolves(v, at + 6)
    ensures Reaches(v, s, t) && t.pc == at + 6 && t.regs == c.regs[p := Flag(x == 0)]
  {
    if x == 0 {
      DoPush(v, s, c.(pc := at + 5), p, 1);
      t := Write(c.(pc := at + 5), p, 1, 1);
    } else {
      t := RunZero(v, s, c.(pc := at + 3), p, at + 6);
    }
  }

  /** Push zero and jump on. */
  lemma RunZero(v: Env, s: IntMachine, c: IntMachine, p: nat, target: nat) returns (t: IntMachine)
    requires Reaches(v, s, c) && p < |c.regs| && EnvOk(v) && c.pc + 1 < |v.code| && target < |v.code|
    requires v.code[c.pc] == Push(p, 0) && v.code[c.pc + 1] == Jmp(v.addr(target)) && Resolves(v, target)
    ensures Reaches(v, s, t) && t == Write(c, p, 0, 1).(pc := target)
  {
    DoPush(v, s, c, p, 0);
    var d := Write(c, p, 0, 1);
    DoJmp(v, s, d, target);
    t := d.(pc := target);
  }

  lemma RunNotTest(v: Env, s: IntMachine, a: IntMachine, p: nat, x: int) returns (c: IntMachine)
    requires Reaches(v, s, a) && |a.regs| == B.REGS && a.regs[LEFT] == x && Stands(v.code, a.pc, NotTail(p, a.pc, v.addr))
    ensures Reaches(v, s, c) && c.pc == a.pc + 2 && c.zero == (x == 0) && |c.regs| == B.REGS
    ensures forall q :: 0 <= q < B.REGS && !(240 <= q <= 255) ==> c.regs[q] == a.regs[q]
  {
    var k := NotTail(p, a.pc, v.addr);
    StandsAt(v.code, a.pc, k, 0);
    StandsAt(v.code, a.pc, k, 1);
    DoPush(v, s, a, RIGHT, 0);
    var b := Write(a, RIGHT, 0, 1);
    DoCmp(v, s, b, LEFT, RIGHT);
    c := b.(zero := x == 0, neg := x < 0, pc := a.pc + 2);
  }

  /** Every assignment: the code runs to its end with the local updated, or traps where the body
      traps. */
  lemma RunAssign(v: Env, s: IntMachine, place: nat, rv: Rvalue, locals: seq<int>) returns (t: IntMachine)
    requires Agree(locals, s) && place < |locals| && RvalueOk(rv, |locals|) && RvalueOk(rv, MAX_LOCALS) && EnvOk(v)
    requires Stands(v.code, s.pc, EmitRvalue(place, rv, s.pc, v.addr))
    requires s.pc + StmtSize(Assign(place, rv)) < |v.code|
    ensures Reaches(v, s, t)
    ensures var r := Eval(rv, locals, v.alu);
      if r.Fault? then VmNext(t, v.code, v.at, v.alu) == Trapped
      else t.pc == s.pc + StmtSize(Assign(place, rv)) && Agree(locals[place := r.v], t)
  {
    match rv
    case Use(o) =>
      var p := LocalToReg(place);
      ReachesSelf(v, s);
      RunOperand(v, s, s, o, p, locals);
      t := Write(s, p, Value(o, locals), OperandSize(o, p));
      AgreeWritten(locals, s, t, place, Value(o, locals));
    case Binary(b, l, r) => t := RunBinary(v, s, place, b, l, r, locals);
    case Compare(c, l, r) => t := RunCompare(v, s, place, c, l, r, locals);
    case Negate(o) => t := RunNegate(v, s, place, o, locals);
    case Not(o) => t := RunNot(v, s, place, o, locals);
  }

  // ---- terminators ----------------------------------------------------------------------------

  /** The chain of comparisons finds the first matching case. */
  lemma {:induction false} RunCases(v: Env, s: IntMachine, t: IntMachine, cs: seq<(int, nat)>, o: nat, start: Labels, x: int, locals: seq<int>)
    returns (u: IntMachine)
    requires Reaches(v, s, t) && Agree(locals, t) && t.regs[DISCR] == x && EnvOk(v)
    requires Stands(v.code, t.pc, EmitCases(cs, start, v.addr) + [Jmp(v.addr(start(o)))])
    requires start(o) < |v.code| && forall i :: 0 <= i < |cs| ==> start(cs[i].1) < |v.code|
    ensures Reaches(v, s, u) && Agree(locals, u) && u.pc == start(Select(cs, o, x))
    decreases |cs|
  {
    var k := EmitCases(cs, start, v.addr) + [Jmp(v.addr(start(o)))];
    if cs == [] {
      StandsAt(v.code, t.pc, k, 0);
      assert Resolves(v, start(o));
      DoJmp(v, s, t, start(o));
      u := t.(pc := start(o));
      AgreeStaged(locals, t, u);
    } else {
      var target := start(cs[0].1);
      var head := [Push(CASE, cs[0].0), Cmp(DISCR, CASE), Branch(B.JZ, v.addr(target))];
      var rest := EmitCases(cs[1..], start, v.addr) + [Jmp(v.addr(start(o)))];
      assert k == head + rest;
      StandsSplit(v.code, t.pc, head, rest);
      var c := RunCase(v, s, t, cs[0].0, target, x, locals);
      if cs[0].0 == x {
        u := c;
      } else {
        u := RunCases(v, s, c, cs[1..], o, start, x, locals);
      }
    }
  }

  lemma RunCase(v: Env, s: IntMachine, t: IntMachine, val: int, target: nat, x: int, locals: seq<int>) returns (u: IntMachine)
    requires Reaches(v, s, t) && Agree(locals, t) && t.regs[DISCR] == x && EnvOk(v) && target < |v.code|
    requires Stands(v.code, t.pc, [Push(CASE, val), Cmp(DISCR, CASE), Branch(B.JZ, v.addr(target))])
    ensures Reaches(v, s, u) && Agree(locals, u) && u.regs[DISCR] == x
    ensures u.pc == if val == x then target else t.pc + 3
  {
    var k := [Push(CASE, val), Cmp(DISCR, CASE), Branch(B.JZ, v.addr(target))];
    StandsAt(v.code, t.pc, k, 0);
    StandsAt(v.code, t.pc, k, 1);
    StandsAt(v.code, t.pc, k, 2);
    DoPush(v, s, t, CASE, val);
    var a := Write(t, CASE, val, 1);
    DoCmp(v, s, a, DISCR, CASE);
    var b := a.(zero := x == val, neg := x < val, pc := a.pc + 1);
    assert Resolves(v, target);
    DoBranch(v, s, b, B.JZ, target);
    u := b.(pc := if x == val then target else b.pc + 1);
    AgreeStaged(locals, t, u);
  }

  // ---- the simulation -------------------------------------------------------------------------

  /** The machine stands where the body stands, with the locals in their registers. */
  ghost predicate Sim(y: Body, m: MirState, s: IntMachine)
    requires AllWidened(y)
  {
    && StateOk(y, m) && Agree(m.locals, s)
    && s.pc == StmtAt(y.blocks[m.block], m.stmt, BlockStart(y, m.block))
  }

  ghost predicate Compiled(y: Body, v: Env) {
    BodyOk(y) && AllWidened(y) && v.code == EmitBody(y, v.addr) && EnvOk(v)
  }

  lemma {:induction false} StartsInside(y: Body, k: nat, n: nat)
    requires BodyOk(y) && AllWidened(y) && k < n <= |y.blocks|
    ensures BlockStart(y, k) + BlockSize(y.blocks[k]) <= BlockStart(y, n) && BlockSize(y.blocks[k]) > StmtsSize(y.blocks[k], |y.blocks[k].stmts|)
    decreases n
  {
    if k < n - 1 { StartsInside(y, k, n - 1); }
  }

  lemma {:induction false} StmtsGrow(b: Block, i: nat, n: nat)
    requires Widened(b) && i < n <= |b.stmts|
    ensures StmtsSize(b, i) + StmtSize(b.stmts[i]) <= StmtsSize(b, n)
    decreases n
  {
    if i < n - 1 { StmtsGrow(b, i, n - 1); }
  }

  lemma BlockParts(y: Body, v: Env, k: nat)
    requires Compiled(y, v) && k < |y.blocks|
    ensures BlockStart(y, k) < |v.code|
    ensures var b, at := y.blocks[k], BlockStart(y, k);
      && Stands(v.code, at, EmitStmts(b, |b.stmts|, at, v.addr))
      && Stands(v.code, StmtAt(b, |b.stmts|, at), EmitTerm(b.term, Starts(y), v.addr))
      && StmtAt(b, |b.stmts|, at) < |v.code|
  {
    BlockStands(y, |y.blocks|, v.addr, k);
    BlockSplit(v.code, y.blocks[k], BlockStart(y, k), Starts(y), v.addr);
    StartsInside(y, k, |y.blocks|);
  }

  lemma BlockSplit(code: seq<Instr>, b: Block, at: nat, start: Labels, addr: Labels)
    requires Widened(b) && Stands(code, at, EmitBlock(b, at, start, addr))
    ensures Stands(code, at, EmitStmts(b, |b.stmts|, at, addr))
    ensures Stands(code, StmtAt(b, |b.stmts|, at), EmitTerm(b.term, start, addr))
  {
    StandsSplit(code, at, EmitStmts(b, |b.stmts|, at, addr), EmitTerm(b.term, start, addr));
  }

  lemma TargetsInside(y: Body, v: Env, cs: seq<(int, nat)>, o: nat)
    requires Compiled(y, v) && o < |y.blocks| && forall i :: 0 <= i < |cs| ==> CaseOk(cs[i], |y.blocks|)
    ensures Starts(y)(o) < |v.code| && forall i :: 0 <= i < |cs| ==> Starts(y)(cs[i].1) < |v.code|
  {
    BlockParts(y, v, o);
    forall i | 0 <= i < |cs| ensures Starts(y)(cs[i].1) < |v.code| {
      assert CaseOk(cs[i], |y.blocks|);
      BlockParts(y, v, cs[i].1);
    }
  }

  /** The machine at `t` shows the outcome `r` of the body. */
  ghost predicate Matches(y: Body, v: Env, r: MirStep, t: IntMachine)
    requires BodyOk(y)
  {
    BodyWidened(y);
    match r
    case Next(m) => Sim(y, m, t)
    case Trap => VmNext(t, v.code, v.at, v.alu) == Trapped
    case Done(x) => VmNext(t, v.code, v.at, v.alu) == Returned(t) && |t.regs| > 0 && t.regs[0] == x
  }

  /** The code of the current statement stands at the machine's position, with more behind it. */
  lemma StmtHere(y: Body, v: Env, m: MirState, s: IntMachine)
    requires Compiled(y, v) && Sim(y, m, s) && m.stmt < |y.blocks[m.block].stmts|
    ensures var st := y.blocks[m.block].stmts[m.stmt];
      && StmtOk(st, y.locals) && StmtOk(st, MAX_LOCALS)
      && Stands(v.code, s.pc, EmitStmt(st, s.pc, v.addr)) && s.pc + StmtSize(st) < |v.code|
  {
    var b, at := y.blocks[m.block], BlockStart(y, m.block);
    BlockParts(y, v, m.block);
    StmtStands(v.code, b, |b.stmts|, at, v.addr, m.stmt);
    StmtsGrow(b, m.stmt, |b.stmts|);
    assert BlockOk(b, y.locals, |y.blocks|);
  }

  lemma SimMarker(y: Body, v: Env, m: MirState, s: IntMachine) returns (t: IntMachine)
    requires Compiled(y, v) && Sim(y, m, s) && m.stmt < |y.blocks[m.block].stmts|
    requires y.blocks[m.block].stmts[m.stmt].Marker?
    ensures Reaches(v, s, t) && Sim(y, m.(stmt := m.stmt + 1), t)
  {
    StmtHere(y, v, m, s);
    StandsAt(v.code, s.pc, [B.Instr(B.NOP, [])], 0);
    ReachesSelf(v, s);
    t := s.(pc := s.pc + 1);
    ReachesStep(v, s, s, t);
    AgreeStaged(m.locals, s, t);
    SimNext(y, m, s, t, m.locals);
  }

  lemma SimAssign(y: Body, v: Env, m: MirState, s: IntMachine) returns (t: IntMachine)
    requires Compiled(y, v) && Sim(y, m, s) && m.stmt < |y.blocks[m.block].stmts|
    requires y.blocks[m.block].stmts[m.stmt].Assign?
    ensures Reaches(v, s, t)
    ensures var st := y.blocks[m.block].stmts[m.stmt];
      && RvalueOk(st.rv, |m.locals|) && st.place < |m.locals|
      && var r := Eval(st.rv, m.locals, v.alu);
      if r.Fault? then VmNext(t, v.code, v.at, v.alu) == Trapped
      else Sim(y, m.(stmt := m.stmt + 1, locals := m.locals[st.place := r.v]), t)
  {
    var st := y.blocks[m.block].stmts[m.stmt];
    StmtHere(y, v, m, s);
    t := RunAssign(v, s, st.place, st.rv, m.locals);
    var r := Eval(st.rv, m.locals, v.alu);
    if r.Ok? { SimNext(y, m, s, t, m.locals[st.place := r.v]); }
  }

  lemma SimNext(y: Body, m: MirState, s: IntMachine, t: IntMachine, locals: seq<int>)
    requires AllWidened(y) && Sim(y, m, s) && m.stmt < |y.blocks[m.block].stmts| && |locals| == |m.locals|
    requires t.pc == s.pc + StmtSize(y.blocks[m.block].stmts[m.stmt]) && Agree(locals, t)
    ensures Sim(y, m.(stmt := m.stmt + 1, locals := locals), t)
  {
  }

  lemma SimStmt(y: Body, v: Env, m: MirState, s: IntMachine) returns (t: IntMachine)
    requires Compiled(y, v) && Sim(y, m, s) && m.stmt < |y.blocks[m.block].stmts|
    ensures Reaches(v, s, t) && Matches(y, v, Step(y, m, v.alu), t)
  {
    StepOfStmt(y, m, v.alu);
    if y.blocks[m.block].stmts[m.stmt].Marker? {
      t := SimMarker(y, v, m, s);
    } else {
      t := SimAssign(y, v, m, s);
    }
  }

  lemma StepOfStmt(y: Body, m: MirState, alu: Alu)
    requires BodyOk(y) && StateOk(y, m) && m.stmt < |y.blocks[m.block].stmts|
    ensures var st := y.blocks[m.block].stmts[m.stmt];
      && StmtOk(st, |m.locals|)
      && Step(y, m, alu) ==
         if st.Marker? then Next(m.(stmt := m.stmt + 1))
         else var r := Eval(st.rv, m.locals, alu);
              if r.Fault? then Trap else Next(m.(stmt := m.stmt + 1, locals := m.locals[st.place := r.v]))
  {
    assert BlockOk(y.blocks[m.block], y.locals, |y.blocks|);
  }

  lemma SimTerm(y: Body, v: Env, m: MirState, s: IntMachine) returns (t: IntMachine)
    requires Compiled(y, v) && Sim(y, m, s) && m.stmt == |y.blocks[m.block].stmts|
    ensures Reaches(v, s, t) && Matches(y, v, Step(y, m, v.alu), t)
  {
    var b := y.blocks[m.block];
    TermHere(y, v, m, s);
    if b.term.Goto? {
      t := SimGoto(y, v, m, s, b.term.b);
    } else if b.term.Switch? {
      t := SimSwitch(y, v, m, s, b.term.discr, b.term.cases, b.term.otherwise);
    } else {
      SimReturn(y, v, m, s);
      t := s;
    }
  }

  lemma TermHere(y: Body, v: Env, m: MirState, s: IntMachine)
    requires Compiled(y, v) && Sim(y, m, s) && m.stmt == |y.blocks[m.block].stmts|
    ensures TermOk(y.blocks[m.block].term, y.locals, |y.blocks|)
    ensures Stands(v.code, s.pc, EmitTerm(y.blocks[m.block].term, Starts(y), v.addr))
  {
    BlockParts(y, v, m.block);
    assert BlockOk(y.blocks[m.block], y.locals, |y.blocks|);
  }

  lemma SimReturn(y: Body, v: Env, m: MirState, s: IntMachine)
    requires Compiled(y, v) && Sim(y, m, s) && Stands(v.code, s.pc, [B.Instr(B.RET, [])])
    ensures Reaches(v, s, s) && Matches(y, v, Done(m.locals[0]), s)
  {
    StandsAt(v.code, s.pc, [B.Instr(B.RET, [])], 0);
    ReachesSelf(v, s);
    assert AgreeAt(m.locals, s, 0);
  }

  lemma SimGoto(y: Body, v: Env, m: MirState, s: IntMachine, k: nat) returns (t: IntMachine)
    requires Compiled(y, v) && Sim(y, m, s) && k < |y.blocks|
    requires Stands(v.code, s.pc, [Jmp(v.addr(Starts(y)(k)))])
    ensures Reaches(v, s, t) && Sim(y, MirState(k, 0, m.locals), t)
  {
    BlockParts(y, v, k);
    StandsAt(v.code, s.pc, [Jmp(v.addr(Starts(y)(k)))], 0);
    ReachesSelf(v, s);
    assert Resolves(v, BlockStart(y, k));
    DoJmp(v, s, s, BlockStart(y, k));
    t := s.(pc := BlockStart(y, k));
    AgreeStaged(m.locals, s, t);
  }

  lemma SwitchSplit(code: seq<Instr>, at: nat, d: Operand, cs: seq<(int, nat)>, o: nat, start: Labels, addr: Labels)
    requires OperandOk(d, MAX_LOCALS) && Stands(code, at, EmitTerm(Switch(d, cs, o), start, addr))
    ensures Stands(code, at, EmitOperand(d, DISCR))
    ensures Stands(code, at + 1, EmitCases(cs, start, addr) + [Jmp(addr(start(o)))])
  {
    var ops, rest := EmitOperand(d, DISCR), EmitCases(cs, start, addr) + [Jmp(addr(start(o)))];
    assert EmitTerm(Switch(d, cs, o), start, addr) == ops + rest;
    StandsSplit(code, at, ops, rest);
  }

  lemma SimSwitch(y: Body, v: Env, m: MirState, s: IntMachine, d: Operand, cs: seq<(int, nat)>, o: nat) returns (t: IntMachine)
    requires Compiled(y, v) && Sim(y, m, s) && o < |y.blocks| && OperandOk(d, y.locals)
    requires forall i :: 0 <= i < |cs| ==> CaseOk(cs[i], |y.blocks|)
    requires Stands(v.code, s.pc, EmitTerm(Switch(d, cs, o), Starts(y), v.addr))
    ensures Reaches(v, s, t) && Sim(y, MirState(Select(cs, o, Value(d, m.locals)), 0, m.locals), t)
  {
    var start, x := Starts(y), Value(d, m.locals);
    SwitchSplit(v.code, s.pc, d, cs, o, start, v.addr);
    ReachesSelf(v, s);
    RunOperand(v, s, s, d, DISCR, m.locals);
    var a := Write(s, DISCR, x, 1);
    AgreeStaged(m.locals, s, a);
    TargetsInside(y, v, cs, o);
    t := RunCases(v, s, a, cs, o, start, x, m.locals);
    SelectInside(cs, o, x, |y.blocks|);
  }

  lemma {:induction false} SelectInside(cs: seq<(int, nat)>, o: nat, x: int, n: nat)
    requires o < n && forall i :: 0 <= i < |cs| ==> CaseOk(cs[i], n)
    ensures Select(cs, o, x) < n
    decreases |cs|
  {
    if cs != [] {
      assert CaseOk(cs[0], n);
      if cs[0].0 != x { SelectInside(cs[1..], o, x, n); }
    }
  }

  /** One step of the body is a run of the machine: to the next state, to a return with the same
      value, or to a trap. */
  lemma Simulates(y: Body, v: Env, m: MirState, s: IntMachine) returns (t: IntMachine)
    requires Compiled(y, v) && Sim(y, m, s)
    ensures Reaches(v, s, t) && Matches(y, v, Step(y, m, v.alu), t)
  {
    if m.stmt < |y.blocks[m.block].stmts| {
      t := SimStmt(y, v, m, s);
    } else {
      t := SimTerm(y, v, m, s);
    }
  }

  // ---- whole runs -----------------------------------------------------------------------------

  /** `n` steps of the body, unless it ends before. */
  function MirRun(y: Body, m: MirState, n: nat, alu: Alu): (r: MirStep)
    requires BodyOk(y) && StateOk(y, m)
    ensures r.Next? ==> StateOk(y, r.s)
    decreases n, m
  {
    if n == 0 then Next(m)
    else
      var r := MirRun(y, m, n - 1, alu);
      if r.Next? then
        StepKeepsState(y, r.s, alu);
        Step(y, r.s, alu)
      else r
  }

  lemma StepKeepsState(y: Body, m: MirState, alu: Alu)
    requires BodyOk(y) && StateOk(y, m)
    ensures Step(y, m, alu).Next? ==> StateOk(y, Step(y, m, alu).s)
  {
    assert BlockOk(y.blocks[m.block], y.locals, |y.blocks|);
    var t := y.blocks[m.block].term;
    if t.Switch? { SelectInside(t.cases, t.otherwise, Value(t.discr, m.locals), |y.blocks|); }
  }

  /** Any run of the body, of any length, is matched by a run of the machine. */
  lemma {:induction false} RunSimulates(y: Body, v: Env, m: MirState, s: IntMachine, n: nat) returns (t: IntMachine)
    requires Compiled(y, v) && Sim(y, m, s)
    ensures Reaches(v, s, t) && Matches(y, v, MirRun(y, m, n, v.alu), t)
  {
    if n == 0 {
      ReachesSelf(v, s);
      t := s;
    } else {
      t := RunSimulates(y, v, m, s, n - 1);
      var r := MirRun(y, m, n - 1, v.alu);
      if r.Next? {
        var u := Simulates(y, v, r.s, t);
        ReachesTrans(v, s, t, u);
        t := u;
      }
    }
  }
}
