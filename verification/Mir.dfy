/** The integer part of the middle representation, the machine's integer instructions, and the code
    the compiler emits for one in terms of the other. */
module Mir {
  import B = Bytecode
  type Instr = B.Instr

  // ---- the middle representation --------------------------------------------------------------

  datatype Operand = Const(v: int) | Local(l: nat)

  datatype BinOp = Add | Sub | Mul | Div | Rem | Shl | Shr | BitAnd | BitOr | BitXor

  datatype CmpOp = Eq | Ne | Lt | Le | Gt | Ge

  datatype Rvalue =
    | Use(o: Operand)
    | Binary(b: BinOp, l: Operand, r: Operand)
    | Compare(c: CmpOp, l: Operand, r: Operand)
    | Negate(o: Operand)
    | Not(o: Operand)

  datatype Stmt = Assign(place: nat, rv: Rvalue) | Marker

  datatype Term = Goto(b: nat) | Switch(discr: Operand, cases: seq<(int, nat)>, otherwise: nat) | Return

  datatype Block = Block(stmts: seq<Stmt>, term: Term)

  datatype Body = Body(params: nat, locals: nat, blocks: seq<Block>)

  /** What arithmetic means; the same on both sides. */
  type Alu = (BinOp, int, int) -> int

  predicate Traps(b: BinOp, r: int) { (b.Div? || b.Rem?) && r == 0 }

  function Compared(c: CmpOp, l: int, r: int): bool {
    match c
    case Eq => l == r
    case Ne => l != r
    case Lt => l < r
    case Le => l <= r
    case Gt => l > r
    case Ge => l >= r
  }

  function Flag(b: bool): int { if b then 1 else 0 }

  function Value(o: Operand, locals: seq<int>): int
    requires o.Local? ==> o.l < |locals|
  {
    match o case Const(v) => v case Local(l) => locals[l]
  }

  predicate OperandOk(o: Operand, n: nat) {
    match o case Const(v) => -B.HALF64 <= v < B.HALF64 case Local(l) => l < n
  }

  predicate RvalueOk(rv: Rvalue, n: nat) {
    match rv
    case Use(o) => OperandOk(o, n)
    case Binary(_, l, r) => OperandOk(l, n) && OperandOk(r, n)
    case Compare(_, l, r) => OperandOk(l, n) && OperandOk(r, n)
    case Negate(o) => OperandOk(o, n)
    case Not(o) => OperandOk(o, n)
  }

  predicate StmtOk(s: Stmt, n: nat) { s.Assign? ==> s.place < n && RvalueOk(s.rv, n) }

  predicate CaseOk(c: (int, nat), blocks: nat) { -B.HALF64 <= c.0 < B.HALF64 && c.1 < blocks }

  predicate TermOk(t: Term, n: nat, blocks: nat) {
    match t
    case Goto(b) => b < blocks
    case Switch(d, cs, o) => OperandOk(d, n) && o < blocks && forall i :: 0 <= i < |cs| ==> CaseOk(cs[i], blocks)
    case Return => true
  }

  predicate BlockOk(b: Block, n: nat, blocks: nat) {
    (forall i :: 0 <= i < |b.stmts| ==> StmtOk(b.stmts[i], n)) && TermOk(b.term, n, blocks)
  }

  const MAX_LOCALS: nat := 4064
  const MAX_PARAMS: nat := 10

  predicate BodyOk(y: Body) {
    && y.params <= MAX_PARAMS && y.params < y.locals <= MAX_LOCALS && |y.blocks| > 0
    && forall i :: 0 <= i < |y.blocks| ==> BlockOk(y.blocks[i], y.locals, |y.blocks|)
  }

  datatype MirState = MirState(block: nat, stmt: nat, locals: seq<int>)

  datatype MirStep = Next(s: MirState) | Done(v: int) | Trap

  /** The value of an assignment, unless it divides by zero. */
  datatype Result = Ok(v: int) | Fault

  function Eval(rv: Rvalue, locals: seq<int>, alu: Alu): Result
    requires RvalueOk(rv, |locals|)
  {
    match rv
    case Use(o) => Ok(Value(o, locals))
    case Binary(b, l, r) =>
      if Traps(b, Value(r, locals)) then Fault else Ok(alu(b, Value(l, locals), Value(r, locals)))
    case Compare(c, l, r) => Ok(Flag(Compared(c, Value(l, locals), Value(r, locals))))
    case Negate(o) => Ok(alu(Sub, 0, Value(o, locals)))
    case Not(o) => Ok(Flag(Value(o, locals) == 0))
  }

  /** The first matching case wins. */
  function Select(cases: seq<(int, nat)>, otherwise: nat, v: int): nat
    decreases cases, v
  {
    if cases == [] then otherwise
    else if cases[0].0 == v then cases[0].1
    else Select(cases[1..], otherwise, v)
  }

  /** A switch goes to the target of the first case with the value, or else to the default. */
  lemma {:induction false} SelectsFirst(cases: seq<(int, nat)>, otherwise: nat, v: int, i: nat)
    requires i <= |cases| && (forall j :: 0 <= j < i ==> cases[j].0 != v) && (i < |cases| ==> cases[i].0 == v)
    ensures Select(cases, otherwise, v) == if i < |cases| then cases[i].1 else otherwise
    decreases i
  {
    if i > 0 { SelectsFirst(cases[1..], otherwise, v, i - 1); }
  }

  predicate StateOk(y: Body, s: MirState) {
    s.block < |y.blocks| && s.stmt <= |y.blocks[s.block].stmts| && |s.locals| == y.locals
  }

  function Step(y: Body, s: MirState, alu: Alu): MirStep
    requires BodyOk(y) && StateOk(y, s)
  {
    var b := y.blocks[s.block];
    if s.stmt < |b.stmts| then
      var st := b.stmts[s.stmt];
      if st.Marker? then Next(s.(stmt := s.stmt + 1))
      else
        var r := Eval(st.rv, s.locals, alu);
        if r.Fault? then Trap else Next(s.(stmt := s.stmt + 1, locals := s.locals[st.place := r.v]))
    else
      match b.term
      case Goto(t) => Next(MirState(t, 0, s.locals))
      case Switch(d, cs, o) => Next(MirState(Select(cs, o, Value(d, s.locals)), 0, s.locals))
      case Return => Done(s.locals[0])
  }

  // ---- 64-bit arithmetic ----------------------------------------------------------------------

  predicate Word(v: int) { -B.HALF64 <= v < B.HALF64 }

  function Wrap(v: int): (r: int)
    ensures Word(r) && (r - v) % B.WORD64 == 0
    ensures Word(v) ==> r == v
  {
    var u := v % B.WORD64;
    if u < B.HALF64 then u else u - B.WORD64
  }

  /** Division that truncates toward zero. */
  function Quotient(l: int, r: int): int
    requires r != 0
  {
    var q := Abs(l) / Abs(r);
    if (l < 0) == (r < 0) then q else -q
  }

  /** What is left over is smaller than the divisor and has the sign of the dividend. */
  lemma QuotientTruncates(l: int, r: int)
    requires r != 0
    ensures Leftover(l, r, l - Quotient(l, r) * r)
  {
    var p: int := Abs(l) / Abs(r) * Abs(r);
    assert 0 <= Abs(l) - p < Abs(r) && p >= 0 by { DivisionLeaves(Abs(l), Abs(r)); }
    assert Quotient(l, r) * r == if l < 0 then -p else p by { SignedProduct(l < 0, r, Abs(l) / Abs(r)); }
    LeftoverSign(l, r, p, Quotient(l, r) * r);
  }

  predicate Leftover(l: int, r: int, m: int) { Abs(m) < Abs(r) && (m == 0 || (m > 0 <==> l > 0)) }

  lemma LeftoverSign(l: int, r: int, p: int, x: int)
    requires p >= 0 && 0 <= Abs(l) - p < Abs(r) && x == if l < 0 then -p else p
    ensures Leftover(l, r, l - x)
  {
  }

  lemma SignedProduct(neg: bool, r: int, q: int)
    ensures (if neg == (r < 0) then q else -q) * r == if neg then -(q * Abs(r)) else q * Abs(r)
  {
    if r < 0 {
      var b: int := Abs(r);
      assert r == -b;
      Signs(q, b);
      assert q * r == -(q * b) && -q * r == q * b;
    }
  }

  lemma DivisionLeaves(a: int, b: int)
    requires a >= 0 && b > 0
    ensures 0 <= a - a / b * b < b && a / b * b >= 0
  {
  }

  lemma Signs(q: int, b: int)
    ensures q * -b == -(q * b) && -q * b == -(q * b) && -q * -b == q * b
  {
  }

  function Abs(v: int): nat { if v < 0 then -v else v }

  function Power2(n: nat): (p: nat)
    ensures p > 0
  {
    if n == 0 then 1 else 2 * Power2(n - 1)
  }

  function Raised(l: int, n: nat): int { l * Power2(n) }

  function Lowered(l: int, n: nat): int { l / Power2(n) }

  /** A bitwise operation on one bit. */
  function OnBit(b: BinOp, x: nat, y: nat): nat {
    match b case BitAnd => x * y case BitOr => (if x + y > 0 then 1 else 0) case _ => (x + y) % 2
  }

  /** And on the low `n` bits. */
  function OnBits(b: BinOp, x: nat, y: nat, n: nat): nat
    decreases n, x, y
  {
    if n == 0 then 0 else OnBit(b, x % 2, y % 2) + 2 * OnBits(b, x / 2, y / 2, n - 1)
  }

  function Bitwise(b: BinOp, l: int, r: int): int {
    Wrap(OnBits(b, l % B.WORD64, r % B.WORD64, 64))
  }

  /** Two's-complement words: sums and products wrap, division truncates, shifts look at the low six
      bits of their right operand. */
  function Alu64(b: BinOp, l: int, r: int): int {
    match b
    case Add => Wrap(l + r)
    case Sub => Wrap(l - r)
    case Mul => Wrap(l * r)
    case Div => if r == 0 then 0 else Wrap(Quotient(l, r))
    case Rem => if r == 0 then 0 else Wrap(l - Quotient(l, r) * r)
    case Shl => Wrap(Raised(l, r % 64))
    case Shr => Wrap(Lowered(l, r % 64))
    case _ => Bitwise(b, l, r)
  }

  /** On words, negation is negation, except at the one value that has no opposite. */
  lemma NegateNegates(o: Operand, locals: seq<int>)
    requires OperandOk(o, |locals|) && Word(Value(o, locals))
    ensures var v := Value(o, locals);
      Eval(Negate(o), locals, Alu64) == Ok(if v == -B.HALF64 then v else -v)
  {
    var v := Value(o, locals);
    if v == -B.HALF64 { assert (0 - v) % B.WORD64 == B.HALF64; }
  }

  // ---- registers ------------------------------------------------------------------------------

  /** Local 0 is the return register; the others avoid the argument and staging registers. */
  function LocalToReg(l: nat): (r: nat)
    requires l < MAX_LOCALS
    ensures r < B.REGS && !(1 <= r <= 15) && !(240 <= r <= 255)
  {
    if l == 0 then 0 else if l + 15 < 240 then l + 15 else l + 31
  }

  lemma LocalToRegInjective(a: nat, b: nat)
    requires a < MAX_LOCALS && b < MAX_LOCALS && LocalToReg(a) == LocalToReg(b)
    ensures a == b
  {
  }

  // ---- the machine ----------------------------------------------------------------------------

  datatype IntMachine = IntMachine(regs: seq<int>, zero: bool, neg: bool, pc: nat)

  datatype VmStep = Go(s: IntMachine) | Returned(s: IntMachine) | Trapped | Stuck

  /** From a byte address to the index of the instruction that starts there. */
  type Resolver = nat -> int

  function Read(s: IntMachine, o: B.Operand): Result {
    match o
    case Reg(r) => if r < |s.regs| then Ok(s.regs[r]) else Fault
    case Imm(v) => Ok(v)
    case _ => Fault
  }

  function SetReg(s: IntMachine, o: B.Operand, v: int): VmStep {
    if o.Reg? && o.r < |s.regs| then Go(s.(regs := s.regs[o.r := v], pc := s.pc + 1)) else Stuck
  }

  function JumpIf(s: IntMachine, c: bool, o: B.Operand, at: Resolver): VmStep {
    if !c then Go(s.(pc := s.pc + 1))
    else if o.Addr? && at(o.a) >= 0 then Go(s.(pc := at(o.a)))
    else Stuck
  }

  function OpOf(b: B.Byte): (o: BinOp)
    requires b in {B.ADD, B.SUB, B.MUL, B.DIV, B.REM, B.SHL, B.SHR, B.BITAND, B.BITOR, B.BITXOR}
  {
    if b == B.ADD then Add
    else if b == B.SUB then Sub
    else if b == B.MUL then Mul
    else if b == B.DIV then Div
    else if b == B.REM then Rem
    else if b == B.SHL then Shl
    else if b == B.SHR then Shr
    else if b == B.BITAND then BitAnd
    else if b == B.BITOR then BitOr
    else BitXor
  }

  /** Addition names its destination first; every other operation names it last. */
  function Arithmetic(s: IntMachine, i: Instr, alu: Alu): VmStep
    requires i.op in {B.ADD, B.SUB, B.MUL, B.DIV, B.REM, B.SHL, B.SHR, B.BITAND, B.BITOR, B.BITXOR} && |i.args| == 3
  {
    var first := i.op == B.ADD;
    var dst, src, val := if first then i.args[0] else i.args[2], if first then i.args[1] else i.args[0],
                         if first then i.args[2] else i.args[1];
    var l, r := Read(s, src), Read(s, val);
    if l.Fault? || r.Fault? || !src.Reg? then Stuck
    else if Traps(OpOf(i.op), r.v) then Trapped
    else SetReg(s, dst, alu(OpOf(i.op), l.v, r.v))
  }

  function Exec(s: IntMachine, i: Instr, at: Resolver, alu: Alu): VmStep {
    if i.op == B.NOP then Go(s.(pc := s.pc + 1))
    else if (i.op == B.PUSH || i.op == B.MOV) && |i.args| == 2 then
      var v := Read(s, i.args[1]);
      if v.Fault? then Stuck else SetReg(s, i.args[0], v.v)
    else if i.op in {B.ADD, B.SUB, B.MUL, B.DIV, B.REM, B.SHL, B.SHR, B.BITAND, B.BITOR, B.BITXOR} && |i.args| == 3 then
      Arithmetic(s, i, alu)
    else if i.op == B.CMP && |i.args| == 2 then
      var l, r := Read(s, i.args[0]), Read(s, i.args[1]);
      if l.Fault? || r.Fault? then Stuck else Go(s.(zero := l.v == r.v, neg := l.v < r.v, pc := s.pc + 1))
    else if i.op == B.JMP && |i.args| == 2 then JumpIf(s, true, i.args[0], at)
    else if i.op == B.JZ && |i.args| == 1 then JumpIf(s, s.zero, i.args[0], at)
    else if i.op == B.JNZ && |i.args| == 1 then JumpIf(s, !s.zero, i.args[0], at)
    else if i.op == B.JN && |i.args| == 1 then JumpIf(s, s.neg, i.args[0], at)
    else if i.op == B.RET then Returned(s)
    else Stuck
  }

  function VmNext(s: IntMachine, code: seq<Instr>, at: Resolver, alu: Alu): VmStep {
    if s.pc < |code| then Exec(s, code[s.pc], at, alu) else Stuck
  }

  // ---- emission -------------------------------------------------------------------------------

  /** Where a label will be, by instruction index. */
  type Labels = nat -> nat

  function R(r: nat): B.Operand { B.Reg(r) }

  function Push(r: nat, v: int): Instr { B.Instr(B.PUSH, [R(r), B.Imm(v)]) }

  function Move(r: nat, s: nat): Instr { B.Instr(B.MOV, [R(r), R(s)]) }

  function Cmp(a: nat, b: nat): Instr { B.Instr(B.CMP, [R(a), R(b)]) }

  /** Jumps carry their address twice, conditional jumps once. */
  function Jmp(a: nat): Instr { B.Instr(B.JMP, [B.Addr(a), B.Addr(a)]) }

  function Branch(op: B.Byte, a: nat): Instr { B.Instr(op, [B.Addr(a)]) }

  function EmitOperand(o: Operand, reg: nat): seq<Instr>
    requires o.Local? ==> o.l < MAX_LOCALS
  {
    match o
    case Const(v) => [Push(reg, v)]
    case Local(l) => if LocalToReg(l) != reg then [Move(reg, LocalToReg(l))] else []
  }

  function ByteOf(b: BinOp): B.Byte {
    match b
    case Add => B.ADD case Sub => B.SUB case Mul => B.MUL case Div => B.DIV case Rem => B.REM
    case Shl => B.SHL case Shr => B.SHR case BitAnd => B.BITAND case BitOr => B.BITOR case BitXor => B.BITXOR
  }

  function Arith(b: BinOp, dst: nat, l: nat, r: nat): Instr {
    B.Instr(ByteOf(b), if b.Add? then [R(dst), R(l), R(r)] else [R(l), R(r), R(dst)])
  }

  const LEFT: nat := 254
  const RIGHT: nat := 253
  const DISCR: nat := 252
  const CASE: nat := 251

  /** After a comparison: set 1, branch over setting 0 when it holds.  `t` is the index of the first
      of these instructions. */
  function CompareTail(c: CmpOp, p: nat, t: nat, addr: Labels): seq<Instr> {
    match c
    case Eq => [Push(p, 1), Branch(B.JZ, addr(t + 3)), Push(p, 0)]
    case Ne => [Push(p, 1), Branch(B.JNZ, addr(t + 3)), Push(p, 0)]
    case Lt => [Push(p, 1), Branch(B.JN, addr(t + 3)), Push(p, 0)]
    case Le => [Push(p, 1), Branch(B.JZ, addr(t + 4)), Branch(B.JN, addr(t + 4)), Push(p, 0)]
    case Gt => [Push(p, 1), Branch(B.JZ, addr(t + 4)), Branch(B.JN, addr(t + 4)), Jmp(addr(t + 5)), Push(p, 0)]
    case Ge => [Push(p, 1), Branch(B.JN, addr(t + 3)), Jmp(addr(t + 4)), Push(p, 0)]
  }

  function NotTail(p: nat, t: nat, addr: Labels): seq<Instr> {
    [Push(RIGHT, 0), Cmp(LEFT, RIGHT), Branch(B.JZ, addr(t + 5)), Push(p, 0), Jmp(addr(t + 6)), Push(p, 1)]
  }

  function EmitRvalue(place: nat, rv: Rvalue, base: nat, addr: Labels): seq<Instr>
    requires place < MAX_LOCALS && RvalueOk(rv, MAX_LOCALS)
  {
    var p := LocalToReg(place);
    match rv
    case Use(o) => EmitOperand(o, p)
    case Binary(b, l, r) => EmitOperand(l, LEFT) + EmitOperand(r, RIGHT) + [Arith(b, p, LEFT, RIGHT)]
    case Compare(c, l, r) =>
      EmitOperand(l, LEFT) + EmitOperand(r, RIGHT) + [Cmp(LEFT, RIGHT)] + CompareTail(c, p, base + 3, addr)
    case Negate(o) => EmitOperand(o, LEFT) + [Push(p, 0), Arith(Sub, p, p, LEFT)]
    case Not(o) => EmitOperand(o, LEFT) + NotTail(p, base + 1, addr)
  }

  function EmitStmt(s: Stmt, base: nat, addr: Labels): seq<Instr>
    requires StmtOk(s, MAX_LOCALS)
  {
    if s.Marker? then [B.Instr(B.NOP, [])] else EmitRvalue(s.place, s.rv, base, addr)
  }

  function EmitCases(cases: seq<(int, nat)>, start: Labels, addr: Labels): seq<Instr>
    decreases cases, start
  {
    if cases == [] then []
    else [Push(CASE, cases[0].0), Cmp(DISCR, CASE), Branch(B.JZ, addr(start(cases[0].1)))] + EmitCases(cases[1..], start, addr)
  }

  function EmitTerm(t: Term, start: Labels, addr: Labels): seq<Instr>
    requires t.Switch? ==> OperandOk(t.discr, MAX_LOCALS)
  {
    match t
    case Goto(b) => [Jmp(addr(start(b)))]
    case Switch(d, cs, o) => EmitOperand(d, DISCR) + EmitCases(cs, start, addr) + [Jmp(addr(start(o)))]
    case Return => [B.Instr(B.RET, [])]
  }
}
