/** The bytecode: tagged operands, little-endian words, and the decoder the machine runs. */
module Bytecode {

  type Byte = b: nat | b < 256

  // ---- little-endian words --------------------------------------------------------------------

  function Pow256(n: nat): nat { if n == 0 then 1 else 256 * Pow256(n - 1) }

  function ToBytes(v: nat, n: nat): (s: seq<Byte>)
    ensures |s| == n
    decreases n, v
  {
    if n == 0 then [] else [v % 256] + ToBytes(v / 256, n - 1)
  }

  function Overwrite(s: seq<Byte>, at: nat, x: seq<Byte>): (r: seq<Byte>)
    requires at + |x| <= |s|
    ensures |r| == |s|
    ensures forall i :: 0 <= i < |s| ==> r[i] == if at <= i < at + |x| then x[i - at] else s[i]
  {
    s[..at] + x + s[at + |x|..]
  }

  function FromBytes(s: seq<Byte>, at: nat, n: nat): nat
    requires at + n <= |s|
    decreases n, s
  {
    if n == 0 then 0 else s[at] + 256 * FromBytes(s, at + 1, n - 1)
  }

  /** The `n` bytes of `code` from `at` are `enc`. */
  predicate Holds(code: seq<Byte>, at: nat, enc: seq<Byte>) {
    at + |enc| <= |code| && code[at..at + |enc|] == enc
  }

  lemma HoldsSplit(code: seq<Byte>, at: nat, a: seq<Byte>, b: seq<Byte>)
    requires Holds(code, at, a + b)
    ensures Holds(code, at, a) && Holds(code, at + |a|, b)
  {
    var c := code[at..at + |a + b|];
    assert code[at..at + |a|] == c[..|a|] == a;
    assert code[at + |a|..at + |a| + |b|] == c[|a|..] == b;
  }

  lemma {:induction false} BytesRoundTrip(code: seq<Byte>, at: nat, v: nat, n: nat)
    requires v < Pow256(n) && Holds(code, at, ToBytes(v, n))
    ensures FromBytes(code, at, n) == v
    decreases n
  {
    if n > 0 {
      HoldsSplit(code, at, [v % 256], ToBytes(v / 256, n - 1));
      assert code[at] == code[at..at + 1][0];
      BytesRoundTrip(code, at + 1, v / 256, n - 1);
    }
  }

  const WORD32: nat := 0x1_0000_0000
  const WORD64: nat := 0x1_0000_0000_0000_0000
  const HALF64: int := 0x8000_0000_0000_0000

  lemma Powers()
    ensures Pow256(2) == 65536 && Pow256(4) == WORD32 && Pow256(8) == WORD64
  {
    assert Pow256(1) == 256 && Pow256(2) == 65536 && Pow256(3) == 0x100_0000 && Pow256(4) == WORD32;
    assert Pow256(5) == 256 * WORD32 && Pow256(6) == 65536 * WORD32 && Pow256(7) == 0x100_0000 * WORD32;
  }

  function Unsigned(v: int): nat
    requires -HALF64 <= v < HALF64
  {
    if v < 0 then v + WORD64 else v
  }

  function Signed(u: nat): int { if u < HALF64 then u else u - WORD64 }

  // ---- operands -------------------------------------------------------------------------------

  datatype Operand = Reg(r: nat) | Imm(v: int) | StrIdx(i: nat) | Addr(a: nat) | Null | Float(bits: int)

  const TAG_REG: Byte := 1
  const TAG_IMM: Byte := 2
  const TAG_STR: Byte := 3
  const TAG_ADDR: Byte := 4
  const TAG_NULL: Byte := 5
  const TAG_FLOAT: Byte := 6
  const TAG_WIDE: Byte := 7

  const REGS: nat := 4096

  predicate OperandOk(o: Operand) {
    match o
    case Reg(r) => r < REGS
    case Imm(v) => -HALF64 <= v < HALF64
    case StrIdx(i) => i < WORD32
    case Addr(a) => a < WORD32
    case Null => true
    case Float(b) => -HALF64 <= b < HALF64
  }

  /** Registers from 256 on take the wide form. */
  function EncodeOperand(o: Operand): (s: seq<Byte>)
    requires OperandOk(o)
    ensures |s| == OperandSize(o)
  {
    match o
    case Reg(r) => if r < 256 then [TAG_REG, r] else [TAG_WIDE, r % 256, r / 256]
    case Imm(v) => [TAG_IMM] + ToBytes(Unsigned(v), 8)
    case StrIdx(i) => [TAG_STR] + ToBytes(i, 4)
    case Addr(a) => [TAG_ADDR] + ToBytes(a, 4)
    case Null => [TAG_NULL]
    case Float(b) => [TAG_FLOAT] + ToBytes(Unsigned(b), 8)
  }

  /** The size does not depend on the value of an address. */
  function OperandSize(o: Operand): nat {
    match o
    case Reg(r) => if r < 256 then 2 else 3
    case Imm(_) => 9
    case StrIdx(_) => 5
    case Addr(_) => 5
    case Null => 1
    case Float(_) => 9
  }

  datatype Parsed<T> = Fail | Got(value: T, next: nat)

  function DecodeOperand(code: seq<Byte>, ip: nat): (p: Parsed<Operand>)
    ensures p.Got? ==> ip < p.next <= |code| && OperandOk(p.value)
  {
    if ip >= |code| then Fail
    else
      var tag, at := code[ip], ip + 1;
      if tag == TAG_WIDE then
        if at + 1 >= |code| then Fail
        else
          var r := (code[at] as int) + 256 * (code[at + 1] as int);
          if r >= REGS then Fail else Got(Reg(r), at + 2)
      else if tag == TAG_REG then if at >= |code| then Fail else Got(Reg(code[at]), at + 1)
      else if tag == TAG_NULL then Got(Null, at)
      else if tag == TAG_FLOAT || tag == TAG_IMM then
        if at + 7 >= |code| then Fail
        else
          var u := FromBytes(code, at, 8);
          WordInRange(code, at, 8);
          Powers();
          Got(if tag == TAG_IMM then Imm(Signed(u)) else Float(Signed(u)), at + 8)
      else if tag == TAG_STR || tag == TAG_ADDR then
        if at + 3 >= |code| then Fail
        else
          var u := FromBytes(code, at, 4);
          WordInRange(code, at, 4);
          Powers();
          Got(if tag == TAG_STR then StrIdx(u) else Addr(u), at + 4)
      else Fail
  }

  lemma {:induction false} WordInRange(s: seq<Byte>, at: nat, n: nat)
    requires at + n <= |s|
    ensures FromBytes(s, at, n) < Pow256(n)
    decreases n
  {
    if n > 0 { WordInRange(s, at + 1, n - 1); }
  }

  lemma OperandRoundTrip(code: seq<Byte>, ip: nat, o: Operand)
    requires OperandOk(o) && Holds(code, ip, EncodeOperand(o))
    ensures DecodeOperand(code, ip) == Got(o, ip + OperandSize(o))
  {
    var enc := EncodeOperand(o);
    assert code[ip] == code[ip..ip + |enc|][0] == enc[0];
    Powers();
    match o
    case Reg(r) =>
      assert code[ip + 1] == code[ip..ip + |enc|][1];
      if r >= 256 { assert code[ip + 2] == code[ip..ip + |enc|][2]; }
    case Imm(v) => WordRoundTrip(code, ip, TAG_IMM, Unsigned(v), 8);
    case StrIdx(i) => WordRoundTrip(code, ip, TAG_STR, i, 4);
    case Addr(a) => WordRoundTrip(code, ip, TAG_ADDR, a, 4);
    case Null =>
    case Float(b) => WordRoundTrip(code, ip, TAG_FLOAT, Unsigned(b), 8);
  }

  lemma WordRoundTrip(code: seq<Byte>, ip: nat, tag: Byte, v: nat, n: nat)
    requires v < Pow256(n) && Holds(code, ip, [tag] + ToBytes(v, n))
    ensures ip + 1 + n <= |code| && FromBytes(code, ip + 1, n) == v
  {
    HoldsSplit(code, ip, [tag], ToBytes(v, n));
    BytesRoundTrip(code, ip + 1, v, n);
  }

  // ---- instructions ---------------------------------------------------------------------------

  datatype Instr = Instr(op: Byte, args: seq<Operand>)

  const NOP: Byte := 0x00
  const PUSH: Byte := 0x01
  const MOV: Byte := 0x03
  const SHL: Byte := 0x0A
  const SHR: Byte := 0x0B
  const REM: Byte := 0x0C
  const BITAND: Byte := 0x0D
  const BITOR: Byte := 0x0E
  const BITXOR: Byte := 0x0F
  const ADD: Byte := 0x10
  const SUB: Byte := 0x11
  const MUL: Byte := 0x12
  const DIV: Byte := 0x13
  const GSTORE: Byte := 0x1C
  const CMP: Byte := 0x20
  const JMP: Byte := 0x30
  const JNZ: Byte := 0x31
  const JZ: Byte := 0x32
  const SKIP: Byte := 0x33
  const CALL: Byte := 0x34
  const RET: Byte := 0x35
  const JN: Byte := 0x37
  const HALT: Byte := 0xFF

  /** How many operands follow an opcode; `-1` for an opcode the decoder does not know.  The skip
      form peeks for an address tag. */
  function Arity(op: Byte, code: seq<Byte>, ip: nat): int {
    if op in {0x00, 0x35, 0x44, 0xFF} then 0
    else if op in {0x31, 0x32, 0x37, 0x34, 0x3F, 0x40, 0x04, 0x05, 0x45, 0x07, 0x3D} then 1
    else if op in {0x01, 0x03, 0x20, 0x30, 0x1B, 0x1C, 0x18, 0x19, 0x1A, 0x38, 0x3C, 0x41, 0x42, 0x43, 0x39} then 2
    else if op in {0x10, 0x11, 0x12, 0x13, 0x08, 0x09, 0x06, 0x0A, 0x0B, 0x0C, 0x0D, 0x0E, 0x0F, 0x14, 0x15, 0x16, 0x17, 0x46} then 3
    else if op == 0x3A then 4
    else if op == 0x3B then 5
    else if op == SKIP then if ip < |code| && code[ip] == TAG_ADDR then 1 else 0
    else -1
  }

  /** What the compiler emits: a known opcode other than skip, with as many operands as it takes. */
  predicate InstrOk(i: Instr) {
    && i.op != SKIP && Arity(i.op, [], 0) == |i.args|
    && forall k :: 0 <= k < |i.args| ==> OperandOk(i.args[k])
  }

  function ArgsSize(args: seq<Operand>, n: nat): nat
    requires n <= |args|
    decreases n, args
  {
    if n == 0 then 0 else ArgsSize(args, n - 1) + OperandSize(args[n - 1])
  }

  function InstrSize(i: Instr): nat { 1 + ArgsSize(i.args, |i.args|) }

  function EncodeArgs(args: seq<Operand>, n: nat): (s: seq<Byte>)
    requires n <= |args| && forall k :: 0 <= k < |args| ==> OperandOk(args[k])
    ensures |s| == ArgsSize(args, n)
    decreases n, args
  {
    if n == 0 then [] else EncodeArgs(args, n - 1) + EncodeOperand(args[n - 1])
  }

  function EncodeInstr(i: Instr): (s: seq<Byte>)
    requires InstrOk(i)
    ensures |s| == InstrSize(i)
  {
    [i.op] + EncodeArgs(i.args, |i.args|)
  }

  /** Operands `k` up to `n`, decoded one after another. */
  function DecodeArgs(code: seq<Byte>, ip: nat, n: nat): (p: Parsed<seq<Operand>>)
    ensures p.Got? ==> ip <= p.next && (n > 0 ==> p.next <= |code|) && |p.value| == n
    decreases n, code
  {
    if n == 0 then Got([], ip)
    else
      var p := DecodeArgs(code, ip, n - 1);
      if p.Fail? then Fail
      else
        var q := DecodeOperand(code, p.next);
        if q.Fail? then Fail else Got(p.value + [q.value], q.next)
  }

  function DecodeInstr(code: seq<Byte>, ip: nat): (p: Parsed<Instr>)
    requires ip < |code|
    ensures p.Got? ==> ip < p.next <= |code|
  {
    var n := Arity(code[ip], code, ip + 1);
    if n < 0 then Fail
    else
      var p := DecodeArgs(code, ip + 1, n);
      if p.Fail? then Fail else Got(Instr(code[ip], p.value), p.next)
  }

  lemma {:induction false} ArgsRoundTrip(code: seq<Byte>, ip: nat, args: seq<Operand>, n: nat)
    requires n <= |args| && forall k :: 0 <= k < |args| ==> OperandOk(args[k])
    requires Holds(code, ip, EncodeArgs(args, n))
    ensures DecodeArgs(code, ip, n) == Got(args[..n], ip + ArgsSize(args, n))
    decreases n
  {
    if n == 0 {
      NoArgs(code, ip, args, n);
    } else {
      LastArgHolds(code, ip, args, n);
      ArgsRoundTrip(code, ip, args, n - 1);
      ArgsNext(code, ip, args, n);
    }
  }

  lemma NoArgs(code: seq<Byte>, ip: nat, args: seq<Operand>, n: nat)
    requires n == 0
    ensures DecodeArgs(code, ip, n) == Got(args[..n], ip + ArgsSize(args, n))
  {
    assert args[..n] == [];
  }

  lemma ArgsNext(code: seq<Byte>, ip: nat, args: seq<Operand>, n: nat)
    requires 0 < n <= |args| && DecodeArgs(code, ip, n - 1) == Got(args[..n - 1], ip + ArgsSize(args, n - 1))
    requires DecodeOperand(code, ip + ArgsSize(args, n - 1)) == Got(args[n - 1], ip + ArgsSize(args, n))
    ensures DecodeArgs(code, ip, n) == Got(args[..n], ip + ArgsSize(args, n))
  {
    DecodeNext(code, ip, args[..n - 1], n, args[n - 1], ip + ArgsSize(args, n - 1), ip + ArgsSize(args, n));
    assert args[..n] == args[..n - 1] + [args[n - 1]];
  }

  lemma LastArgHolds(code: seq<Byte>, ip: nat, args: seq<Operand>, n: nat)
    requires 0 < n <= |args| && forall k :: 0 <= k < |args| ==> OperandOk(args[k])
    requires Holds(code, ip, EncodeArgs(args, n))
    ensures Holds(code, ip, EncodeArgs(args, n - 1))
    ensures DecodeOperand(code, ip + ArgsSize(args, n - 1)) == Got(args[n - 1], ip + ArgsSize(args, n))
  {
    HoldsSplit(code, ip, EncodeArgs(args, n - 1), EncodeOperand(args[n - 1]));
    OperandRoundTrip(code, ip + ArgsSize(args, n - 1), args[n - 1]);
  }

  lemma DecodeNext(code: seq<Byte>, ip: nat, done: seq<Operand>, n: nat, o: Operand, at: nat, next: nat)
    requires n > 0 && DecodeArgs(code, ip, n - 1) == Got(done, at) && DecodeOperand(code, at) == Got(o, next)
    ensures DecodeArgs(code, ip, n) == Got(done + [o], next)
  {
  }

  lemma InstrRoundTrip(code: seq<Byte>, ip: nat, i: Instr)
    requires InstrOk(i) && Holds(code, ip, EncodeInstr(i))
    ensures ip < |code| && DecodeInstr(code, ip) == Got(i, ip + InstrSize(i))
  {
    HoldsSplit(code, ip, [i.op], EncodeArgs(i.args, |i.args|));
    assert code[ip] == code[ip..ip + 1][0] == i.op;
    assert Arity(i.op, code, ip + 1) == |i.args|;
    ArgsRoundTrip(code, ip + 1, i.args, |i.args|);
    assert i.args[..|i.args|] == i.args;
  }

  // ---- whole programs -------------------------------------------------------------------------

  predicate ProgramOk(prog: seq<Instr>) {
    forall k :: 0 <= k < |prog| ==> InstrOk(prog[k])
  }

  /** The byte offset of instruction `n`. */
  function Offset(prog: seq<Instr>, n: nat): nat
    requires n <= |prog|
    decreases n, prog
  {
    if n == 0 then 0 else Offset(prog, n - 1) + InstrSize(prog[n - 1])
  }

  function Encode(prog: seq<Instr>, n: nat): (s: seq<Byte>)
    requires ProgramOk(prog) && n <= |prog|
    ensures |s| == Offset(prog, n)
    decreases n, prog
  {
    if n == 0 then [] else Encode(prog, n - 1) + EncodeInstr(prog[n - 1])
  }

  datatype Decoded = Decoded(offset: nat, instr: Instr)

  function WithOffsets(prog: seq<Instr>, n: nat): (s: seq<Decoded>)
    requires n <= |prog|
    ensures |s| == n
    decreases n, prog
  {
    if n == 0 then [] else WithOffsets(prog, n - 1) + [Decoded(Offset(prog, n - 1), prog[n - 1])]
  }

  lemma {:induction false} EncodeHolds(prog: seq<Instr>, n: nat, k: nat)
    requires ProgramOk(prog) && k < n <= |prog|
    ensures Holds(Encode(prog, n), Offset(prog, k), EncodeInstr(prog[k]))
    decreases n
  {
    if k == n - 1 {
      HoldsRight(Encode(prog, n - 1), EncodeInstr(prog[n - 1]));
    } else {
      EncodeHolds(prog, n - 1, k);
      HoldsLeft(Encode(prog, n - 1), EncodeInstr(prog[n - 1]), Offset(prog, k), EncodeInstr(prog[k]));
    }
  }

  lemma HoldsRight(a: seq<Byte>, b: seq<Byte>)
    ensures Holds(a + b, |a|, b)
  {
    assert (a + b)[|a|..|a| + |b|] == b;
  }

  lemma HoldsLeft(a: seq<Byte>, b: seq<Byte>, at: nat, e: seq<Byte>)
    requires Holds(a, at, e)
    ensures Holds(a + b, at, e)
  {
    assert (a + b)[at..at + |e|] == a[at..at + |e|];
  }

  /** The decoding loop: one instruction after another from the start of the code. */
  method DecodeBytecode(code: seq<Byte>) returns (ok: bool, out: seq<Decoded>)
    ensures ok ==> Chained(code, out, |code|)
    ensures !ok ==> forall s :: !Chained(code, s, |code|)
  {
    out := [];
    var ip := 0;
    while ip < |code|
      invariant Chained(code, out, ip)
      decreases |code| - ip
    {
      var p := DecodeInstr(code, ip);
      if p.Fail? {
        ok := false;
        forall s ensures !Chained(code, s, |code|) {
          if Chained(code, s, |code|) { ChainsAgree(code, out, ip, s); }
        }
        return;
      }
      ChainedMore(code, out, ip);
      out := out + [Decoded(ip, p.value)];
      ip := p.next;
    }
    ok := true;
  }

  /** Step `k` of a chain starts where the one before ended. */
  predicate Link(code: seq<Byte>, s: seq<Decoded>, end: nat, k: nat)
    requires k < |s|
  {
    && s[k].offset < |code|
    && DecodeInstr(code, s[k].offset) == Got(s[k].instr, if k + 1 < |s| then s[k + 1].offset else end)
  }

  /** `s` decodes `code` from the beginning up to `end`, without gap or overlap. */
  predicate Chained(code: seq<Byte>, s: seq<Decoded>, end: nat) {
    && end <= |code|
    && (if s == [] then end == 0 else s[0].offset == 0)
    && forall k: nat :: k < |s| ==> Link(code, s, end, k)
  }

  lemma ChainedMore(code: seq<Byte>, s: seq<Decoded>, ip: nat)
    requires Chained(code, s, ip) && ip < |code| && DecodeInstr(code, ip).Got?
    ensures var p := DecodeInstr(code, ip); Chained(code, s + [Decoded(ip, p.value)], p.next)
  {
    var p := DecodeInstr(code, ip);
    var t := s + [Decoded(ip, p.value)];
    forall k: nat | k < |t| ensures Link(code, t, p.next, k) {
      if k < |s| { assert Link(code, s, ip, k); }
    }
  }

  lemma {:induction false} SamePrefix(code: seq<Byte>, s: seq<Decoded>, a: nat, t: seq<Decoded>, b: nat, k: nat)
    requires Chained(code, s, a) && Chained(code, t, b) && k < |s| && k < |t|
    ensures s[k] == t[k]
    decreases k
  {
    assert Link(code, s, a, k) && Link(code, t, b, k);
    if k > 0 {
      SamePrefix(code, s, a, t, b, k - 1);
      assert Link(code, s, a, k - 1) && Link(code, t, b, k - 1);
    }
  }

  lemma Inside(code: seq<Byte>, s: seq<Decoded>, end: nat, k: nat)
    requires Chained(code, s, end) && k < |s|
    ensures s[k].offset < |code|
    ensures DecodeInstr(code, s[k].offset) == Got(s[k].instr, if k + 1 < |s| then s[k + 1].offset else end)
  {
    assert Link(code, s, end, k);
  }

  /** A chain that has not ended is shorter than one that has. */
  lemma Shorter(code: seq<Byte>, s: seq<Decoded>, ip: nat, t: seq<Decoded>)
    requires Chained(code, s, ip) && Chained(code, t, |code|)
    ensures |s| <= |t|
    ensures |s| == |t| ==> ip == |code|
    ensures |s| < |t| ==> ip == t[|s|].offset < |code|
  {
    var k := if |s| <= |t| then |s| else |t|;
    if k > 0 {
      SamePrefix(code, s, ip, t, |code|, k - 1);
      Inside(code, s, ip, k - 1);
      Inside(code, t, |code|, k - 1);
    }
    if |s| < |t| { Inside(code, t, |code|, |s|); }
    if |t| < |s| { Inside(code, s, ip, |t|); }
  }

  /** Two chains follow each other: a full one passes every point another one has reached. */
  lemma ChainsAgree(code: seq<Byte>, s: seq<Decoded>, ip: nat, t: seq<Decoded>)
    requires Chained(code, s, ip) && ip < |code| && Chained(code, t, |code|)
    ensures |s| < |t| && t[|s|].offset == ip && DecodeInstr(code, ip).Got?
  {
    Shorter(code, s, ip, t);
    Inside(code, t, |code|, |s|);
  }

  /** Encoding then decoding gives back the program with its byte offsets. */
  lemma ProgramRoundTrip(prog: seq<Instr>)
    requires ProgramOk(prog)
    ensures Chained(Encode(prog, |prog|), WithOffsets(prog, |prog|), |Encode(prog, |prog|)|)
    ensures forall s :: Chained(Encode(prog, |prog|), s, |Encode(prog, |prog|)|) ==> s == WithOffsets(prog, |prog|)
  {
    var n := |prog|;
    var code, s := Encode(prog, n), WithOffsets(prog, n);
    forall k: nat | k < |s| ensures Link(code, s, |code|, k) {
      WithOffsetsAt(prog, n, k);
      if k + 1 < n { WithOffsetsAt(prog, n, k + 1); }
      EncodeHolds(prog, n, k);
      InstrRoundTrip(code, Offset(prog, k), prog[k]);
      assert Offset(prog, k + 1) == Offset(prog, k) + InstrSize(prog[k]);
    }
    if n > 0 { WithOffsetsAt(prog, n, 0); }
    forall t | Chained(code, t, |code|) ensures t == s { FullChainsEqual(code, s, t); }
  }

  lemma FullChainsEqual(code: seq<Byte>, s: seq<Decoded>, t: seq<Decoded>)
    requires Chained(code, s, |code|) && Chained(code, t, |code|)
    ensures s == t
  {
    Shorter(code, s, |code|, t);
    forall k: nat | k < |s| && k < |t| ensures s[k] == t[k] { SamePrefix(code, s, |code|, t, |code|, k); }
  }

  lemma {:induction false} WithOffsetsAt(prog: seq<Instr>, n: nat, k: nat)
    requires k < n <= |prog|
    ensures WithOffsets(prog, n)[k] == Decoded(Offset(prog, k), prog[k])
    decreases n
  {
    if k < n - 1 { WithOffsetsAt(prog, n - 1, k); }
  }
}
