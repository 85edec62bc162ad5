/** A whole program in one chunk: the entry stub and the bodies behind it, in one label space. */
module CompiledProgram {
  import opened Mir
  import opened MirSim
  import opened CompiledCode
  import B = Bytecode
  import A = Assembler

  // ---- layout ---------------------------------------------------------------------------------

  /** The bodies, which of them initialise a global, and which of them is the main one. */
  datatype Source = Source(inits: seq<(nat, int)>, main: nat, bodies: seq<Body>)

  predicate SourceOk(p: Source) {
    && p.main < |p.bodies| && (forall k: nat :: k < |p.bodies| ==> BodyOk(p.bodies[k]))
    && forall i :: 0 <= i < |p.inits| ==> InitOk(p, p.inits[i])
  }

  predicate InitOk(p: Source, i: (nat, int)) {
    i.0 < |p.bodies| && 0 <= i.1 < B.HALF64
  }

  function Call(a: nat): Instr { B.Instr(B.CALL, [B.Addr(a)]) }

  function Store(slot: int): Instr { B.Instr(B.GSTORE, [B.Imm(slot), R(0)]) }

  /** Every initialiser is called and its result stored, then the main body is called. */
  function Inits(inits: seq<(nat, int)>, start: Labels): (c: seq<Instr>)
    ensures |c| == 2 * |inits|
    decreases inits, start
  {
    if inits == [] then []
    else [Call(start(inits[0].0)), Store(inits[0].1)] + Inits(inits[1..], start)
  }

  function Stub(p: Source, start: Labels): (c: seq<Instr>)
    ensures |c| == 2 * |p.inits| + 2
  {
    Inits(p.inits, start) + [Call(start(p.main)), B.Instr(B.HALT, [])]
  }

  function Sum(sizes: seq<nat>, n: nat): nat
    requires n <= |sizes|
    decreases n, sizes
  {
    if n == 0 then 0 else Sum(sizes, n - 1) + sizes[n - 1]
  }

  function Sizes(p: Source): (s: seq<nat>)
    requires SourceOk(p)
    ensures |s| == |p.bodies|
  {
    seq(|p.bodies|, k requires 0 <= k < |p.bodies| => |EmitBody(p.bodies[k], SELF)|)
  }

  /** Where body `k` starts. */
  function Base(p: Source, k: nat): nat
    requires SourceOk(p) && k <= |p.bodies|
  {
    2 * |p.inits| + 2 + Sum(Sizes(p), k)
  }

  function Bases(p: Source): Labels
    requires SourceOk(p)
  {
    (k: nat) => if k < |p.bodies| then Base(p, k) else 0
  }

  function Shift(base: nat): Labels { (k: nat) => base + k }

  /** A body's own labels count from where it stands. */
  function Codes(p: Source): (c: seq<seq<Instr>>)
    requires SourceOk(p)
    ensures |c| == |p.bodies|
  {
    seq(|p.bodies|, k requires 0 <= k < |p.bodies| => EmitBody(p.bodies[k], Shift(Base(p, k))))
  }

  function Joined(codes: seq<seq<Instr>>, n: nat): seq<Instr>
    requires n <= |codes|
    decreases n, codes
  {
    if n == 0 then [] else Joined(codes, n - 1) + codes[n - 1]
  }

  function Program(p: Source): seq<Instr>
    requires SourceOk(p)
  {
    Stub(p, Bases(p)) + Joined(Codes(p), |p.bodies|)
  }

  ghost predicate SizesOf(codes: seq<seq<Instr>>, sizes: seq<nat>) {
    |codes| == |sizes| && forall k :: 0 <= k < |codes| ==> |codes[k]| == sizes[k] > 0
  }

  lemma CodesSized(p: Source)
    requires SourceOk(p)
    ensures SizesOf(Codes(p), Sizes(p))
  {
    forall k | 0 <= k < |p.bodies| ensures |Codes(p)[k]| == Sizes(p)[k] > 0 {
      var y := p.bodies[k];
      BodyNotEmpty(y);
      LinkedIsEmitted(y, Shift(Base(p, k)));
    }
  }

  lemma BodyNotEmpty(y: Body)
    requires BodyOk(y)
    ensures |EmitBody(y, SELF)| > 0
  {
    BodyWidened(y);
    StartsInside(y, 0, |y.blocks|);
  }

  lemma {:induction false} SumsGrow(codes: seq<seq<Instr>>, sizes: seq<nat>, k: nat, n: nat)
    requires SizesOf(codes, sizes) && k <= n <= |sizes|
    ensures |Joined(codes, n)| == Sum(sizes, n) && Sum(sizes, k) <= Sum(sizes, n)
    ensures k < n ==> Sum(sizes, k) + sizes[k] <= Sum(sizes, n)
    decreases n
  {
    if n > 0 { SumsGrow(codes, sizes, if k < n then k else n - 1, n - 1); }
  }

  lemma {:induction false} CodeStands(codes: seq<seq<Instr>>, sizes: seq<nat>, n: nat, k: nat)
    requires SizesOf(codes, sizes) && k < n <= |codes|
    ensures Stands(Joined(codes, n), Sum(sizes, k), codes[k])
    decreases n
  {
    StandsInside(Joined(codes, n - 1), codes[n - 1], Sum(sizes, k), codes[k]);
    SumsGrow(codes, sizes, n - 1, n - 1);
    if k < n - 1 { CodeStands(codes, sizes, n - 1, k); }
  }

  lemma StandsBehind(a: seq<Instr>, b: seq<Instr>, at: nat, c: seq<Instr>)
    requires Stands(b, at, c)
    ensures Stands(a + b, |a| + at, c)
  {
    assert (a + b)[|a| + at..|a| + at + |c|] == b[at..at + |c|];
  }

  lemma PlacedStands(p: Source, k: nat)
    requires SourceOk(p) && k < |p.bodies|
    ensures Stands(Program(p), Base(p, k), EmitBody(p.bodies[k], Shift(Base(p, k))))
  {
    CodesSized(p);
    CodeBehind(Stub(p, Bases(p)), Codes(p), Sizes(p), k, EmitBody(p.bodies[k], Shift(Base(p, k))));
  }

  lemma CodeBehind(stub: seq<Instr>, codes: seq<seq<Instr>>, sizes: seq<nat>, k: nat, c: seq<Instr>)
    requires SizesOf(codes, sizes) && k < |codes| && codes[k] == c
    ensures Stands(stub + Joined(codes, |codes|), |stub| + Sum(sizes, k), c)
  {
    CodeStands(codes, sizes, |codes|, k);
    StandsBehind(stub, Joined(codes, |codes|), Sum(sizes, k), codes[k]);
  }

  /** Every body lies inside the program. */
  lemma BodyInside(p: Source, k: nat)
    requires SourceOk(p) && k < |p.bodies|
    ensures Base(p, k) + |EmitBody(p.bodies[k], SELF)| <= |Program(p)| && Base(p, k) < |Program(p)|
  {
    CodesSized(p);
    SumsGrow(Codes(p), Sizes(p), k, |p.bodies|);
  }

  // ---- the program links ----------------------------------------------------------------------

  lemma ShiftFine(c: seq<Instr>, n: nat, base: nat, bound: nat)
    requires AllFine(c, n) && base + n <= bound < B.WORD32
    ensures AllFine(A.RelinkAll(c, Shift(base)), bound)
  {
    var d := A.RelinkAll(c, Shift(base));
    forall i | 0 <= i < |d| ensures Fine(d[i], bound) { ShiftFineOne(c[i], n, base, bound); }
  }

  lemma ShiftFineOne(i: Instr, n: nat, base: nat, bound: nat)
    requires Fine(i, n) && base + n <= bound < B.WORD32
    ensures Fine(B.Instr(i.op, A.RelinkArgs(i.args, Shift(base))), bound)
  {
    var args := A.RelinkArgs(i.args, Shift(base));
    forall k | 0 <= k < |args| ensures B.OperandOk(args[k]) && (args[k].Addr? ==> args[k].a < bound) {
      assert B.OperandOk(i.args[k]);
    }
  }

  lemma PlacedFine(y: Body, base: nat, bound: nat)
    requires BodyOk(y) && base + |EmitBody(y, SELF)| <= bound < B.WORD32
    ensures AllFine(EmitBody(y, Shift(base)), bound)
  {
    BodyFine(y);
    ShiftFine(EmitBody(y, SELF), |EmitBody(y, SELF)|, base, bound);
    LinkedIsEmitted(y, Shift(base));
  }

  lemma CallFine(a: nat, bound: nat)
    requires a < bound < B.WORD32
    ensures Fine(Call(a), bound)
  {
  }

  lemma {:induction false} InitsFine(p: Source, inits: seq<(nat, int)>, start: Labels, bound: nat)
    requires (forall i :: 0 <= i < |inits| ==> InitOk(p, inits[i])) && bound < B.WORD32
    requires forall k: nat :: k < |p.bodies| ==> start(k) < bound
    ensures AllFine(Inits(inits, start), bound)
    decreases |inits|
  {
    if inits != [] {
      assert InitOk(p, inits[0]);
      CallFine(start(inits[0].0), bound);
      assert Fine(Store(inits[0].1), bound);
      InitsFine(p, inits[1..], start, bound);
      FineAppend([Call(start(inits[0].0)), Store(inits[0].1)], Inits(inits[1..], start), bound);
    }
  }

  lemma StubFine(p: Source, start: Labels, bound: nat)
    requires SourceOk(p) && bound < B.WORD32 && forall k: nat :: k < |p.bodies| ==> start(k) < bound
    ensures AllFine(Stub(p, start), bound)
  {
    InitsFine(p, p.inits, start, bound);
    CallFine(start(p.main), bound);
    assert Fine(B.Instr(B.HALT, []), bound);
    FineAppend(Inits(p.inits, start), [Call(start(p.main)), B.Instr(B.HALT, [])], bound);
  }

  lemma {:induction false} JoinedFine(codes: seq<seq<Instr>>, n: nat, bound: nat)
    requires n <= |codes| && forall k :: 0 <= k < |codes| ==> AllFine(codes[k], bound)
    ensures AllFine(Joined(codes, n), bound)
    decreases n
  {
    if n > 0 {
      JoinedFine(codes, n - 1, bound);
      FineAppend(Joined(codes, n - 1), codes[n - 1], bound);
    }
  }

  /** A program whose code fits 32-bit addresses always links. */
  lemma ProgramLinks(p: Source)
    requires SourceOk(p)
    requires var prog := Program(p); B.Offset(prog, |prog|) < B.WORD32
    ensures A.Linkable(Program(p))
  {
    var prog, codes := Program(p), Codes(p);
    AtLeastIndex(prog, |prog|);
    forall k: nat | k < |p.bodies| ensures Bases(p)(k) < |prog| { BodyInside(p, k); }
    StubFine(p, Bases(p), |prog|);
    forall k | 0 <= k < |codes| ensures AllFine(codes[k], |prog|) {
      BodyInside(p, k);
      PlacedFine(p.bodies[k], Base(p, k), |prog|);
    }
    JoinedFine(codes, |codes|, |prog|);
    FineAppend(Stub(p, Bases(p)), Joined(codes, |codes|), |prog|);
  }

  // ---- one body among others ------------------------------------------------------------------

  /** The machine's view of the `n` instructions from `base`. */
  function Part(v: Env, base: nat, n: nat): Env
    requires base + n <= |v.code|
  {
    Env(v.code[base..base + n], (k: nat) => v.addr(base + k),
        (a: nat) => if base <= v.at(a) < base + n then v.at(a) - base else -1, v.alu)
  }

  function Moved(s: IntMachine, base: nat): IntMachine { s.(pc := s.pc + base) }

  function MovedStep(r: VmStep, base: nat): VmStep {
    match r case Go(s) => Go(Moved(s, base)) case Returned(s) => Returned(Moved(s, base)) case _ => r
  }

  /** A part does what it does wherever it stands, as long as it does not leave. */
  lemma PartStep(v: Env, base: nat, n: nat, s: IntMachine)
    requires base + n <= |v.code| && VmNext(s, Part(v, base, n).code, Part(v, base, n).at, v.alu) != Stuck
    ensures VmNext(Moved(s, base), v.code, v.at, v.alu) ==
            MovedStep(VmNext(s, Part(v, base, n).code, Part(v, base, n).at, v.alu), base)
  {
    var w := Part(v, base, n);
    assert v.code[s.pc + base] == w.code[s.pc];
    SameInstr(s, w.code[s.pc], base, w.at, v.at, v.alu);
  }

  lemma SameInstr(s: IntMachine, i: Instr, base: nat, at: Resolver, at': Resolver, alu: Alu)
    requires Exec(s, i, at, alu) != Stuck && forall a: nat :: at(a) >= 0 ==> at'(a) == at(a) + base
    ensures Exec(Moved(s, base), i, at', alu) == MovedStep(Exec(s, i, at, alu), base)
  {
  }

  lemma {:induction false} PartRuns(v: Env, base: nat, len: nat, s: IntMachine, n: nat, t: IntMachine)
    requires base + len <= |v.code| && Runs(Part(v, base, len), s, n) == Go(t)
    ensures Runs(v, Moved(s, base), n) == Go(Moved(t, base))
    decreases n
  {
    if n > 0 {
      var w := Part(v, base, len);
      var u := Runs(w, s, n - 1).s;
      PartRuns(v, base, len, s, n - 1, u);
      PartStep(v, base, len, u);
    }
  }

  /** What stands at the place of a body, linked with its neighbours, is the body with its final
      addresses. */
  lemma PlacedCompiled(y: Body, prog: seq<Instr>, base: nat, alu: Alu)
    requires BodyOk(y) && Stands(prog, base, EmitBody(y, Shift(base)))
    ensures var v := Loaded(prog, alu);
      base + |EmitBody(y, SELF)| <= |v.code| && Compiled(y, Part(v, base, |EmitBody(y, SELF)|))
  {
    LinkedIsEmitted(y, Shift(base));
    PartEmitted(y, prog, base, alu);
    BodyWidened(y);
    LoadedResolves(prog, alu);
    PartResolves(Loaded(prog, alu), base, |EmitBody(y, SELF)|);
  }

  lemma PartResolves(v: Env, base: nat, n: nat)
    requires EnvOk(v) && base + n <= |v.code|
    ensures EnvOk(Part(v, base, n))
  {
    var w := Part(v, base, n);
    forall j: nat | j < |w.code| ensures Resolves(w, j) { assert Resolves(v, base + j); }
  }

  lemma PartEmitted(y: Body, prog: seq<Instr>, base: nat, alu: Alu)
    requires BodyOk(y) && Stands(prog, base, EmitBody(y, Shift(base))) && base + |EmitBody(y, SELF)| <= |prog|
    ensures var w := Part(Loaded(prog, alu), base, |EmitBody(y, SELF)|); w.code == EmitBody(y, w.addr)
  {
    LinkedIsEmitted(y, Shift(base));
    PartLinked(EmitBody(y, SELF), prog, base, alu);
    LinkedIsEmitted(y, Part(Loaded(prog, alu), base, |EmitBody(y, SELF)|).addr);
  }

  lemma PartLinked(c: seq<Instr>, prog: seq<Instr>, base: nat, alu: Alu)
    requires Stands(prog, base, A.RelinkAll(c, Shift(base)))
    ensures var w := Part(Loaded(prog, alu), base, |c|); w.code == A.RelinkAll(c, w.addr)
  {
    var v := Loaded(prog, alu);
    RelinkTwice(c, base, v.addr, Part(v, base, |c|).addr);
    RelinkSlice(prog, base, |c|, v.addr);
  }

  lemma RelinkSlice(c: seq<Instr>, base: nat, n: nat, f: Labels)
    requires base + n <= |c|
    ensures A.RelinkAll(c, f)[base..base + n] == A.RelinkAll(c[base..base + n], f)
  {
  }

  lemma RelinkTwice(c: seq<Instr>, base: nat, f: Labels, g: Labels)
    requires forall k: nat :: g(k) == f(base + k)
    ensures A.RelinkAll(A.RelinkAll(c, Shift(base)), f) == A.RelinkAll(c, g)
  {
    var a, b := A.RelinkAll(A.RelinkAll(c, Shift(base)), f), A.RelinkAll(c, g);
    forall i | 0 <= i < |c| ensures a[i] == b[i] {
      assert A.RelinkArgs(A.RelinkArgs(c[i].args, Shift(base)), f) == A.RelinkArgs(c[i].args, g);
    }
  }

  /** The machine shows the outcome `r` of the body that stands at `base`. */
  ghost predicate MatchesAt(y: Body, base: nat, v: Env, r: MirStep, t: IntMachine)
    requires BodyOk(y)
  {
    BodyWidened(y);
    match r
    case Next(m) => t.pc >= base && Sim(y, m, t.(pc := t.pc - base))
    case Trap => VmNext(t, v.code, v.at, v.alu) == Trapped
    case Done(x) => VmNext(t, v.code, v.at, v.alu) == Returned(t) && |t.regs| > 0 && t.regs[0] == x
  }

  lemma PartMatches(y: Body, v: Env, base: nat, n: nat, r: MirStep, t: IntMachine)
    requires BodyOk(y) && base + n <= |v.code| && Matches(y, Part(v, base, n), r, t)
    ensures MatchesAt(y, base, v, r, Moved(t, base))
  {
    if !r.Next? { PartStep(v, base, n, t); }
  }

  /** The decoded bytes of a whole program, entered at any of its bodies, do what that body does:
      after any number of its steps, the same locals, the same return value, or the same trap. */
  lemma ProgramSimulates(p: Source, k: nat, s: IntMachine, n: nat, alu: Alu) returns (t: IntMachine)
    requires SourceOk(p) && k < |p.bodies| && |s.regs| == B.REGS && s.pc == Base(p, k)
    requires var prog := Program(p); B.Offset(prog, |prog|) < B.WORD32
    ensures Decodes(Program(p))
    ensures var y := p.bodies[k]; StateOk(y, MirState(0, 0, Entry(y, s)))
    ensures Reaches(Loaded(Program(p), alu), s, t)
    ensures var y := p.bodies[k];
      MatchesAt(y, Base(p, k), Loaded(Program(p), alu), MirRun(y, MirState(0, 0, Entry(y, s)), n, alu), t)
  {
    ProgramLinks(p);
    BytesDecode(Program(p));
    var y, v, base := p.bodies[k], Loaded(Program(p), alu), Base(p, k);
    PlacedStands(p, k);
    PlacedCompiled(y, Program(p), base, alu);
    var u := RunPart(y, v, base, |EmitBody(y, SELF)|, s, n);
    t := Moved(u, base);
  }

  lemma RunPart(y: Body, v: Env, base: nat, len: nat, s: IntMachine, n: nat) returns (u: IntMachine)
    requires base + len <= |v.code| && Compiled(y, Part(v, base, len)) && |s.regs| == B.REGS && s.pc == base
    ensures StateOk(y, MirState(0, 0, Entry(y, s)))
    ensures Reaches(v, s, Moved(u, base))
    ensures MatchesAt(y, base, v, MirRun(y, MirState(0, 0, Entry(y, s)), n, v.alu), Moved(u, base))
  {
    var w, s0 := Part(v, base, len), s.(pc := 0);
    var a := Enters(y, w, s0);
    assert Entry(y, s0) == Entry(y, s);
    u := RunSimulates(y, w, MirState(0, 0, Entry(y, s)), a, n);
    ReachesTrans(w, s0, a, u);
    var m: nat :| Runs(w, s0, m) == Go(u);
    PartRuns(v, base, len, s0, m, u);
    assert Moved(s0, base) == s;
    PartMatches(y, v, base, len, MirRun(y, MirState(0, 0, Entry(y, s)), n, v.alu), u);
  }

  /** Instruction `i` is a call whose address resolves to instruction `a`. */
  ghost predicate Calls(v: Env, i: nat, a: nat) {
    i < |v.code| && v.code[i] == Call(v.addr(a)) && v.at(v.addr(a)) == a
  }

  ghost predicate Stores(v: Env, i: nat, slot: int) {
    i < |v.code| && v.code[i] == Store(slot)
  }

  /** Initialiser `i` is called, and what it returns goes to its global. */
  ghost predicate CallsInit(v: Env, inits: seq<(nat, int)>, start: Labels, i: nat)
    requires i < |inits|
  {
    Calls(v, 2 * i, start(inits[i].0)) && Stores(v, 2 * i + 1, inits[i].1)
  }

  /** The stub's calls enter the bodies they name, initialisers in order and the main body last, and
      each initialiser's result goes to its global. */
  lemma StubCalls(p: Source, alu: Alu)
    requires SourceOk(p)
    ensures Calls(Loaded(Program(p), alu), 2 * |p.inits|, Base(p, p.main))
    ensures forall i: nat :: i < |p.inits| ==> CallsInit(Loaded(Program(p), alu), p.inits, Bases(p), i)
  {
    forall k: nat | k < |p.bodies| ensures Bases(p)(k) < |Program(p)| { BodyInside(p, k); }
    forall i | 0 <= i < |p.inits| ensures p.inits[i].0 < |p.bodies| { assert InitOk(p, p.inits[i]); }
    WholeStands(Stub(p, Bases(p)));
    StandsInside(Stub(p, Bases(p)), Joined(Codes(p), |p.bodies|), 0, Stub(p, Bases(p)));
    StubResolves(p, Program(p), Bases(p), alu);
  }

  lemma StubResolves(p: Source, prog: seq<Instr>, start: Labels, alu: Alu)
    requires Stands(prog, 0, Stub(p, start)) && start(p.main) < |prog|
    requires forall i :: 0 <= i < |p.inits| ==> start(p.inits[i].0) < |prog|
    ensures Calls(Loaded(prog, alu), 2 * |p.inits|, start(p.main))
    ensures forall i: nat :: i < |p.inits| ==> CallsInit(Loaded(prog, alu), p.inits, start, i)
  {
    forall i: nat | i < |p.inits| ensures CallsInit(Loaded(prog, alu), p.inits, start, i) {
      InitStands(p, prog, start, i);
      OneCall(prog, alu, 2 * i, start(p.inits[i].0));
      OneStore(prog, alu, 2 * i + 1, p.inits[i].1);
    }
    StandsAt(prog, 0, Stub(p, start), 2 * |p.inits|);
    OneCall(prog, alu, 2 * |p.inits|, start(p.main));
  }

  lemma OneCall(prog: seq<Instr>, alu: Alu, i: nat, a: nat)
    requires i < |prog| && a < |prog| && prog[i] == Call(a)
    ensures Calls(Loaded(prog, alu), i, a)
  {
    LoadedResolves(prog, alu);
    LinkedCall(prog, i, a);
    assert Resolves(Loaded(prog, alu), a);
  }

  lemma OneStore(prog: seq<Instr>, alu: Alu, i: nat, slot: int)
    requires i < |prog| && prog[i] == Store(slot)
    ensures Stores(Loaded(prog, alu), i, slot)
  {
    assert A.RelinkArgs(Store(slot).args, A.Offsets(prog)) == Store(slot).args;
  }

  lemma InitStands(p: Source, prog: seq<Instr>, start: Labels, i: nat)
    requires i < |p.inits| && Stands(prog, 0, Stub(p, start))
    ensures 2 * i + 1 < |prog| && prog[2 * i] == Call(start(p.inits[i].0)) && prog[2 * i + 1] == Store(p.inits[i].1)
  {
    InitsAt(p.inits, start, i);
    StandsAt(prog, 0, Stub(p, start), 2 * i);
    StandsAt(prog, 0, Stub(p, start), 2 * i + 1);
  }

  lemma LinkedCall(prog: seq<Instr>, i: nat, a: nat)
    requires i < |prog| && prog[i] == Call(a)
    ensures A.Linked(prog)[i] == Call(A.Offsets(prog)(a))
  {
    assert A.RelinkArgs([B.Addr(a)], A.Offsets(prog)) == [B.Addr(A.Offsets(prog)(a))];
  }

  lemma {:induction false} InitsAt(inits: seq<(nat, int)>, start: Labels, i: nat)
    requires i < |inits|
    ensures Inits(inits, start)[2 * i] == Call(start(inits[i].0))
    ensures Inits(inits, start)[2 * i + 1] == Store(inits[i].1)
    decreases i
  {
    if i > 0 { InitsAt(inits[1..], start, i - 1); }
  }
}
