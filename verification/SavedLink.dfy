/**
 The first declared local of a function without parameters has the word of the saved rbp.  Read before
 it is set, it gives the caller's rbp: the operator semantics has no answer, but the machine has.
 */
module SavedLink {
  import opened Base
  import opened X86
  import opened Wasm
  import opened PassSoundness
  import opened Streams
  import opened CodeGen
  import opened Placement
  import opened CodeSemantics
  import opened Simulation
  import opened CallSimulation
  import opened Correctness
  import opened WasmSemantics
  import opened Departures

  // ----- the first local of a function without parameters -----

  function UnsetLink(): Module {
    One(FuncType(0, 1), [1], [LocalGet(0)])
  }

  function LinkCode(): seq<Instr> {
    [Push(RBP), Mov(RBP, RSP), SubRspImm(8)] + LinkRest()
  }

  function LinkRest(): seq<Instr> {
    [MovRRm(RAX, 0), Push(RAX), Pop(RAX)] + [AddRspImm(8), Mov(RSP, RBP), Pop(RBP)]
  }

  lemma UnsetLinkCompiles()
    ensures ImportCount(UnsetLink()) == 0 && Compilable(UnsetLink()) && TypeOf(UnsetLink(), 0) == FuncType(0, 1)
    ensures var l, p := BodyOf(0), Unoptimized(UnsetLink());
            l in p.labels && CodeAt(p.code, p.labels[l], LinkCode() + [Ret])
  {
    hide Unoptimized;
    var m := UnsetLink();
    OneType(FuncType(0, 1), [1], [LocalGet(0)]);
    SumOne(1);
    ReadCode(m, 1, 0);
    assert FuncCode(m, 0) == LinkCode() + [Ret];
    UnoptimizedIsLoaded(m);
    assert BodyAt(m, Unoptimized(m), 0);
  }

  lemma UnsetLinkMeanings(oracle: Oracle)
    ensures SpecResults(UnsetLink(), oracle, 0, [], 0) == Some([0])
    ensures EvalFunc(UnsetLink(), oracle, 0, [], [], 0).Stuck?
  {
    hide SpecResults, Resolved, Declared, Sum;
    var t, ops, m := FuncType(0, 1), [LocalGet(0)], UnsetLink();
    OneType(t, [1], ops);
    SumOne(1);
    var s := SpecStart(m, 0, []);
    assert [0] + [] == [0];
    SpecAnswers(m, oracle, 0, [], t, ops, [s, s.(stack := [0])], 0);
    EndIsIdle(m, oracle, 0, ops, Start([]), s, 0);
    assert EvalOps(m, oracle, 0, ops[..0], Start([]), 0) == Done(Start([]));
  }

  lemma ThreeInstrs(env: Env, a: Instr, b: Instr, c: Instr, s: Cpu, s1: Cpu, s2: Cpu, t: Cpu)
    requires Exec(env, a, s) == Some(s1) && Exec(env, b, s1) == Some(s2) && Exec(env, c, s2) == Some(t)
    ensures ExecAll(env, [a, b, c], s) == Some(t)
  {
    hide Exec;
    assert [a, b, c][1..] == [b, c] && [b, c][1..] == [c] && [c][1..] == [];
    assert ExecAll(env, [c], s2) == Some(t);
    assert ExecAll(env, [b, c], s1) == Some(t);
  }

  lemma LinkEnters(env: Env, s: Cpu, sp: int, ret: Pc) returns (t: Cpu)
    requires Entered(s, sp, ret, []) && env.floor <= sp - 24
    ensures ExecAll(env, [Push(RBP), Mov(RBP, RSP), SubRspImm(8)], s) == Some(t)
    ensures t == Cpu(s.regs[RBP := Word(sp - 8)][RSP := Word(sp - 16)], s.mem[sp - 8 := s.regs[RBP]], s.trace)
  {
    var s1 := Exec(env, Push(RBP), s).value;
    var s2 := Exec(env, Mov(RBP, RSP), s1).value;
    t := Exec(env, SubRspImm(8), s2).value;
    ThreeInstrs(env, Push(RBP), Mov(RBP, RSP), SubRspImm(8), s, s1, s2, t);
  }

  lemma LinkReads(env: Env, s: Cpu, sp: int, link: Val) returns (t: Cpu)
    requires HasWord(s, RSP) && WordOf(s, RSP) == sp - 16 && HasWord(s, RBP) && WordOf(s, RBP) == sp - 8
    requires sp - 8 in s.mem && s.mem[sp - 8] == link && env.floor <= sp - 24 && Trimmed(s)
    ensures ExecAll(env, [MovRRm(RAX, 0), Push(RAX), Pop(RAX)], s) == Some(t)
    ensures t.regs == s.regs[RAX := link] && t.mem == s.mem && t.trace == s.trace
  {
    var s1 := Exec(env, MovRRm(RAX, 0), s).value;
    var s2 := Exec(env, Push(RAX), s1).value;
    t := Exec(env, Pop(RAX), s2).value;
    ThreeInstrs(env, MovRRm(RAX, 0), Push(RAX), Pop(RAX), s, s1, s2, t);
    assert t.regs == s.regs[RAX := link];
  }

  lemma LinkLeaves(env: Env, s: Cpu, sp: int) returns (t: Cpu)
    requires HasWord(s, RSP) && WordOf(s, RSP) == sp - 16 && HasWord(s, RBP) && WordOf(s, RBP) == sp - 8
    requires sp - 8 in s.mem && Trimmed(s) && RAX in s.regs
    ensures ExecAll(env, [AddRspImm(8), Mov(RSP, RBP), Pop(RBP)], s) == Some(t)
    ensures t.regs == s.regs[RSP := Word(sp)][RBP := s.mem[sp - 8]] && t.mem == Above(s.mem, sp)
  {
    var s1 := Exec(env, AddRspImm(8), s).value;
    var s2 := Exec(env, Mov(RSP, RBP), s1).value;
    t := Exec(env, Pop(RBP), s2).value;
    ThreeInstrs(env, AddRspImm(8), Mov(RSP, RBP), Pop(RBP), s, s1, s2, t);
    assert t.regs == s.regs[RSP := Word(sp)][RBP := s.mem[sp - 8]];
    assert t.mem == Above(s.mem, sp);
  }

  /**
   From every entry with room for the frame the strict machine runs to the end and returns the caller's
   rbp, which is WebAssembly's zero only if it happens to be.
   */
  lemma UnsetLinkIsSavedRbp(env: Env, s: Cpu, sp: int, ret: Pc) returns (t: Cpu)
    requires Entered(s, sp, ret, []) && env.floor <= sp - 24
    ensures SpecResults(UnsetLink(), env.oracle, 0, [], 0) == Some([0])
    ensures EvalFunc(UnsetLink(), env.oracle, 0, [], [], 0).Stuck?
    ensures Compilable(UnsetLink())
    ensures var l, p := BodyOf(0), Unoptimized(UnsetLink());
            l in p.labels && Run(p, env, EnterAt(p, l, s), 10) == Some(State(ret, t))
    ensures RAX in t.regs && t.regs[RAX] == s.regs[RBP] && RBP in t.regs && t.regs[RBP] == s.regs[RBP]
  {
    hide Unoptimized, EvalFunc, SpecResults, Compilable, ExecAll, Exec, Run;
    UnsetLinkMeanings(env.oracle);
    UnsetLinkCompiles();
    var l, p := BodyOf(0), Unoptimized(UnsetLink());
    var i, block := p.labels[l], LinkCode();
    CodeAtSplit(p.code, i, block, [Ret]);
    var s1 := LinkEnters(env, s, sp, ret);
    var s2 := LinkReads(env, s1, sp, s.regs[RBP]);
    var s3 := LinkLeaves(env, s2, sp);
    ExecAllConcat(env, [MovRRm(RAX, 0), Push(RAX), Pop(RAX)], [AddRspImm(8), Mov(RSP, RBP), Pop(RBP)], s1, s2);
    ExecAllConcat(env, [Push(RBP), Mov(RBP, RSP), SubRspImm(8)], LinkRest(), s, s1);
    RunBlock(p, env, i, block, s, s3);
    RetIsEdge(p, i + 9);
    t := LinkReturns(p, env, i + 9, s3, sp, ret);
    RunCompose(p, env, State(At(i), s), 9, State(At(i + 9), s3), 1);
  }

  lemma LinkReturns(p: Program, env: Env, i: nat, s: Cpu, sp: int, ret: Pc) returns (t: Cpu)
    requires i < |p.code| && p.code[i] == Ret && HasWord(s, RSP) && WordOf(s, RSP) == sp
    requires sp in s.mem && s.mem[sp] == Code(ret) && RAX in s.regs && RBP in s.regs
    ensures Run(p, env, State(At(i), s), 1) == Some(State(ret, t))
    ensures RAX in t.regs && t.regs[RAX] == s.regs[RAX] && RBP in t.regs && t.regs[RBP] == s.regs[RBP]
  {
    t := Release(s, sp + 8);
    assert Step(p, env, State(At(i), s)) == Some(State(ret, t));
    assert Run(p, env, State(ret, t), 0) == Some(State(ret, t));
  }

  /** In WebAssembly a declared local is zero until it is set. */
  lemma {:induction false} ZeroUntilSet(
    m: Module, oracle: Oracle, n: nat, ops: seq<Op>, i: nat, trace: seq<Event>, fuel: nat)
    requires i < n && LocalSet(i) !in ops
    requires SpecOps(m, Standard, oracle, ops, SpecConfig(Zeros(n), [], trace), fuel).Done?
    ensures var e := SpecOps(m, Standard, oracle, ops, SpecConfig(Zeros(n), [], trace), fuel).value;
            |e.locals| == n && e.locals[i] == 0
    decreases |ops|
  {
    hide SpecOp;
    if ops != [] {
      var init, op := ops[..|ops| - 1], ops[|ops| - 1];
      ZeroUntilSet(m, oracle, n, init, i, trace, fuel);
      var c := SpecConfig(Zeros(n), [], trace);
      assert op in ops;
      OthersKept(m, oracle, op, i, SpecOps(m, Standard, oracle, init, c, fuel).value, fuel);
    }
  }

  lemma OthersKept(m: Module, oracle: Oracle, op: Op, i: nat, c: SpecConfig, fuel: nat)
    requires i < |c.locals| && op != LocalSet(i) && SpecOp(m, Standard, oracle, op, c, fuel).Done?
    ensures var e := SpecOp(m, Standard, oracle, op, c, fuel).value;
            |e.locals| == |c.locals| && e.locals[i] == c.locals[i]
  {
    hide SpecFunc;
  }

  /**
   Any read of the first local of a function without parameters before it is set: the code pushes the
   saved rbp, so it pushes what WebAssembly pushes if and only if that is zero.
   */
  lemma LinkReadAgreesIff(
    m: Module, env: Env, n: nat, ops: seq<Op>, s: Cpu, b: Anchor, c: Config, e: SpecConfig, trace: seq<Event>,
    fuel: nat)
    returns (t: Cpu)
    requires n > 0 && LocalSet(0) !in ops
    requires SpecOps(m, Standard, env.oracle, ops, SpecConfig(Zeros(n), [], trace), fuel) == Done(e)
    requires Rep(s, b, c) && 0 !in c.frame && env.floor <= Sp(b, c) - 8
    ensures ExecAll(env, OpCode(m, 0, n, LocalGet(0)), s) == Some(t)
    ensures HasWord(t, RSP) && WordOf(t, RSP) in t.mem && t.mem[WordOf(t, RSP)] == b.saved
    ensures var r := SpecOp(m, Standard, env.oracle, LocalGet(0), e, fuel);
            r.Done? && (t.mem[WordOf(t, RSP)] == Word(r.value.stack[0]) <==> b.saved == Word(0))
  {
    hide SpecOps, ExecAll;
    ZeroUntilSet(m, env.oracle, n, ops, 0, trace, fuel);
    var s1 := Exec(env, MovRRm(RAX, 0), s).value;
    t := Exec(env, Push(RAX), s1).value;
    ExecTwo(env, MovRRm(RAX, 0), Push(RAX), s, s1, t);
  }
}
