/** Which register carries what, named: the integer arguments of section 3.2.3 of the System V AMD64 psABI. */
module CallingConvention {
  import opened Base
  import opened X86
  import opened Wasm
  import opened PassSoundness
  import opened Streams
  import opened CodeGen
  import opened Placement
  import opened CodeSemantics
  import opened CallSimulation
  import opened Correctness
  import opened EndToEnd
  import opened Departures

  predicate Has(s: Cpu, r: Reg, v: int) {
    r in s.regs && s.regs[r] == Word(v)
  }

  /** Arguments are in order in rdi, rsi, rdx, rcx, r8, r9. */
  lemma ArgumentRegisters(s: Cpu, args: seq<int>)
    ensures ArgsIn(s, args) <==>
            && |args| <= 6
            && (|args| > 0 ==> Has(s, RDI, args[0])) && (|args| > 1 ==> Has(s, RSI, args[1]))
            && (|args| > 2 ==> Has(s, RDX, args[2])) && (|args| > 3 ==> Has(s, RCX, args[3]))
            && (|args| > 4 ==> Has(s, R8, args[4])) && (|args| > 5 ==> Has(s, R9, args[5]))
  {
    if ArgsIn(s, args) {
      forall k | 0 <= k < |args| ensures Has(s, INTEGER_ORDER[k], args[k]) {}
    }
  }

  /** An import of six parameters is told what those registers hold, in that order. */
  lemma EventArguments(env: Env, s: Cpu, f: nat)
    requires External(env, s, f).Some? && env.arity(f) == 6
    ensures forall r :: r in [RDI, RSI, RDX, RCX, R8, R9] ==> HasWord(s, r)
    ensures External(env, s, f).value.trace == s.trace + [Event(f, [
              WordOf(s, RDI), WordOf(s, RSI), WordOf(s, RDX), WordOf(s, RCX), WordOf(s, R8), WordOf(s, R9)])]
  {
    assert forall k :: 0 <= k < 6 ==> HasWord(s, INTEGER_ORDER[k]);
    assert INTEGER_ORDER[0] == RDI && INTEGER_ORDER[1] == RSI && INTEGER_ORDER[2] == RDX;
    assert INTEGER_ORDER[3] == RCX && INTEGER_ORDER[4] == R8 && INTEGER_ORDER[5] == R9;
    assert ArgsOf(s, 6) == [
      WordOf(s, RDI), WordOf(s, RSI), WordOf(s, RDX), WordOf(s, RCX), WordOf(s, R8), WordOf(s, R9)];
  }

  /** A caller pops six arguments, the last one first; the callee stores the last one nearest to its rbp. */
  lemma SixArguments()
    ensures PopArgs(6) == [Pop(R9), Pop(R8), Pop(RCX), Pop(RDX), Pop(RSI), Pop(RDI)]
    ensures StoreParams(6, 6) == [
              MovRmR(M(8), R9), MovRmR(M(16), R8), MovRmR(M(24), RCX),
              MovRmR(M(32), RDX), MovRmR(M(40), RSI), MovRmR(M(48), RDI)]
  {
    assert PopArgs(3) == [Pop(RDX), Pop(RSI), Pop(RDI)];
    assert PopArgs(5) == [Pop(R8), Pop(RCX)] + PopArgs(3);
    assert StoreParams(6, 3) == [MovRmR(M(8), R9), MovRmR(M(16), R8), MovRmR(M(24), RCX)];
    assert StoreParams(6, 5) == StoreParams(6, 3) + [MovRmR(M(32), RDX), MovRmR(M(40), RSI)];
  }

  /** A function of two parameters, subtracting the second from the first. */
  function Subtracting(): Module {
    One(FuncType(2, 1), [], [GET0, GET1, I64Sub])
  }

  lemma SubtractingEvaluates(oracle: Oracle, a: int, b: int)
    ensures Compilable(Subtracting()) && ImportCount(Subtracting()) == 0
    ensures var r := EvalFunc(Subtracting(), oracle, 0, [a, b], [], 0);
            && r.Done? && r.value.results == [Wrap(a - b)] && r.value.trace == [] && r.value.need == 40
            && 0 !in r.value.frame
  {
    hide EvalFunc, Resolved, Declared;
    var m, t, ops := Subtracting(), FuncType(2, 1), [GET0, GET1, I64Sub];
    OneType(t, [], ops);
    ExchangesCancel(oracle, a, b);
    SubtractingNeeds(oracle, [a, b]);
  }

  lemma SubtractingNeeds(oracle: Oracle, args: seq<int>)
    requires EvalFunc(Subtracting(), oracle, 0, args, [], 0).Done? && |args| == 2
    ensures var a := EvalFunc(Subtracting(), oracle, 0, args, [], 0).value;
            a.trace == [] && a.need == 40 && 0 !in a.frame
  {
    hide EvalOps, Resolved, EntryFrame, Peak;
    var m, ops := Subtracting(), [GET0, GET1, I64Sub] + [End];
    OneType(FuncType(2, 1), [], [GET0, GET1, I64Sub]);
    assert m.bodies[0].ops == ops;
    assert LocalsSize(FuncType(2, 1), m.bodies[0]) == 16;
    SubtractingPeak(Resolver(m), ops);
    EntryFrameKeys(args, 2);
    var c := Config(EntryFrame(args, 2), [], [], 0);
    StraightOps(m, oracle, 2, ops, c);
  }

  lemma SubtractingPeak(sig: nat -> Option<FuncType>, ops: seq<Op>)
    requires ops == [GET0, GET1, I64Sub] + [End]
    ensures Peak(sig, ops) == 2
  {
    assert ops[..3] == [GET0, GET1, I64Sub] && ops[..3][..2] == [GET0, GET1];
    assert ops[..3][..2][..1] == [GET0] && ops[..3][..2][..1][..0] == [];
    assert Height(sig, [GET0]) == 1 && Peak(sig, [GET0]) == 1;
    assert Height(sig, [GET0, GET1]) == 2 && Peak(sig, [GET0, GET1]) == 2;
    assert Height(sig, [GET0, GET1, I64Sub]) == 1 && Peak(sig, [GET0, GET1, I64Sub]) == 2;
  }

  /** Operators that neither call nor set. */
  lemma {:induction false} StraightOps(m: Module, oracle: Oracle, p: nat, ops: seq<Op>, c: Config)
    requires forall k :: 0 <= k < |ops| ==> !ops[k].Call? && !ops[k].LocalSet?
    requires EvalOps(m, oracle, p, ops, c, 0).Done?
    ensures var d := EvalOps(m, oracle, p, ops, c, 0).value;
            d.trace == c.trace && d.need == c.need && d.frame == c.frame
    decreases |ops|
  {
    if ops != [] { StraightOps(m, oracle, p, ops[..|ops| - 1], c); }
  }

  /**
   The repository's example, on the machine: entered with the first argument in rdi and the second in
   rsi, the compiled function leaves their difference in rax and everything else as it should be.
   */
  lemma SubtractingRuns(env: Env, a: int, b: int, s: Cpu, sp: int, ret: Pc) returns (n: nat, t: Cpu)
    requires Has(s, RDI, a) && Has(s, RSI, b)
    requires Trimmed(s) && s.regs[RSP] == Word(sp) && sp in s.mem && s.mem[sp] == Code(ret) && RBP in s.regs
    requires ret.Exited? && Plain(s) && s.trace == [] && env.floor <= sp - 40
    ensures Compilable(Subtracting())
    ensures var p := Optimized(Subtracting());
            BodyOf(0) in p.labels && Run(p, env, State(At(p.labels[BodyOf(0)]), s), n) == Some(State(ret, t))
    ensures Has(t, RAX, Wrap(a - b)) && Has(t, RSP, sp + 8) && RBP in t.regs && t.regs[RBP] == s.regs[RBP]
    ensures t.mem == Above(s.mem, sp + 8) && t.trace == []
  {
    hide Run, EvalFunc, Optimized, Unoptimized, ArgsIn, Subtracting;
    SubtractingEvaluates(env.oracle, a, b);
    ArgumentRegisters(s, [a, b]);
    NoImports(env);
    var original;
    n, t, original := CompiledCodeIsCorrect(Subtracting(), env, 0, [a, b], s, sp, ret, 0);
  }

  lemma NoImports(env: Env)
    ensures EnvOk(Subtracting(), env)
  {
    assert ImportTypes(Subtracting(), 0) == [];
  }
}
