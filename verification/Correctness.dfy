/**
 By induction on the call depth: whatever a function of a module computes, its machine code
 computes, within the stack its recorded height and those of its callees account for.
 */
module Correctness {
  import opened Base
  import opened X86
  import opened Wasm
  import opened CodeGen
  import opened Placement
  import opened CodeSemantics
  import opened Simulation
  import opened CallSimulation
  import opened OwnFrame

  /** Each import takes as many arguments and gives as many results as its type says. */
  predicate EnvOk(m: Module, env: Env) {
    forall f :: 0 <= f < ImportCount(m) && Resolved(m, f).Some? ==>
      env.arity(f) == Resolved(m, f).value.params && env.answers(f) == Resolved(m, f).value.results
  }

  // ----- heights -----

  lemma OpHeight(m: Module, oracle: Oracle, p: nat, op: Op, c: Config, fuel: nat, h: int)
    requires EvalOp(m, oracle, p, op, c, fuel).Done? && |c.stack| <= h
    ensures |EvalOp(m, oracle, p, op, c, fuel).value.stack| <= HeightAfter(Resolver(m), op, h)
    ensures c.need <= EvalOp(m, oracle, p, op, c, fuel).value.need
  {
  }

  /** The operand stack never exceeds the height computed from the operators alone. */
  lemma {:induction false} OpsHeight(m: Module, oracle: Oracle, p: nat, ops: seq<Op>, c: Config, fuel: nat)
    requires c.stack == [] && EvalOps(m, oracle, p, ops, c, fuel).Done?
    ensures |EvalOps(m, oracle, p, ops, c, fuel).value.stack| <= Height(Resolver(m), ops)
    ensures c.need <= EvalOps(m, oracle, p, ops, c, fuel).value.need
    decreases |ops|
  {
    if ops != [] {
      var init := ops[..|ops| - 1];
      OpsHeight(m, oracle, p, init, c, fuel);
      OpHeight(m, oracle, p, ops[|ops| - 1], EvalOps(m, oracle, p, init, c, fuel).value, fuel,
        Height(Resolver(m), init));
    }
  }

  // ----- staying within the frame -----

  /** Bytes below its frame base that code entry `j` uses for itself. */
  function FrameDepth(m: Module, j: nat): nat
    requires j < |m.bodies| && BodyOk(m, j)
  {
    LocalsSize(TypeOf(m, j), m.bodies[j]) + 8 * Peak(Resolver(m), m.bodies[j].ops)
  }

  /** In `n` steps from index `i`, this frame's operand stack never exceeds `h` words. */
  ghost predicate Confined(p: Program, env: Env, i: nat, s: Cpu, n: nat, b: Anchor, h: nat) {
    RunIn(p, env, State(At(i), s), n, b.bp, b.size + 8 * h)
  }

  lemma RepIn(s: Cpu, b: Anchor, c: Config, h: nat)
    requires Rep(s, b, c) && |c.stack| <= h
    ensures StackIn(s, b.bp, b.size + 8 * h)
  {
    RepBounds(s, b, c);
  }

  /** A block between two represented configurations of at most `h` operands. */
  lemma BlockConfined(
    p: Program, env: Env, i: nat, block: seq<Instr>, s: Cpu, t: Cpu, b: Anchor, c: Config, d: Config, h: nat)
    requires CodeAt(p.code, i, block) && ExecAll(env, block, s) == Some(t) && Valley(block)
    requires Rep(s, b, c) && Rep(t, b, d) && |c.stack| <= h && |d.stack| <= h
    ensures Confined(p, env, i, s, |block|, b, h)
  {
    hide Rep, ExecAll, Valley, RunIn;
    RepIn(s, b, c, h);
    RepIn(t, b, d, h);
    RunBlockIn(p, env, i, block, s, t, b.bp, b.size + 8 * h);
  }

  lemma ConfinedCompose(p: Program, env: Env, i: nat, s: Cpu, m: nat, j: nat, t: Cpu, n: nat, b: Anchor, h: nat)
    requires Confined(p, env, i, s, m, b, h) && Run(p, env, State(At(i), s), m) == Some(State(At(j), t))
    requires Confined(p, env, j, t, n, b, h)
    ensures Confined(p, env, i, s, m + n, b, h)
  {
    hide Run, RunIn;
    RunInCompose(p, env, State(At(i), s), m, State(At(j), t), n, b.bp, b.size + 8 * h);
  }

  lemma PlainValley(m: Module, q: nat, locals: nat, op: Op)
    requires OpOk(m, locals, op) && IsPlain(op)
    ensures Valley(OpCode(m, q, locals, op))
  {
    var code := OpCode(m, q, locals, op);
    if op.I64Add? || op.I64Sub? {
      assert code[1..][1..] == code[2..] && code[2..][1..] == code[3..];
      assert Valley(code[3..]) && Valley(code[2..]) && Valley(code[1..]);
    } else if |code| == 2 {
      assert Valley(code[1..]);
    }
  }

  lemma {:induction false} PopsRise(n: nat)
    requires n <= 6
    ensures Rising(PopArgs(n))
  {
    ArgRegsDistinct();
    if n > 0 { PopsRise(n - 1); }
  }

  lemma RisingIsValley(block: seq<Instr>)
    requires Rising(block)
    ensures Valley(block)
  {
    ValleyConcat(block, []);
    assert block + [] == block;
  }

  // ----- calls -----

  /** Two control steps: load the import's slot, call through it. */
  lemma SimExternal(
    m: Module, p: Program, env: Env, f: nat, i: nat, s: Cpu, b: Anchor, c: Config, h: nat, args: seq<int>)
    returns (t: Cpu)
    requires SlotAt(p, ImportSlot(f)) && CodeAt(p.code, i, [MovRSlot(R10, ImportSlot(f)), CallReg(R10)])
    requires Rep(s, b, c) && ArgsIn(s, args) && env.arity(f) == |args| && env.floor <= Sp(b, c) - 8
    ensures Run(p, env, State(At(i), s), 2) == Some(State(At(i + 2), t))
    ensures var trace := c.trace + [Event(f, args)];
            && Rep(t, b, c.(trace := trace))
            && ResultsIn(t, [env.oracle(trace).0, env.oracle(trace).1][..Carried(env.answers(f))])
    ensures |c.stack| <= h ==> Confined(p, env, i, s, 2, b, h)
  {
    hide Rep, Exec;
    RepBounds(s, b, c);
    ArgRegsDistinct();
    var block := [MovRSlot(R10, ImportSlot(f)), CallReg(R10)];
    assert p.code[i] == p.code[i..i + 2][0] == block[0] && p.code[i + 1] == p.code[i..i + 2][1] == block[1];
    var s1 := s.(regs := s.regs[R10 := Import(f)]);
    assert Step(p, env, State(At(i), s)) == Some(State(At(i + 1), s1));
    assert ArgsIn(s1, args) && ArgsReady(s1, |args|) && ArgsOf(s1, |args|) == args;
    t := External(env, s1, f).value;
    assert Step(p, env, State(At(i + 1), s1)) == Some(State(At(i + 2), t));
    assert Run(p, env, State(At(i + 2), t), 0) == Some(State(At(i + 2), t));
    assert Run(p, env, State(At(i + 1), s1), 1) == Some(State(At(i + 2), t));
    RepTrace(s, b, c, t);
    if |c.stack| <= h { TwoIn(p, env, i, s, s1, b.bp, b.size + 8 * h); }
  }

  lemma TwoIn(p: Program, env: Env, i: nat, s: Cpu, t: Cpu, bp: int, depth: nat)
    requires StackIn(s, bp, depth) && StackIn(t, bp, depth)
    requires Step(p, env, State(At(i), s)) == Some(State(At(i + 1), t))
    ensures RunIn(p, env, State(At(i), s), 2, bp, depth)
  {
    hide Step, RunIn;
    RunInStep(p, env, State(At(i), s), bp, depth);
    RunInStep(p, env, State(At(i + 1), t), bp, depth);
    assert Run(p, env, State(At(i + 1), t), 0) == Some(State(At(i + 1), t));
    RunInCompose(p, env, State(At(i), s), 1, State(At(i + 1), t), 1, bp, depth);
  }

  lemma RepTrace(s: Cpu, b: Anchor, c: Config, t: Cpu)
    requires Rep(s, b, c) && t.mem == s.mem && RBP in t.regs && RSP in t.regs
    requires t.regs[RBP] == s.regs[RBP] && t.regs[RSP] == s.regs[RSP]
    ensures Rep(t, b, c.(trace := t.trace))
  {
  }

  /** A call pushes its return address and the callee takes it back: the caller's frame is as it was. */
  lemma SimLocal(
    m: Module, p: Program, env: Env, f: nat, i: nat, s: Cpu, b: Anchor, c: Config, h: nat, args: seq<int>, fuel: nat)
    returns (n: nat, t: Cpu)
    requires Compilable(m) && Loaded(m, p) && EnvOk(m, env)
    requires ImportCount(m) <= f && CodeAt(p.code, i, [CallLabel(BodyOf(f))])
    requires Rep(s, b, c) && ArgsIn(s, args)
    requires EvalFunc(m, env.oracle, f - ImportCount(m), args, c.trace, fuel).Done?
    requires var r := EvalFunc(m, env.oracle, f - ImportCount(m), args, c.trace, fuel).value;
             0 !in r.frame && env.floor <= Sp(b, c) - 8 - r.need
    ensures var r := EvalFunc(m, env.oracle, f - ImportCount(m), args, c.trace, fuel).value;
            && Run(p, env, State(At(i), s), n) == Some(State(At(i + 1), t))
            && Rep(t, b, c.(trace := r.trace)) && ResultsIn(t, r.results)
    ensures |c.stack| <= h ==> Confined(p, env, i, s, n, b, h)
    decreases fuel, 3, 0
  {
    hide Exec, External, EvalFunc, Rep, Run, Step, Loaded, BodyAt, RunIn;
    var j, sp := f - ImportCount(m), Sp(b, c) - 8;
    LoadedBody(m, p, j);
    var s1 := CallEnters(m, p, env, f, i, s, b, c, args);
    var k;
    k, t := SimFunc(m, p, env, j, args, s1, sp, At(i + 1), fuel);
    n := 1 + k;
    RunFirst(p, env, State(At(i), s), State(At(p.labels[BodyOf(f)]), s1), k);
    CallLeaves(s, s1, t, b, c, i, EvalFunc(m, env.oracle, j, args, c.trace, fuel).value);
    if |c.stack| <= h {
      var callee := State(At(p.labels[BodyOf(f)]), s1);
      RunFirst(p, env, State(At(i), s), callee, 0);
      RunNone(p, env, callee);
      CallConfined(p, env, State(At(i), s), callee, k, sp - 8, FrameDepth(m, j), b, c, h);
    }
  }

  lemma CallConfined(
    p: Program, env: Env, s: State, t: State, k: nat, low: int, depth: nat, b: Anchor, c: Config, h: nat)
    requires Rep(s.cpu, b, c) && |c.stack| <= h && Run(p, env, s, 1) == Some(t)
    requires RunIn(p, env, t, k, low, depth) && low < b.bp
    ensures RunIn(p, env, s, 1 + k, b.bp, b.size + 8 * h)
  {
    hide Rep, RunIn, Run;
    RepIn(s.cpu, b, c, h);
    RunInStep(p, env, s, b.bp, b.size + 8 * h);
    RunInOuter(p, env, t, k, low, depth, b.bp, b.size + 8 * h);
    RunInCompose(p, env, s, 1, t, k, b.bp, b.size + 8 * h);
  }

  lemma RunFirst(p: Program, env: Env, s: State, t: State, k: nat)
    requires Step(p, env, s) == Some(t)
    ensures Run(p, env, s, 1 + k) == Run(p, env, t, k)
  {
  }

  lemma CallEnters(m: Module, p: Program, env: Env, f: nat, i: nat, s: Cpu, b: Anchor, c: Config, args: seq<int>)
    returns (t: Cpu)
    requires ImportCount(m) <= f < ImportCount(m) + |m.bodies| && BodyOk(m, f - ImportCount(m))
    requires BodyAt(m, p, f - ImportCount(m)) && CodeAt(p.code, i, [CallLabel(BodyOf(f))])
    requires Rep(s, b, c) && ArgsIn(s, args) && env.floor <= Sp(b, c) - 8
    ensures PushVal(env, s, Code(At(i + 1))) == Some(t)
    ensures Step(p, env, State(At(i), s)) == Some(State(At(p.labels[BodyOf(f)]), t))
    ensures Entered(t, Sp(b, c) - 8, At(i + 1), args) && t.trace == c.trace
  {
    hide Rep, Exec, External, FuncCode;
    RepBounds(s, b, c);
    ArgRegsDistinct();
    assert p.code[i] == p.code[i..i + 1][0] == CallLabel(BodyOf(f));
    t := PushVal(env, s, Code(At(i + 1))).value;
  }

  lemma CallLeaves(s: Cpu, s1: Cpu, t: Cpu, b: Anchor, c: Config, i: nat, r: Answer)
    requires Rep(s, b, c) && 0 !in r.frame && Returned(s1, t, Sp(b, c) - 8, r)
    requires s1 == Cpu(s.regs[RSP := Word(Sp(b, c) - 8)], s.mem[Sp(b, c) - 8 := Code(At(i + 1))], s.trace)
    ensures Rep(t, b, c.(trace := r.trace)) && ResultsIn(t, r.results)
  {
    hide Rep;
    RepBounds(s, b, c);
    assert t.mem == s.mem;
    RepTrace(s, b, c, t);
  }

  /** The transfer in the middle of a call, to an import or to a defined function. */
  lemma SimTransfer(
    m: Module, p: Program, env: Env, q: nat, f: nat, i: nat, s: Cpu, b: Anchor, c: Config, c1: Config, h: nat,
    fuel: nat)
    returns (n: nat, t: Cpu, results: seq<int>)
    requires Compilable(m) && Loaded(m, p) && EnvOk(m, env)
    requires OpOk(m, 0, Call(f)) && CodeAt(p.code, i, CallCode(m, f))
    requires EvalOp(m, env.oracle, q, Call(f), c, fuel).Done?
    requires c1 == c.(stack := c.stack[Resolved(m, f).value.params..])
    requires Rep(s, b, c1) && ArgsIn(s, Arguments(c.stack, Resolved(m, f).value.params))
    requires env.floor <= Sp(b, c1) - EvalOp(m, env.oracle, q, Call(f), c, fuel).value.need
    ensures var d := EvalOp(m, env.oracle, q, Call(f), c, fuel).value;
            && Run(p, env, State(At(i), s), n) == Some(State(At(i + |CallCode(m, f)|), t))
            && |results| == Carried(Resolved(m, f).value.results) && ResultsIn(t, results)
            && Rep(t, b, c1.(trace := d.trace))
            && d == Config(c.frame, PushedBack(results) + c1.stack, d.trace, d.need)
    ensures |c1.stack| <= h ==> Confined(p, env, i, s, n, b, h)
    decreases fuel, 0, 0
  {
    hide Rep, ExecAll, Run, Step, Loaded, EvalFunc, Confined;
    var ty := Resolved(m, f).value;
    var args := Arguments(c.stack, ty.params);
    if f < ImportCount(m) {
      LoadedSlot(m, p, f);
      t := SimExternal(m, p, env, f, i, s, b, c1, h, args);
      n := 2;
      var (a, e) := env.oracle(c.trace + [Event(f, args)]);
      results := [a, e][..Carried(ty.results)];
    } else {
      n, t := SimLocal(m, p, env, f, i, s, b, c1, h, args, fuel - 1);
      results := EvalFunc(m, env.oracle, f - ImportCount(m), args, c.trace, fuel - 1).value.results;
    }
  }

  lemma SimCall(
    m: Module, p: Program, env: Env, q: nat, locals: nat, f: nat, i: nat, s: Cpu, b: Anchor, c: Config, h: nat,
    fuel: nat)
    returns (n: nat, t: Cpu)
    requires Compilable(m) && Loaded(m, p) && EnvOk(m, env)
    requires OpOk(m, locals, Call(f)) && CodeAt(p.code, i, OpCode(m, q, locals, Call(f)))
    requires Rep(s, b, c) && EvalOp(m, env.oracle, q, Call(f), c, fuel).Done?
    requires var d := EvalOp(m, env.oracle, q, Call(f), c, fuel).value;
             |c.stack| <= h && |d.stack| <= h && Room(env, b, h, d.need)
    ensures Run(p, env, State(At(i), s), n) == Some(State(At(i + |OpCode(m, q, locals, Call(f))|), t))
    ensures Rep(t, b, EvalOp(m, env.oracle, q, Call(f), c, fuel).value)
    ensures Confined(p, env, i, s, n, b, h)
    decreases fuel, 0, 1
  {
    hide Rep, Run, Loaded, EvalOp, PopArgs, Resolved, CallCode, PushResults, Compilable, EnvOk, Confined;
    var ty := Resolved(m, f).value;
    OpParams(m, env.oracle, q, f, c, fuel);
    var d := EvalOp(m, env.oracle, q, Call(f), c, fuel).value;
    var pops, call, pushes := PopArgs(ty.params), CallCode(m, f), PushResults(ty.results);
    var c1 := c.(stack := c.stack[ty.params..]);
    CodeAtSplit(p.code, i, pops + call, pushes);
    CodeAtSplit(p.code, i, pops, call);
    var i1 := i + |pops|;
    var i2 := i1 + |call|;
    var s1 := SimPops(p, env, i, s, b, c, h, ty.params);
    var k, s2, results := SimTransfer(m, p, env, q, f, i1, s1, b, c, c1, h, fuel);
    t := SimPushes(p, env, i2, s2, b, c1.(trace := d.trace), h, ty.results, results);
    GoesOn(p, env, i, s, |pops|, i1, s1, k, i2, s2, b, h);
    GoesOn(p, env, i, s, |pops| + k, i2, s2, |pushes|, i2 + |pushes|, t, b, h);
    n := |pops| + k + |pushes|;
    RepNeed(t, b, c1.(trace := d.trace, stack := PushedBack(results) + c1.stack), d);
  }

  lemma GoesOn(p: Program, env: Env, i: nat, s: Cpu, m: nat, j: nat, t: Cpu, n: nat, k: nat, u: Cpu, b: Anchor, h: nat)
    requires Run(p, env, State(At(i), s), m) == Some(State(At(j), t)) && Confined(p, env, i, s, m, b, h)
    requires Run(p, env, State(At(j), t), n) == Some(State(At(k), u)) && Confined(p, env, j, t, n, b, h)
    ensures Run(p, env, State(At(i), s), m + n) == Some(State(At(k), u)) && Confined(p, env, i, s, m + n, b, h)
  {
    hide Run, Confined;
    RunCompose(p, env, State(At(i), s), m, State(At(j), t), n);
    ConfinedCompose(p, env, i, s, m, j, t, n, b, h);
  }

  lemma SimPops(p: Program, env: Env, i: nat, s: Cpu, b: Anchor, c: Config, h: nat, n: nat) returns (t: Cpu)
    requires n <= 6 && n <= |c.stack| <= h && Rep(s, b, c) && CodeAt(p.code, i, PopArgs(n))
    ensures Run(p, env, State(At(i), s), n) == Some(State(At(i + n), t)) && Confined(p, env, i, s, n, b, h)
    ensures Rep(t, b, c.(stack := c.stack[n..])) && ArgsIn(t, Arguments(c.stack, n))
  {
    hide Rep, ExecAll, Run, PopArgs, Confined, Valley, Rising;
    t := SimPopArgs(env, s, b, c, n);
    RunBlock(p, env, i, PopArgs(n), s, t);
    PopsRise(n);
    RisingIsValley(PopArgs(n));
    BlockConfined(p, env, i, PopArgs(n), s, t, b, c, c.(stack := c.stack[n..]), h);
  }

  lemma SimPushes(
    p: Program, env: Env, i: nat, s: Cpu, b: Anchor, c: Config, h: nat, r: nat, results: seq<int>)
    returns (t: Cpu)
    requires Rep(s, b, c) && ResultsIn(s, results) && |results| == Carried(r) && CodeAt(p.code, i, PushResults(r))
    requires |c.stack| + |results| <= h && Room(env, b, h, 0)
    ensures var n := |PushResults(r)|;
            Run(p, env, State(At(i), s), n) == Some(State(At(i + n), t)) && Confined(p, env, i, s, n, b, h)
    ensures Rep(t, b, c.(stack := PushedBack(results) + c.stack))
  {
    hide Rep, ExecAll, Run, PushResults, Confined, Valley;
    t := SimPushResults(env, s, b, c, h, r, results);
    RunBlock(p, env, i, PushResults(r), s, t);
    ResultsValley(r);
    BlockConfined(p, env, i, PushResults(r), s, t, b, c, c.(stack := PushedBack(results) + c.stack), h);
  }

  lemma ResultsValley(r: nat)
    ensures Valley(PushResults(r))
  {
    FallingIsValley(PushResults(r));
  }

  lemma OpParams(m: Module, oracle: Oracle, q: nat, f: nat, c: Config, fuel: nat)
    requires EvalOp(m, oracle, q, Call(f), c, fuel).Done?
    ensures Resolved(m, f).Some? && Resolved(m, f).value.params <= |c.stack|
  {
  }

  lemma LoadedSlot(m: Module, p: Program, f: nat)
    requires Compilable(m) && Loaded(m, p) && f < ImportCount(m)
    ensures SlotAt(p, ImportSlot(f))
  {
  }

  /** What calls needed is bookkeeping, not state. */
  lemma RepNeed(s: Cpu, b: Anchor, c: Config, d: Config)
    requires Rep(s, b, c) && d == c.(need := d.need)
    ensures Rep(s, b, d)
  {
  }

  // ----- bodies and functions -----

  /**
   Operand-stack simulation, for every prefix of a body: the machine arrives after the prefix's
   code representing exactly the configuration the prefix computes.
   */
  lemma {:induction false} SimOps(
    m: Module, p: Program, env: Env, q: nat, locals: nat, ops: seq<Op>, i: nat, s: Cpu, b: Anchor, c: Config, h: nat,
    fuel: nat)
    returns (n: nat, t: Cpu)
    requires Compilable(m) && Loaded(m, p) && EnvOk(m, env)
    requires OpsOk(m, locals, ops) && b.size == 8 * locals && q <= locals
    requires CodeAt(p.code, i, OpsCode(m, q, locals, ops))
    requires Rep(s, b, c) && c.stack == [] && EvalOps(m, env.oracle, q, ops, c, fuel).Done?
    requires Peak(Resolver(m), ops) <= h && Room(env, b, h, EvalOps(m, env.oracle, q, ops, c, fuel).value.need)
    ensures Run(p, env, State(At(i), s), n) == Some(State(At(i + |OpsCode(m, q, locals, ops)|), t))
    ensures Rep(t, b, EvalOps(m, env.oracle, q, ops, c, fuel).value)
    ensures Confined(p, env, i, s, n, b, h)
    decreases fuel, 1, |ops|
  {
    hide Rep, ExecAll, Run, Step, Loaded, EvalOp, OpCode, Confined, Valley;
    if ops == [] {
      n, t := 0, s;
      RunNone(p, env, State(At(i), s));
      ConfinedNone(p, env, i, s, b, h);
    } else {
      var init, op := ops[..|ops| - 1], ops[|ops| - 1];
      var e := EvalOps(m, env.oracle, q, init, c, fuel).value;
      var first, last := OpsCode(m, q, locals, init), OpCode(m, q, locals, op);
      OpsHeight(m, env.oracle, q, init, c, fuel);
      OpsHeight(m, env.oracle, q, ops, c, fuel);
      OpHeight(m, env.oracle, q, op, e, fuel, |e.stack|);
      CodeAtSplit(p.code, i, first, last);
      var k, s1 := SimOps(m, p, env, q, locals, init, i, s, b, c, h, fuel);
      var k2;
      k2, t := SimOp(m, p, env, q, locals, op, i + |first|, s1, b, e, h, fuel);
      GoesOn(p, env, i, s, k, i + |first|, s1, k2, i + |first| + |last|, t, b, h);
      n := k + k2;
    }
  }

  lemma SimOp(
    m: Module, p: Program, env: Env, q: nat, locals: nat, op: Op, i: nat, s: Cpu, b: Anchor, c: Config, h: nat,
    fuel: nat)
    returns (n: nat, t: Cpu)
    requires Compilable(m) && Loaded(m, p) && EnvOk(m, env)
    requires OpOk(m, locals, op) && b.size == 8 * locals && q <= locals
    requires CodeAt(p.code, i, OpCode(m, q, locals, op))
    requires Rep(s, b, c) && |c.stack| <= h && EvalOp(m, env.oracle, q, op, c, fuel).Done?
    requires var d := EvalOp(m, env.oracle, q, op, c, fuel).value; |d.stack| <= h && Room(env, b, h, d.need)
    ensures Run(p, env, State(At(i), s), n) == Some(State(At(i + |OpCode(m, q, locals, op)|), t))
    ensures Rep(t, b, EvalOp(m, env.oracle, q, op, c, fuel).value) && Confined(p, env, i, s, n, b, h)
    decreases fuel, 0, 2
  {
    hide Rep, ExecAll, Run, Loaded, EvalOp, OpCode, Confined, Valley, Compilable, EnvOk;
    if op.Call? {
      n, t := SimCall(m, p, env, q, locals, op.f, i, s, b, c, h, fuel);
    } else {
      var code, d := OpCode(m, q, locals, op), EvalOp(m, env.oracle, q, op, c, fuel).value;
      t := SimPlain(m, env, q, locals, op, s, b, c, h, fuel);
      RunBlock(p, env, i, code, s, t);
      n := |code|;
      PlainValley(m, q, locals, op);
      BlockConfined(p, env, i, code, s, t, b, c, d, h);
    }
  }

  lemma ConfinedNone(p: Program, env: Env, i: nat, s: Cpu, b: Anchor, h: nat)
    ensures Confined(p, env, i, s, 0, b, h)
  {
  }

  lemma RunNone(p: Program, env: Env, s: State)
    ensures Run(p, env, s, 0) == Some(s)
  {
  }

  /** Prologue: from the call to an empty operand stack with the arguments in their slots. */
  lemma SimEnter(m: Module, env: Env, j: nat, args: seq<int>, s: Cpu, sp: int, ret: Pc) returns (t: Cpu)
    requires j < |m.bodies| && BodyOk(m, j) && |args| == TypeOf(m, j).params
    requires Entered(s, sp, ret, args) && env.floor <= sp - 8 - LocalsSize(TypeOf(m, j), m.bodies[j])
    ensures var size := LocalsSize(TypeOf(m, j), m.bodies[j]);
            && ExecAll(env, Prologue(TypeOf(m, j), size), s) == Some(t)
            && Rep(t, Anchor(sp - 8, s.regs[RBP], size, s.mem), Config(EntryFrame(args, |args|), [], s.trace, 0))
  {
    hide Rep, ExecAll;
    var ty, size := TypeOf(m, j), LocalsSize(TypeOf(m, j), m.bodies[j]);
    var b := Anchor(sp - 8, s.regs[RBP], size, s.mem);
    var s1 := SimFrame(env, s, sp, ret, args, size);
    var c := Config(map[], [], s.trace, 0);
    t := SimStores(env, s1, b, c, args, |args|);
    var frame := [Push(RBP), MovRmR(R(RBP), RSP)] + (if size > 0 then [SubRspImm(size)] else []);
    ExecAllConcat(env, frame, StoreParams(ty.params, ty.params), s, s1);
  }

  /** The edges, then locals and parameters: rsp never lower than the locals. */
  lemma EnterConfined(p: Program, env: Env, i: nat, ty: FuncType, size: nat, s: Cpu, t: Cpu, bp: int, depth: nat)
    requires ty.params <= 6 && CodeAt(p.code, i, Prologue(ty, size)) && ExecAll(env, Prologue(ty, size), s) == Some(t)
    requires HasWord(s, RSP) && WordOf(s, RSP) == bp + 8 && StackIn(t, bp, depth)
    ensures RunIn(p, env, State(At(i), s), |Prologue(ty, size)|, bp, depth)
  {
    hide ExecAll, Run, RunIn, StoreParams, Exec, Valley;
    var edges, rest := [Push(RBP), MovRmR(R(RBP), RSP)],
      (if size > 0 then [SubRspImm(size)] else []) + StoreParams(ty.params, ty.params);
    assert Prologue(ty, size) == edges + rest;
    CodeAtSplit(p.code, i, edges, rest);
    var u := ExecAllSplit(env, edges, rest, s, t);
    var s1 := EdgeSteps(env, s, u, bp);
    StoresFall(ty.params, ty.params);
    FallingIsValley(rest);
    RunBlockIn(p, env, i + 2, rest, u, t, bp, depth);
    BlockStep(p, env, i, edges, s, s1);
    CodeAtSplit(p.code, i, [Push(RBP)], [MovRmR(R(RBP), RSP)]);
    BlockStep(p, env, i + 1, [MovRmR(R(RBP), RSP)], s1, u);
    RunInStep(p, env, State(At(i), s), bp, depth);
    RunInStep(p, env, State(At(i + 1), s1), bp, depth);
    RunInCompose(p, env, State(At(i + 1), s1), 1, State(At(i + 2), u), |rest|, bp, depth);
    RunInCompose(p, env, State(At(i), s), 1, State(At(i + 1), s1), 1 + |rest|, bp, depth);
  }

  lemma EdgeSteps(env: Env, s: Cpu, u: Cpu, bp: int) returns (s1: Cpu)
    requires ExecAll(env, [Push(RBP), MovRmR(R(RBP), RSP)], s) == Some(u) && HasWord(s, RSP) && WordOf(s, RSP) == bp + 8
    ensures Exec(env, Push(RBP), s) == Some(s1) && Exec(env, MovRmR(R(RBP), RSP), s1) == Some(u)
    ensures StackIn(u, bp, 0)
  {
    var edges := [Push(RBP), MovRmR(R(RBP), RSP)];
    s1 := Exec(env, edges[0], s).value;
    assert edges[1..] == [edges[1]] && edges[1..][1..] == [];
    assert ExecAll(env, edges[1..], s1) == Some(u);
    assert ExecAll(env, [], u) == Some(u);
    var u2 := Exec(env, edges[1], s1);
    assert u2.Some? && ExecAll(env, [], u2.value) == Some(u2.value);
  }

  lemma {:induction false} StoresFall(n: nat, k: nat)
    requires k <= n <= 6
    ensures Falling(StoreParams(n, k))
  {
    if k > 0 { StoresFall(n, k - 1); }
  }

  /** Results and locals go, the frame base is popped, and ret is an edge. */
  lemma ExitConfined(p: Program, env: Env, i: nat, ty: FuncType, size: nat, s: Cpu, t: Cpu, bp: int, depth: nat)
    requires CodeAt(p.code, i, Epilogue(ty, size)) && StackIn(s, bp, depth)
    requires ExecAll(env, Epilogue(ty, size)[..|Epilogue(ty, size)| - 1], s) == Some(t)
    ensures RunIn(p, env, State(At(i), s), |Epilogue(ty, size)|, bp, depth)
  {
    hide ExecAll, Run, RunIn, Exec;
    var up := PopResults(ty.results) + (if size > 0 then [AddRspImm(size)] else []) + [MovRmR(R(RSP), RBP)];
    var n := |up|;
    assert Epilogue(ty, size) == up + ([Pop(RBP)] + [Ret]);
    assert Epilogue(ty, size)[..n + 1] == up + [Pop(RBP)];
    CodeAtSplit(p.code, i, up, [Pop(RBP)] + [Ret]);
    var u := ExecAllSplit(env, up, [Pop(RBP)], s, t);
    RisingMoves(env, up, s, u);
    RunBlock(p, env, i, up, s, u);
    RunBlockIn(p, env, i, up, s, u, bp, depth);
    ReturnConfined(p, env, i + n, u, t, bp, depth);
    RunInCompose(p, env, State(At(i), s), n, State(At(i + n), u), 2, bp, depth);
  }

  lemma ReturnConfined(p: Program, env: Env, i: nat, s: Cpu, t: Cpu, bp: int, depth: nat)
    requires CodeAt(p.code, i, [Pop(RBP)] + [Ret]) && StackIn(s, bp, depth) && ExecAll(env, [Pop(RBP)], s) == Some(t)
    ensures RunIn(p, env, State(At(i), s), 2, bp, depth)
  {
    hide ExecAll, Run, RunIn, Exec;
    CodeAtSplit(p.code, i, [Pop(RBP)], [Ret]);
    RunBlock(p, env, i, [Pop(RBP)], s, t);
    RunInStep(p, env, State(At(i), s), bp, depth);
    RetIsEdge(p, i + 1);
    RunInStep(p, env, State(At(i + 1), t), bp, depth);
    RunInCompose(p, env, State(At(i), s), 1, State(At(i + 1), t), 1, bp, depth);
  }

  lemma RetIsEdge(p: Program, i: nat)
    requires CodeAt(p.code, i, [Ret])
    ensures i < |p.code| && p.code[i] == Ret
  {
    assert p.code[i] == p.code[i..i + 1][0];
  }

  /** Epilogue: from the final configuration back to the caller. */
  lemma SimExit(p: Program, env: Env, i: nat, ty: FuncType, s: Cpu, b: Anchor, c: Config, h: nat, ret: Pc)
    returns (n: nat, t: Cpu)
    requires CodeAt(p.code, i, Epilogue(ty, b.size)) && Rep(s, b, c) && |c.stack| >= Carried(ty.results)
    requires b.bp + 8 in b.outer && b.outer[b.bp + 8] == Code(ret) && |c.stack| <= h
    ensures Confined(p, env, i, s, n, b, h)
    ensures Run(p, env, State(At(i), s), n) == Some(State(ret, t))
    ensures HasWord(t, RSP) && WordOf(t, RSP) == b.bp + 16 && t.mem == Above(b.outer, b.bp + 16) && t.trace == c.trace
    ensures RBP in t.regs && t.regs[RBP] == (if 0 in c.frame then Word(c.frame[0]) else b.saved)
    ensures ResultsIn(t, c.stack[..Carried(ty.results)])
  {
    hide Rep, ExecAll, Run, Step, RunIn;
    var pops := PopResults(ty.results);
    var leave := (if b.size > 0 then [AddRspImm(b.size)] else []) + [MovRmR(R(RSP), RBP), Pop(RBP)];
    assert Epilogue(ty, b.size) == pops + leave + [Ret];
    CodeAtSplit(p.code, i, pops + leave, [Ret]);
    var s1 := SimPopResults(env, s, b, c, ty.results);
    var s2 := SimLeave(env, s1, b, c.(stack := c.stack[Carried(ty.results)..]));
    ExecAllConcat(env, pops, leave, s, s1);
    RunBlock(p, env, i, pops + leave, s, s2);
    var k := |pops + leave|;
    t := SimRet(p, env, i + k, s2, b.bp + 8, ret);
    RunCompose(p, env, State(At(i), s), k, State(At(i + k), s2), 1);
    n := k + 1;
    assert Epilogue(ty, b.size)[..k] == pops + leave;
    RepIn(s, b, c, h);
    ExitConfined(p, env, i, ty, b.size, s, s2, b.bp, b.size + 8 * h);
  }

  lemma SimRet(p: Program, env: Env, i: nat, s: Cpu, sp: int, ret: Pc) returns (t: Cpu)
    requires CodeAt(p.code, i, [Ret]) && HasWord(s, RSP) && WordOf(s, RSP) == sp && sp in s.mem
             && s.mem[sp] == Code(ret)
    ensures t == Release(s, sp + 8) && Run(p, env, State(At(i), s), 1) == Some(State(ret, t))
  {
    hide Exec, External;
    assert p.code[i] == p.code[i..i + 1][0] == Ret;
    t := Release(s, sp + 8);
    assert Step(p, env, State(At(i), s)) == Some(State(ret, t));
    assert Run(p, env, State(ret, t), 0) == Some(State(ret, t));
  }

  /**
   Function correctness: whenever the semantics gives an answer, the machine code entered at the
   function's label with the arguments in registers, and stack enough for the need computed,
   returns it to the caller.
   */
  lemma SimFunc(m: Module, p: Program, env: Env, j: nat, args: seq<int>, s: Cpu, sp: int, ret: Pc, fuel: nat)
    returns (n: nat, t: Cpu)
    requires Compilable(m) && Loaded(m, p) && EnvOk(m, env)
    requires EvalFunc(m, env.oracle, j, args, s.trace, fuel).Done? && Entered(s, sp, ret, args)
    requires env.floor <= sp - EvalFunc(m, env.oracle, j, args, s.trace, fuel).value.need
    ensures BodyAt(m, p, j)
    ensures Run(p, env, State(At(p.labels[BodyOf(ImportCount(m) + j)]), s), n) == Some(State(ret, t))
    ensures Returned(s, t, sp, EvalFunc(m, env.oracle, j, args, s.trace, fuel).value)
    ensures RunIn(p, env, State(At(p.labels[BodyOf(ImportCount(m) + j)]), s), n, sp - 8, FrameDepth(m, j))
    decreases fuel, 2, 0
  {
    hide Rep, ExecAll, Run, Step, Prologue, Epilogue, OpsCode, Loaded, EvalOps, RunIn, Height;
    LoadedBody(m, p, j);
    var ty, body := TypeOf(m, j), m.bodies[j];
    var locals, ops, start := LocalCount(ty, body), body.ops, State(At(p.labels[BodyOf(ImportCount(m) + j)]), s);
    var c := Config(EntryFrame(args, |args|), [], s.trace, 0);
    var d := EvalOps(m, env.oracle, ty.params, ops, c, fuel).value;
    var h := Peak(Resolver(m), ops);
    var k1, i1, s1, b := SimStart(m, p, env, j, args, s, sp, h, ret);
    var k2, s2 := SimOps(m, p, env, ty.params, locals, ops, i1, s1, b, c, h, fuel);
    OpsHeight(m, env.oracle, ty.params, ops, c, fuel);
    var i2 := i1 + |OpsCode(m, ty.params, locals, ops)|;
    var k3: nat;
    k3, t := SimExit(p, env, i2, ty, s2, b, d, h, ret);
    RunCompose(p, env, start, k1, State(At(i1), s1), k2);
    RunCompose(p, env, start, k1 + k2, State(At(i2), s2), k3);
    n := k1 + k2 + k3;
    ConfinedCompose(p, env, start.pc.i, s, k1, i1, s1, k2, b, h);
    ConfinedCompose(p, env, start.pc.i, s, k1 + k2, i2, s2, k3, b, h);
  }

  /** From a function's label to the start of its operators. */
  lemma SimStart(m: Module, p: Program, env: Env, j: nat, args: seq<int>, s: Cpu, sp: int, h: nat, ret: Pc)
    returns (n: nat, i: nat, t: Cpu, b: Anchor)
    requires j < |m.bodies| && BodyOk(m, j) && BodyAt(m, p, j) && |args| == TypeOf(m, j).params
    requires Entered(s, sp, ret, args) && env.floor <= sp - 8 - LocalsSize(TypeOf(m, j), m.bodies[j])
    ensures b == Anchor(sp - 8, s.regs[RBP], LocalsSize(TypeOf(m, j), m.bodies[j]), s.mem)
    ensures Run(p, env, State(At(p.labels[BodyOf(ImportCount(m) + j)]), s), n) == Some(State(At(i), t))
    ensures Rep(t, b, Config(EntryFrame(args, |args|), [], s.trace, 0))
    ensures var middle := OpsCode(m, TypeOf(m, j).params, LocalCount(TypeOf(m, j), m.bodies[j]), m.bodies[j].ops);
            CodeAt(p.code, i, middle) && CodeAt(p.code, i + |middle|, Epilogue(TypeOf(m, j), b.size))
    ensures Confined(p, env, p.labels[BodyOf(ImportCount(m) + j)], s, n, b, h)
  {
    hide Rep, ExecAll, Run, Step, Prologue, Epilogue, OpsCode, RunIn;
    var ty, body := TypeOf(m, j), m.bodies[j];
    var size, start := LocalsSize(ty, body), p.labels[BodyOf(ImportCount(m) + j)];
    b := Anchor(sp - 8, s.regs[RBP], size, s.mem);
    var enter, middle := Prologue(ty, size), OpsCode(m, ty.params, LocalCount(ty, body), body.ops);
    CodeAtSplit(p.code, start, enter + middle, Epilogue(ty, size));
    CodeAtSplit(p.code, start, enter, middle);
    t := SimEnter(m, env, j, args, s, sp, ret);
    RunBlock(p, env, start, enter, s, t);
    n, i := |enter|, start + |enter|;
    RepIn(t, b, Config(EntryFrame(args, |args|), [], s.trace, 0), h);
    EnterConfined(p, env, start, ty, size, s, t, b.bp, b.size + 8 * h);
  }

  lemma LoadedBody(m: Module, p: Program, j: nat)
    requires Compilable(m) && Loaded(m, p) && j < |m.bodies|
    ensures BodyAt(m, p, j)
  {
  }
}
