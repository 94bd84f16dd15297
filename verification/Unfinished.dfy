/**
 Computations that do not finish.  Without branches a function that calls itself never answers; what
 can be said of it is what it does meanwhile.  For every depth of calls, the external calls that the
 operator semantics makes before it would go deeper are made by the machine, in the same order.
 */
module Unfinished {
  import opened Base
  import opened X86
  import opened Wasm
  import opened Streams
  import opened CodeGen
  import opened Placement
  import opened CodeSemantics
  import opened Simulation
  import opened CallSimulation
  import opened Correctness
  import opened StackHeights
  import opened Hardware
  import opened BoundCode

  // ----- recursion -----

  /** Some operator of function `j` calls into `cycle`. */
  predicate CallsInto(m: Module, cycle: set<nat>, j: nat) {
    j < |m.bodies| && exists k :: 0 <= k < |m.bodies[j].ops| && IsCallInto(m, cycle, m.bodies[j].ops[k])
  }

  predicate IsCallInto(m: Module, cycle: set<nat>, op: Op) {
    op.Call? && ImportCount(m) <= op.f && op.f - ImportCount(m) in cycle
  }

  lemma {:induction false} DoneBefore(m: Module, oracle: Oracle, p: nat, ops: seq<Op>, c: Config, k: nat, fuel: nat)
    returns (d: Config)
    requires k < |ops| && EvalOps(m, oracle, p, ops, c, fuel).Done?
    ensures EvalOp(m, oracle, p, ops[k], d, fuel).Done?
    decreases |ops|
  {
    hide EvalOp;
    if k == |ops| - 1 {
      d := EvalOps(m, oracle, p, ops[..k], c, fuel).value;
    } else {
      d := DoneBefore(m, oracle, p, ops[..|ops| - 1], c, k, fuel);
    }
  }

  /** Functions that all call one another, directly or in a circle, never answer, whatever the depth. */
  lemma {:induction false} CyclesNeverAnswer(
    m: Module, oracle: Oracle, cycle: set<nat>, j: nat, args: seq<int>, trace: seq<Event>, fuel: nat)
    requires j in cycle && forall i :: i in cycle ==> CallsInto(m, cycle, i)
    ensures !EvalFunc(m, oracle, j, args, trace, fuel).Done?
    decreases fuel
  {
    hide EvalFunc, CallsInto;
    if EvalFunc(m, oracle, j, args, trace, fuel).Done? {
      var i, passed, calls := CallInside(m, oracle, cycle, j, args, trace, fuel);
      CyclesNeverAnswer(m, oracle, cycle, i, passed, calls, fuel - 1);
    }
  }

  lemma CallInside(m: Module, oracle: Oracle, cycle: set<nat>, j: nat, args: seq<int>, trace: seq<Event>, fuel: nat)
    returns (i: nat, passed: seq<int>, calls: seq<Event>)
    requires CallsInto(m, cycle, j) && EvalFunc(m, oracle, j, args, trace, fuel).Done?
    ensures i in cycle && fuel > 0 && EvalFunc(m, oracle, i, passed, calls, fuel - 1).Done?
  {
    hide EvalFunc, EvalOps, EvalOp;
    var ops := m.bodies[j].ops;
    var c := Config(EntryFrame(args, |args|), [], trace, 0);
    BodyDone(m, oracle, j, args, trace, fuel);
    var k :| 0 <= k < |ops| && IsCallInto(m, cycle, ops[k]);
    var d := DoneBefore(m, oracle, |args|, ops, c, k, fuel);
    var f := ops[k].f;
    CalleeDone(m, oracle, |args|, f, d, fuel);
    i, passed, calls := f - ImportCount(m), Arguments(d.stack, Resolved(m, f).value.params), d.trace;
  }

  lemma BodyDone(m: Module, oracle: Oracle, j: nat, args: seq<int>, trace: seq<Event>, fuel: nat)
    requires EvalFunc(m, oracle, j, args, trace, fuel).Done?
    ensures j < |m.bodies|
    ensures EvalOps(m, oracle, |args|, m.bodies[j].ops, Config(EntryFrame(args, |args|), [], trace, 0), fuel).Done?
  {
    hide EvalOps;
  }

  // ----- what is done meanwhile -----

  /** Where a computation is when it runs out of depth: the calls made and the stack used. */
  datatype Pending = Pending(trace: seq<Event>, need: nat)

  /** The call that runs out, and the callee's share if the depth was used up inside it. */
  function CallPending(m: Module, oracle: Oracle, f: nat, c: Config, fuel: nat): Pending
    requires ImportCount(m) <= f && Resolved(m, f).Some? && Resolved(m, f).value.params <= |c.stack|
    requires fuel > 0 ==>
               EvalFunc(
                 m, oracle, f - ImportCount(m), Arguments(c.stack, Resolved(m, f).value.params), c.trace,
                 fuel - 1).OutOfFuel?
    decreases fuel, 0, 0
  {
    if fuel == 0 then Pending(c.trace, c.need)
    else
      var args := Arguments(c.stack, Resolved(m, f).value.params);
      var r := FuncPending(m, oracle, f - ImportCount(m), args, c.trace, fuel - 1);
      Pending(r.trace, Max(c.need, 8 + r.need))
  }

  function OpsPending(m: Module, oracle: Oracle, p: nat, ops: seq<Op>, c: Config, fuel: nat): Pending
    requires EvalOps(m, oracle, p, ops, c, fuel).OutOfFuel?
    decreases fuel, 1, |ops|
  {
    var init := ops[..|ops| - 1];
    match EvalOps(m, oracle, p, init, c, fuel)
    case OutOfFuel => OpsPending(m, oracle, p, init, c, fuel)
    case Done(d) =>
      OutOfFuelIsCall(m, oracle, p, ops[|ops| - 1], d, fuel);
      CallPending(m, oracle, ops[|ops| - 1].f, d, fuel)
  }

  function FuncPending(m: Module, oracle: Oracle, j: nat, args: seq<int>, trace: seq<Event>, fuel: nat): Pending
    requires EvalFunc(m, oracle, j, args, trace, fuel).OutOfFuel?
    decreases fuel, 2, 0
  {
    var t, b := TypeOf(m, j), m.bodies[j];
    var r := OpsPending(m, oracle, t.params, b.ops, Config(EntryFrame(args, |args|), [], trace, 0), fuel);
    Pending(r.trace, 8 + LocalsSize(t, b) + 8 * Peak(Resolver(m), b.ops) + r.need)
  }

  lemma OutOfFuelIsCall(m: Module, oracle: Oracle, p: nat, op: Op, c: Config, fuel: nat)
    requires EvalOp(m, oracle, p, op, c, fuel).OutOfFuel?
    ensures op.Call? && ImportCount(m) <= op.f && Resolved(m, op.f).Some? && Resolved(m, op.f).value.params <= |c.stack|
    ensures fuel > 0 ==>
              EvalFunc(
                m, oracle, op.f - ImportCount(m), Arguments(c.stack, Resolved(m, op.f).value.params), c.trace,
                fuel - 1).OutOfFuel?
  {
    hide EvalFunc;
  }

  // ----- the machine gets there -----

  /** The call in the middle of which the depth runs out. */
  lemma CallPendingRuns(
    m: Module, p: Program, env: Env, q: nat, locals: nat, f: nat, i: nat, s: Cpu, b: Anchor, c: Config, h: nat,
    fuel: nat)
    returns (n: nat, t: State)
    requires Compilable(m) && Loaded(m, p) && EnvOk(m, env)
    requires OpOk(m, locals, Call(f)) && CodeAt(p.code, i, OpCode(m, q, locals, Call(f)))
    requires Rep(s, b, c) && |c.stack| <= h && EvalOp(m, env.oracle, q, Call(f), c, fuel).OutOfFuel?
    requires ImportCount(m) <= f && Resolved(m, f).value.params <= |c.stack|
    requires fuel > 0 ==>
               EvalFunc(
                 m, env.oracle, f - ImportCount(m), Arguments(c.stack, Resolved(m, f).value.params), c.trace,
                 fuel - 1).OutOfFuel?
    requires Room(env, b, h, CallPending(m, env.oracle, f, c, fuel).need)
    ensures Run(p, env, State(At(i), s), n) == Some(t)
    ensures t.cpu.trace == CallPending(m, env.oracle, f, c, fuel).trace
    decreases fuel, 0, 0
  {
    hide Rep, Run, Loaded, EvalOp, EvalFunc, Resolved, OpCode, Compilable, EnvOk, BodyOk;
    if fuel == 0 {
      n, t := 0, State(At(i), s);
      RunNone(p, env, t);
      RepTraceIs(s, b, c);
    } else {
      var ty, j := Resolved(m, f).value, f - ImportCount(m);
      var args, c1 := Arguments(c.stack, ty.params), c.(stack := c.stack[ty.params..]);
      PendingBody(m, env.oracle, j, args, c.trace, fuel - 1);
      var steps, s2 := CallReaches(m, p, env, q, locals, f, i, s, b, c, h);
      var k;
      k, t := FuncPendingRuns(m, p, env, j, args, s2, Sp(b, c1) - 8, At(i + ty.params + 1), fuel - 1);
      RunCompose(p, env, State(At(i), s), steps, EnterAt(p, BodyOf(f), s2), k);
      n := steps + k;
    }
  }

  /** From a call to the first instruction of the function called. */
  lemma CallReaches(
    m: Module, p: Program, env: Env, q: nat, locals: nat, f: nat, i: nat, s: Cpu, b: Anchor, c: Config, h: nat)
    returns (n: nat, t: Cpu)
    requires Compilable(m) && Loaded(m, p) && OpOk(m, locals, Call(f))
    requires ImportCount(m) <= f < ImportCount(m) + |m.bodies| && BodyOk(m, f - ImportCount(m))
    requires CodeAt(p.code, i, OpCode(m, q, locals, Call(f))) && Resolved(m, f).value.params <= |c.stack| <= h
    requires Rep(s, b, c) && Room(env, b, h, 8)
    ensures BodyOf(f) in p.labels && Run(p, env, State(At(i), s), n) == Some(EnterAt(p, BodyOf(f), t))
    ensures var ty := Resolved(m, f).value;
            && Entered(
                 t, Sp(b, c.(stack := c.stack[ty.params..])) - 8, At(i + ty.params + 1), Arguments(c.stack, ty.params))
            && t.trace == c.trace
  {
    hide Rep, Run, Loaded, Resolved, OpCode, Compilable, Confined, BodyOk, BodyAt, Entered, ArgsIn, CodeAt, Arguments;
    var ty := Resolved(m, f).value;
    var args, c1, i1 := Arguments(c.stack, ty.params), c.(stack := c.stack[ty.params..]), i + ty.params;
    LoadedBody(m, p, f - ImportCount(m));
    CallSplits(m, p, q, locals, f, i);
    var s1 := SimPops(p, env, i, s, b, c, h, ty.params);
    t := CallStep(m, p, env, f, i1, s1, b, c1, args);
    RunCompose(p, env, State(At(i), s), ty.params, State(At(i1), s1), 1);
    n := ty.params + 1;
  }

  lemma CallSplits(m: Module, p: Program, q: nat, locals: nat, f: nat, i: nat)
    requires OpOk(m, locals, Call(f)) && ImportCount(m) <= f && CodeAt(p.code, i, OpCode(m, q, locals, Call(f)))
    ensures var n := Resolved(m, f).value.params;
            CodeAt(p.code, i, PopArgs(n)) && CodeAt(p.code, i + n, [CallLabel(BodyOf(f))])
  {
    hide PopArgs, PushResults, Resolved, CodeAt;
    var ty := Resolved(m, f).value;
    CodeAtSplit(p.code, i, PopArgs(ty.params) + CallCode(m, f), PushResults(ty.results));
    CodeAtSplit(p.code, i, PopArgs(ty.params), CallCode(m, f));
  }

  lemma CallStep(m: Module, p: Program, env: Env, f: nat, i: nat, s: Cpu, b: Anchor, c: Config, args: seq<int>)
    returns (t: Cpu)
    requires ImportCount(m) <= f < ImportCount(m) + |m.bodies| && BodyOk(m, f - ImportCount(m))
    requires BodyAt(m, p, f - ImportCount(m)) && CodeAt(p.code, i, [CallLabel(BodyOf(f))])
    requires Rep(s, b, c) && ArgsIn(s, args) && env.floor <= Sp(b, c) - 8
    ensures BodyOf(f) in p.labels && Run(p, env, State(At(i), s), 1) == Some(EnterAt(p, BodyOf(f), t))
    ensures Entered(t, Sp(b, c) - 8, At(i + 1), args) && t.trace == c.trace
  {
    hide Rep, Run, Step, BodyOk, FuncCode, Entered, ArgsIn, PushVal;
    t := CallEnters(m, p, env, f, i, s, b, c, args);
    RunFirst(p, env, State(At(i), s), EnterAt(p, BodyOf(f), t), 0);
    RunNone(p, env, EnterAt(p, BodyOf(f), t));
  }

  lemma RepTraceIs(s: Cpu, b: Anchor, c: Config)
    requires Rep(s, b, c)
    ensures s.trace == c.trace
  {
  }

  lemma PendingBody(m: Module, oracle: Oracle, j: nat, args: seq<int>, trace: seq<Event>, fuel: nat)
    requires EvalFunc(m, oracle, j, args, trace, fuel).OutOfFuel?
    ensures j < |m.bodies| && BodyOk(m, j) && |args| == TypeOf(m, j).params
    ensures EvalOps(
              m, oracle, |args|, m.bodies[j].ops, Config(EntryFrame(args, |args|), [], trace, 0), fuel).OutOfFuel?
  {
    hide EvalOps;
  }

  /** Through the operators before it. */
  lemma {:induction false} OpsPendingRuns(
    m: Module, p: Program, env: Env, q: nat, locals: nat, ops: seq<Op>, i: nat, s: Cpu, b: Anchor, c: Config, h: nat,
    fuel: nat)
    returns (n: nat, t: State)
    requires Compilable(m) && Loaded(m, p) && EnvOk(m, env)
    requires OpsOk(m, locals, ops) && b.size == 8 * locals && q <= locals
    requires CodeAt(p.code, i, OpsCode(m, q, locals, ops))
    requires Rep(s, b, c) && c.stack == [] && EvalOps(m, env.oracle, q, ops, c, fuel).OutOfFuel?
    requires Peak(Resolver(m), ops) <= h && Room(env, b, h, OpsPending(m, env.oracle, q, ops, c, fuel).need)
    ensures Run(p, env, State(At(i), s), n) == Some(t)
    ensures t.cpu.trace == OpsPending(m, env.oracle, q, ops, c, fuel).trace
    decreases fuel, 1, |ops|
  {
    hide Rep, Run, Step, Loaded, EvalOp, OpCode, Confined, Compilable, EnvOk, CallPending;
    var init, op := ops[..|ops| - 1], ops[|ops| - 1];
    var first := OpsCode(m, q, locals, init);
    CodeAtSplit(p.code, i, first, OpCode(m, q, locals, op));
    if EvalOps(m, env.oracle, q, init, c, fuel).OutOfFuel? {
      n, t := OpsPendingRuns(m, p, env, q, locals, init, i, s, b, c, h, fuel);
    } else {
      var d := EvalOps(m, env.oracle, q, init, c, fuel).value;
      OutOfFuelIsCall(m, env.oracle, q, op, d, fuel);
      NeedSoFar(m, env.oracle, op.f, d, fuel);
      OpsHeight(m, env.oracle, q, init, c, fuel);
      var k, s1 := SimOps(m, p, env, q, locals, init, i, s, b, c, h, fuel);
      var k2;
      k2, t := CallPendingRuns(m, p, env, q, locals, op.f, i + |first|, s1, b, d, h, fuel);
      RunCompose(p, env, State(At(i), s), k, State(At(i + |first|), s1), k2);
      n := k + k2;
    }
  }

  lemma NeedSoFar(m: Module, oracle: Oracle, f: nat, c: Config, fuel: nat)
    requires ImportCount(m) <= f && Resolved(m, f).Some? && Resolved(m, f).value.params <= |c.stack|
    requires fuel > 0 ==>
               EvalFunc(
                 m, oracle, f - ImportCount(m), Arguments(c.stack, Resolved(m, f).value.params), c.trace,
                 fuel - 1).OutOfFuel?
    ensures c.need <= CallPending(m, oracle, f, c, fuel).need
  {
    hide EvalFunc, FuncPending;
  }

  /**
   The machine code of a function that runs out of depth, entered with stack enough for that depth,
   comes to a point where it has made exactly the external calls made until then.
   */
  lemma FuncPendingRuns(
    m: Module, p: Program, env: Env, j: nat, args: seq<int>, s: Cpu, sp: int, ret: Pc, fuel: nat)
    returns (n: nat, t: State)
    requires Compilable(m) && Loaded(m, p) && EnvOk(m, env)
    requires EvalFunc(m, env.oracle, j, args, s.trace, fuel).OutOfFuel? && Entered(s, sp, ret, args)
    requires env.floor <= sp - FuncPending(m, env.oracle, j, args, s.trace, fuel).need
    ensures var l := BodyOf(ImportCount(m) + j); l in p.labels && Run(p, env, EnterAt(p, l, s), n) == Some(t)
    ensures t.cpu.trace == FuncPending(m, env.oracle, j, args, s.trace, fuel).trace
    decreases fuel, 2, 0
  {
    hide Rep, Run, Step, OpsCode, Loaded, EvalOps, OpsPending, Height, Confined, Epilogue;
    PendingBody(m, env.oracle, j, args, s.trace, fuel);
    LoadedBody(m, p, j);
    var ty, body := TypeOf(m, j), m.bodies[j];
    var locals, ops, start := LocalCount(ty, body), body.ops, State(At(p.labels[BodyOf(ImportCount(m) + j)]), s);
    var c, h := Config(EntryFrame(args, |args|), [], s.trace, 0), Peak(Resolver(m), body.ops);
    var k1, i1, s1, b := SimStart(m, p, env, j, args, s, sp, h, ret);
    var k2;
    k2, t := OpsPendingRuns(m, p, env, ty.params, locals, ops, i1, s1, b, c, h, fuel);
    RunCompose(p, env, start, k1, State(At(i1), s1), k2);
    n := k1 + k2;
  }

  /** And so does the optimised code. */
  lemma UnfinishedCallsHappen(
    m: Module, env: Env, j: nat, args: seq<int>, s: Cpu, sp: int, ret: Pc, fuel: nat)
    returns (n: nat, t: State)
    requires Compilable(m) && EnvOk(m, env)
    requires EvalFunc(m, env.oracle, j, args, s.trace, fuel).OutOfFuel? && Entered(s, sp, ret, args) && Plain(s)
    requires env.floor <= sp - FuncPending(m, env.oracle, j, args, s.trace, fuel).need
    ensures var l, p := BodyOf(ImportCount(m) + j), Optimized(m);
            l in p.labels && Run(p, env, EnterAt(p, l, s), n) == Some(t)
    ensures t.cpu.trace == FuncPending(m, env.oracle, j, args, s.trace, fuel).trace
  {
    hide Run, Chain, Anchored, EvalFunc, FuncPending, Loaded, StreamOf, LabelsOf, FuncCode, BodiesOk;
    var code, labels, l := StreamOf(m, |m.bodies|), LabelsOf(m, |m.bodies|), BodyOf(ImportCount(m) + j);
    UnoptimizedIsLoaded(m);
    StreamIsCalm(m, |m.bodies|);
    StreamAnchored(m, |m.bodies|);
    var k, u := FuncPendingRuns(m, Unoptimized(m), env, j, args, s, sp, ret, fuel);
    LabelMapEntries(labels, l);
    n, t := FixPreservesRuns(code, labels, env, l, s, k);
  }

  /** And the finished object's code, on every run of the raw machine. */
  lemma EveryUnfinishedRunCalls(
    m: Module, env: Env, j: nat, args: seq<int>, s: Cpu, sp: int, ret: Pc, fuel: nat)
    returns (n: nat)
    requires Compilable(m) && EnvOk(m, env)
    requires EvalFunc(m, env.oracle, j, args, s.trace, fuel).OutOfFuel? && Entered(s, sp, ret, args) && Plain(s)
    requires env.floor <= sp - FuncPending(m, env.oracle, j, args, s.trace, fuel).need
    ensures var p, l := ObjectProgram(m), BodyOf(ImportCount(m) + j);
            && l in p.labels
            && EveryRunCalls(p, env, EnterAt(p, l, s), n, FuncPending(m, env.oracle, j, args, s.trace, fuel).trace)
  {
    hide Run, EvalFunc, FuncPending, OptimizedCode, OptimizedLabels, EveryRunCalls, BodiesOk, LabelMap, Place;
    var k, u := UnfinishedCallsHappen(m, env, j, args, s, sp, ret, fuel);
    var l := BodyOf(ImportCount(m) + j);
    n := BoundRuns(OptimizedCode(m), OptimizedLabels(m), env, EnterAt(Optimized(m), l, s), k);
    PlainPlaced(OptimizedCode(m), OptimizedLabels(m), s);
    var p := ObjectProgram(m);
    RawRunsCall(p, env, EnterAt(p, l, s), n, Run(p, env, EnterAt(p, l, s), n).value);
  }
}
