/**
 The operand stack height the compiler records per function: a bound at every step, attained, and
 enough to size stacks by.
 */
module StackHeights {
  import opened Base
  import opened X86
  import opened Wasm
  import opened Optimizer
  import opened Relocation
  import opened Shadowing
  import opened Streams
  import opened CodeGen
  import opened Placement
  import opened CodeSemantics
  import opened Simulation
  import opened CallSimulation
  import opened OwnFrame
  import opened Correctness
  import opened TypeLookup
  import opened EndToEnd

  /** The height the compiler records for code entry `j`: by declared types, as validation counts. */
  function RecordedHeight(m: Module, j: nat): nat
    requires j < |m.bodies|
  {
    Peak(Declarer(m), m.bodies[j].ops)
  }

  /** Saved rbp, return address, locals and recorded operand height of every function fit in `bytes`. */
  ghost predicate FramesFit(m: Module, bytes: nat)
    requires Compilable(m)
  {
    forall j :: 0 <= j < |m.bodies| ==> 16 + LocalsSize(TypeOf(m, j), m.bodies[j]) + 8 * RecordedHeight(m, j) <= bytes
  }

  lemma {:induction false} OpsNeed(m: Module, oracle: Oracle, bytes: nat, p: nat, ops: seq<Op>, c: Config, fuel: nat)
    requires Compilable(m) && TypesAgree(m) && FramesFit(m, bytes) && EvalOps(m, oracle, p, ops, c, fuel).Done?
    requires c.need <= 8 + fuel * bytes
    ensures EvalOps(m, oracle, p, ops, c, fuel).value.need <= 8 + fuel * bytes
    decreases fuel, 0, |ops|
  {
    hide TypesAgree, FramesFit, EvalFunc, EvalOp;
    if ops != [] {
      OpsNeed(m, oracle, bytes, p, ops[..|ops| - 1], c, fuel);
      var d, op := EvalOps(m, oracle, p, ops[..|ops| - 1], c, fuel).value, ops[|ops| - 1];
      if op.Call? && ImportCount(m) <= op.f {
        CalleeDone(m, oracle, p, op.f, d, fuel);
        StackSizedByHeights(m, oracle, bytes, op.f - ImportCount(m),
          Arguments(d.stack, Resolved(m, op.f).value.params), d.trace, fuel - 1);
        assert fuel * bytes == (fuel - 1 + 1) * bytes;
      }
      OpNeed(m, oracle, p, op, d, 8 + fuel * bytes, fuel);
    }
  }

  lemma CalleeDone(m: Module, oracle: Oracle, p: nat, f: nat, c: Config, fuel: nat)
    requires ImportCount(m) <= f && EvalOp(m, oracle, p, Call(f), c, fuel).Done?
    ensures fuel > 0 && Resolved(m, f).Some? && Resolved(m, f).value.params <= |c.stack|
    ensures EvalFunc(m, oracle, f - ImportCount(m), Arguments(c.stack, Resolved(m, f).value.params), c.trace,
            fuel - 1).Done?
  {
    hide EvalFunc;
  }

  lemma OpNeed(m: Module, oracle: Oracle, p: nat, op: Op, c: Config, most: nat, fuel: nat)
    requires EvalOp(m, oracle, p, op, c, fuel).Done? && c.need <= most && 8 <= most
    requires op.Call? && ImportCount(m) <= op.f ==>
               && fuel > 0 && Resolved(m, op.f).Some? && Resolved(m, op.f).value.params <= |c.stack|
               && var r := EvalFunc(m, oracle, op.f - ImportCount(m),
                  Arguments(c.stack, Resolved(m, op.f).value.params), c.trace, fuel - 1);
                  r.Done? && 8 + r.value.need <= most
    ensures EvalOp(m, oracle, p, op, c, fuel).value.need <= most
  {
    hide EvalFunc;
  }

  /**
   Sizing the stack by recorded heights: if every frame fits in `bytes`, a computation with calls
   nested at most `fuel` deep needs at most that many frames more than one.
   */
  lemma StackSizedByHeights(m: Module, oracle: Oracle, bytes: nat, j: nat, args: seq<int>, trace: seq<Event>, fuel: nat)
    requires Compilable(m) && TypesAgree(m) && FramesFit(m, bytes)
    requires EvalFunc(m, oracle, j, args, trace, fuel).Done?
    ensures EvalFunc(m, oracle, j, args, trace, fuel).value.need <= (fuel + 1) * bytes
    decreases fuel, 1, 0
  {
    hide EvalOps, EvalFunc, TypesAgree, Peak;
    NeedParts(m, oracle, j, args, trace, fuel);
    PeaksAgree(m, m.bodies[j].ops);
    OpsNeed(m, oracle, bytes, |args|, m.bodies[j].ops, Config(EntryFrame(args, |args|), [], trace, 0), fuel);
    assert (fuel + 1) * bytes == fuel * bytes + bytes;
  }

  /** Some prefix reaches the peak. */
  lemma {:induction false} PeakReached(sig: nat -> Option<FuncType>, ops: seq<Op>) returns (k: nat)
    ensures k <= |ops| && Height(sig, ops[..k]) == Peak(sig, ops)
  {
    if ops == [] || Height(sig, ops) >= Peak(sig, ops[..|ops| - 1]) {
      k := |ops|;
      assert ops[..k] == ops;
    } else {
      k := PeakReached(sig, ops[..|ops| - 1]);
      assert ops[..|ops| - 1][..k] == ops[..k];
    }
  }

  /** In code entry `j`'s frame for the call that found rsp at `sp`: past the edges, with rbp its base. */
  predicate InOwnFrame(p: Program, sp: int, u: State) {
    && u.pc.At? && u.pc.i < |p.code| && !IsEdge(p.code[u.pc.i])
    && HasWord(u.cpu, RBP) && WordOf(u.cpu, RBP) == sp - 8
  }

  /**
   The recorded height is a bound at every step: whenever the run of a call, callees and all, is in
   the frame of that call, rbp - rsp is at most the locals and the recorded number of operand words.
   (At the two instructions that set up a frame and at ret, rbp is still or again the caller's.)
   */
  lemma RecordedHeightBoundsEveryStep(m: Module, env: Env, j: nat, args: seq<int>, s: Cpu, sp: int, ret: Pc, fuel: nat)
    returns (n: nat, t: Cpu)
    requires Compilable(m) && TypesAgree(m) && EnvOk(m, env)
    requires EvalFunc(m, env.oracle, j, args, s.trace, fuel).Done? && Entered(s, sp, ret, args)
    requires env.floor <= sp - EvalFunc(m, env.oracle, j, args, s.trace, fuel).value.need
    ensures var l, p := BodyOf(ImportCount(m) + j), Unoptimized(m);
            && l in p.labels && Run(p, env, EnterAt(p, l, s), n) == Some(State(ret, t))
            && forall k: nat :: k < n ==> WithinHeight(m, env, p, EnterAt(p, l, s), k, j, sp)
  {
    hide Run, RunIn, EvalFunc, Loaded, TypesAgree, Returned, Unoptimized;
    UnoptimizedIsLoaded(m);
    var p, l := Unoptimized(m), BodyOf(ImportCount(m) + j);
    n, t := SimFunc(m, p, env, j, args, s, sp, ret, fuel);
    PeaksAgree(m, m.bodies[j].ops);
    forall k: nat | k < n ensures WithinHeight(m, env, p, EnterAt(p, l, s), k, j, sp) {
      StepWithin(m, env, p, EnterAt(p, l, s), n, k, j, sp);
    }
  }

  predicate WithinHeight(m: Module, env: Env, p: Program, s: State, k: nat, j: nat, sp: int)
    requires j < |m.bodies| && BodyOk(m, j)
  {
    && Run(p, env, s, k).Some?
    && var u := Run(p, env, s, k).value;
       InOwnFrame(p, sp, u) ==>
         && HasWord(u.cpu, RSP)
         && WordOf(u.cpu, RBP) - WordOf(u.cpu, RSP) <= LocalsSize(TypeOf(m, j), m.bodies[j]) + 8 * RecordedHeight(m, j)
  }

  lemma StepWithin(m: Module, env: Env, p: Program, s: State, n: nat, k: nat, j: nat, sp: int)
    requires j < |m.bodies| && BodyOk(m, j) && k < n && RunIn(p, env, s, n, sp - 8, FrameDepth(m, j))
    requires Peak(Declarer(m), m.bodies[j].ops) == Peak(Resolver(m), m.bodies[j].ops)
    ensures WithinHeight(m, env, p, s, k, j, sp)
  {
    hide Run, Peak;
    assert StepIn(p, env, s, k, sp - 8, FrameDepth(m, j));
  }

  /** In an optimised stream the edges are the instructions themselves: nothing is left to fuse or drop. */
  lemma NormalEdges(c: seq<Instr>, i: nat)
    requires NormalForm(c) && i < |c| && Edge(c, i)
    ensures IsEdge(c[i])
  {
    if i > 0 {
      var before := i - 1;
      assert !(c[before].Push? && c[before + 1].Pop?);
    }
  }

  /**
   The optimised code keeps to the recorded height as well: at every step of its run in which it is in
   the call's own frame, rbp - rsp is at most the locals and the recorded number of operand words.
   */
  lemma RecordedHeightBoundsOptimized(
    m: Module, env: Env, j: nat, args: seq<int>, s: Cpu, sp: int, ret: Pc, fuel: nat)
    returns (n: nat, t: Cpu)
    requires Compilable(m) && TypesAgree(m) && EnvOk(m, env)
    requires EvalFunc(m, env.oracle, j, args, s.trace, fuel).Done? && Entered(s, sp, ret, args) && ret.Exited?
             && Plain(s)
    requires env.floor <= sp - EvalFunc(m, env.oracle, j, args, s.trace, fuel).value.need
    ensures var l, q := BodyOf(ImportCount(m) + j), Optimized(m);
            && l in q.labels && Run(q, env, EnterAt(q, l, s), n) == Some(State(ret, t))
            && forall k: nat :: k < n ==> WithinHeight(m, env, q, EnterAt(q, l, s), k, j, sp)
  {
    hide Run, EvalFunc, TypesAgree, Returned, Unoptimized, Optimized, WithinHeight, EdgesOk;
    var original;
    n, t, original := CompiledCodeIsCorrect(m, env, j, args, s, sp, ret, fuel);
    var k, u := RecordedHeightBoundsEveryStep(m, env, j, args, s, sp, ret, fuel);
    var l, p, q := BodyOf(ImportCount(m) + j), Unoptimized(m), Optimized(m);
    var from, start := EnterAt(p, l, s), EnterAt(q, l, s);
    NotBeyondExit(p, env, from, k, original);
    EdgesAreFinal(m);
    forall i: nat | i < n ensures WithinHeight(m, env, q, start, i, j, sp) {
      assert Visited(p, env, from, original, q, start, i);
      var o: nat :| Looks(p, env, from, original, o, q, Run(q, env, start, i).value);
      if o < original { assert WithinHeight(m, env, p, from, o, j, sp); }
      HeightShared(m, env, p, from, original, o, q, start, i, j, sp);
    }
  }

  lemma EdgesAreFinal(m: Module)
    requires Compilable(m)
    ensures EdgesOk(Unoptimized(m).code) && NormalForm(Optimized(m).code)
  {
    StreamIsCalm(m, |m.bodies|);
    ChainEdgesOk(StreamOf(m, |m.bodies|));
    FixIsNormal(StreamOf(m, |m.bodies|), LabelsOf(m, |m.bodies|), 0);
  }

  /** The bound at a step of p is the bound at the step of q that looks like it. */
  lemma HeightShared(
    m: Module, env: Env, p: Program, s: State, n: nat, o: nat, q: Program, t: State, i: nat, j: nat, sp: int)
    requires j < |m.bodies| && BodyOk(m, j) && Leaves(p, env, s, n)
    requires Run(q, env, t, i).Some? && Looks(p, env, s, n, o, q, Run(q, env, t, i).value)
    requires EdgesOk(p.code) && NormalForm(q.code)
    requires o < n ==> WithinHeight(m, env, p, s, o, j, sp)
    ensures WithinHeight(m, env, q, t, i, j, sp)
  {
    hide Run, EdgesOk, NormalForm, Peak;
    var u, v := Run(q, env, t, i).value, Run(p, env, s, o).value;
    if InOwnFrame(q, sp, u) {
      if Edge(q.code, u.pc.i) { NormalEdges(q.code, u.pc.i); }
      assert Steady(p.code, v.pc);
    }
  }

  /** Nothing runs on after leaving the module. */
  lemma {:induction false} NotBeyondExit(p: Program, env: Env, s: State, k: nat, n: nat)
    requires Leaves(p, env, s, k) && Run(p, env, s, n).Some?
    ensures n <= k
    decreases k
  {
    if n > 0 && k > 0 { NotBeyondExit(p, env, Step(p, env, s).value, k - 1, n - 1); }
  }

  /**
   And it is the least bound: in a safe module whose types agree, the unoptimised code of every
   function comes to a point where its frame holds exactly that many operand words.
   */
  lemma RecordedHeightIsReached(m: Module, rank: nat -> nat, env: Env, j: nat, args: seq<int>, s: Cpu, sp: int, ret: Pc)
    returns (n: nat, t: State)
    requires Safe(m) && Ranked(m, rank) && TypesAgree(m) && EnvOk(m, env)
    requires j < |m.bodies| && |args| == TypeOf(m, j).params && Entered(s, sp, ret, args)
    requires EvalFunc(m, env.oracle, j, args, s.trace, rank(j)).Done? ==>
               env.floor <= sp - EvalFunc(m, env.oracle, j, args, s.trace, rank(j)).value.need
    ensures var l, p := BodyOf(ImportCount(m) + j), Unoptimized(m);
            l in p.labels && Run(p, env, EnterAt(p, l, s), n) == Some(t)
    ensures HasWord(t.cpu, RBP) && WordOf(t.cpu, RBP) == sp - 8
    ensures HasWord(t.cpu, RSP)
    ensures WordOf(t.cpu, RBP) - WordOf(t.cpu, RSP) == LocalsSize(TypeOf(m, j), m.bodies[j]) + 8 * RecordedHeight(m, j)
  {
    hide Rep, ExecAll, Run, Step, OpsCode, Loaded, Safe, Ranked, TypesAgree, EvalFunc, EvalOps, OpsOk, Compilable;
    SafeCompiles(m);
    var p, ty, body := Unoptimized(m), TypeOf(m, j), m.bodies[j];
    UnoptimizedIsLoaded(m);
    LoadedBody(m, p, j);
    FuncFinishes(m, rank, env.oracle, j, args, s.trace, rank(j));
    PeaksAgree(m, body.ops);
    var k := PeakReached(Resolver(m), body.ops);
    n, t := ReachPrefix(m, p, rank, env, j, args, s, sp, ret, k);
  }

  lemma PeaksAgree(m: Module, ops: seq<Op>)
    requires TypesAgree(m)
    ensures Peak(Declarer(m), ops) == Peak(Resolver(m), ops)
  {
    forall f: nat ensures Declarer(m)(f) == Resolver(m)(f) {
      assert Resolved(m, f) == Declared(m, f);
    }
    SameSignatures(Declarer(m), Resolver(m), ops);
  }

  /** The machine reaches the point after any prefix of a body, with the height that prefix gives. */
  lemma ReachPrefix(
    m: Module, p: Program, rank: nat -> nat, env: Env, j: nat, args: seq<int>, s: Cpu, sp: int, ret: Pc, k: nat)
    returns (n: nat, t: State)
    requires Safe(m) && Ranked(m, rank) && Loaded(m, p) && EnvOk(m, env)
    requires j < |m.bodies| && |args| == TypeOf(m, j).params && Entered(s, sp, ret, args) && k <= |m.bodies[j].ops|
    requires EvalFunc(m, env.oracle, j, args, s.trace, rank(j)).Done?
    requires env.floor <= sp - EvalFunc(m, env.oracle, j, args, s.trace, rank(j)).value.need
    ensures var l := BodyOf(ImportCount(m) + j);
            l in p.labels && Run(p, env, EnterAt(p, l, s), n) == Some(t)
    ensures HasWord(t.cpu, RBP) && WordOf(t.cpu, RBP) == sp - 8 && HasWord(t.cpu, RSP)
    ensures WordOf(t.cpu, RSP)
            == sp - 8 - LocalsSize(TypeOf(m, j), m.bodies[j]) - 8 * Height(Resolver(m), m.bodies[j].ops[..k])
  {
    hide Rep, ExecAll, Run, Step, Loaded, Safe, Ranked, EvalFunc, EvalOps, OpsCode, Compilable, Height, Peak, BodyAt;
    SafeCompiles(m);
    NeedParts(m, env.oracle, j, args, s.trace, rank(j));
    LoadedBody(m, p, j);
    BodyLabelled(m, p, j);
    var k1, i1, s1, b := SimStart(m, p, env, j, args, s, sp, 0, ret);
    var k2, t2 := RunPrefix(m, p, rank, env, j, args, s.trace, i1, s1, b, k);
    RunCompose(p, env, State(At(p.labels[BodyOf(ImportCount(m) + j)]), s), k1, State(At(i1), s1), k2);
    n, t := k1 + k2, t2;
  }

  lemma RunPrefix(
    m: Module, p: Program, rank: nat -> nat, env: Env, j: nat, args: seq<int>, trace: seq<Event>, i: nat, s: Cpu,
    b: Anchor, k: nat)
    returns (n: nat, t: State)
    requires Safe(m) && Ranked(m, rank) && Loaded(m, p) && EnvOk(m, env)
    requires j < |m.bodies| && |args| == TypeOf(m, j).params && k <= |m.bodies[j].ops|
    requires EvalFunc(m, env.oracle, j, args, trace, rank(j)).Done?
    requires b.size == LocalsSize(TypeOf(m, j), m.bodies[j])
    requires env.floor <= b.bp + 8 - EvalFunc(m, env.oracle, j, args, trace, rank(j)).value.need
    requires Rep(s, b, Config(EntryFrame(args, |args|), [], trace, 0))
    requires CodeAt(p.code, i, OpsCode(m, TypeOf(m, j).params, LocalCount(TypeOf(m, j), m.bodies[j]), m.bodies[j].ops))
    ensures Run(p, env, State(At(i), s), n) == Some(t)
    ensures HasWord(t.cpu, RBP) && WordOf(t.cpu, RBP) == b.bp && HasWord(t.cpu, RSP)
    ensures WordOf(t.cpu, RSP) == b.bp - b.size - 8 * Height(Resolver(m), m.bodies[j].ops[..k])
  {
    hide Rep, ExecAll, Run, Step, Loaded, Safe, Ranked, EvalFunc, EvalOps, OpsCode, DefinedAfter, Compilable, Height,
         Peak;
    SafeCompiles(m);
    NeedParts(m, env.oracle, j, args, trace, rank(j));
    var ty, body := TypeOf(m, j), m.bodies[j];
    var locals, ops := LocalCount(ty, body), body.ops;
    var prefix, c := ops[..k], Config(EntryFrame(args, |args|), [], trace, 0);
    PrefixCode(m, p, ty.params, locals, ops, i, k);
    OpsFinish(m, rank, env.oracle, j, args, prefix, trace, rank(j));
    PrefixNeed(m, env.oracle, ty.params, ops, k, c, rank(j));
    PeakPrefix(Resolver(m), ops, k);
    var s2;
    n, s2 := SimOps(m, p, env, ty.params, locals, prefix, i, s, b, c, Peak(Resolver(m), ops), rank(j));
    t := State(At(i + |OpsCode(m, ty.params, locals, prefix)|), s2);
    RepBounds(s2, b, EvalOps(m, env.oracle, ty.params, prefix, c, rank(j)).value);
  }

  lemma BodyLabelled(m: Module, p: Program, j: nat)
    requires j < |m.bodies| && BodyOk(m, j) && BodyAt(m, p, j)
    ensures BodyOf(ImportCount(m) + j) in p.labels
  {
  }

  lemma NeedParts(m: Module, oracle: Oracle, j: nat, args: seq<int>, trace: seq<Event>, fuel: nat)
    requires EvalFunc(m, oracle, j, args, trace, fuel).Done?
    ensures var ops, size := m.bodies[j].ops, LocalsSize(TypeOf(m, j), m.bodies[j]);
            var r := EvalOps(m, oracle, |args|, ops, Config(EntryFrame(args, |args|), [], trace, 0), fuel);
            && r.Done?
            && EvalFunc(m, oracle, j, args, trace, fuel).value.need == 8 + size + 8 * Peak(Resolver(m), ops)
               + r.value.need
  {
  }

  lemma {:induction false} PrefixCode(m: Module, p: Program, q: nat, locals: nat, ops: seq<Op>, i: nat, k: nat)
    requires OpsOk(m, locals, ops) && k <= |ops| && CodeAt(p.code, i, OpsCode(m, q, locals, ops))
    ensures CodeAt(p.code, i, OpsCode(m, q, locals, ops[..k]))
    decreases |ops|
  {
    if k == |ops| {
      assert ops[..k] == ops;
    } else {
      var init := ops[..|ops| - 1];
      CodeAtSplit(p.code, i, OpsCode(m, q, locals, init), OpCode(m, q, locals, ops[|ops| - 1]));
      PrefixCode(m, p, q, locals, init, i, k);
      assert init[..k] == ops[..k];
    }
  }

  lemma {:induction false} PrefixNeed(m: Module, oracle: Oracle, q: nat, ops: seq<Op>, k: nat, c: Config, fuel: nat)
    requires k <= |ops| && EvalOps(m, oracle, q, ops, c, fuel).Done?
    ensures EvalOps(m, oracle, q, ops[..k], c, fuel).Done?
    ensures EvalOps(m, oracle, q, ops[..k], c, fuel).value.need <= EvalOps(m, oracle, q, ops, c, fuel).value.need
    decreases |ops|
  {
    if k == |ops| {
      assert ops[..k] == ops;
    } else {
      var init := ops[..|ops| - 1];
      PrefixNeed(m, oracle, q, init, k, c, fuel);
      assert init[..k] == ops[..k];
      var d := EvalOps(m, oracle, q, init, c, fuel).value;
      OpHeight(m, oracle, q, ops[|ops| - 1], d, fuel, |d.stack|);
    }
  }

  lemma {:induction false} PeakPrefix(sig: nat -> Option<FuncType>, ops: seq<Op>, k: nat)
    requires k <= |ops|
    ensures Peak(sig, ops[..k]) <= Peak(sig, ops)
    decreases |ops|
  {
    if k == |ops| {
      assert ops[..k] == ops;
    } else {
      PeakPrefix(sig, ops[..|ops| - 1], k);
      assert ops[..|ops| - 1][..k] == ops[..k];
    }
  }
}
