/** The whole compiler: optimised code from the final label table against the operator semantics. */
module EndToEnd {
  import opened Base
  import opened X86
  import opened Wasm
  import opened Optimizer
  import opened Relocation
  import opened Shadowing
  import opened Streams
  import opened CodeGen
  import opened Placement
  import opened CodeSemantics
  import opened CallSimulation
  import opened OwnFrame
  import opened Correctness

  /**
   End-to-end correctness.  For every module the compiler accepts and every function of it:
   whenever the operator semantics gives an answer, the optimised code entered from outside at the
   function's label, with the arguments in registers and stack enough for the recorded heights of
   the calls made, leaves the module with the results in rax and rdx, rsp just past the return
   address, all memory above it unchanged, the same external calls made, and rbp restored unless
   the function itself stored over it.  On the way it passes through no machine state that the
   unoptimised code does not pass through.
   */
  lemma CompiledCodeIsCorrect(m: Module, env: Env, j: nat, args: seq<int>, s: Cpu, sp: int, ret: Pc, fuel: nat)
    returns (n: nat, t: Cpu, original: nat)
    requires Compilable(m) && EnvOk(m, env)
    requires EvalFunc(m, env.oracle, j, args, s.trace, fuel).Done?
    requires Entered(s, sp, ret, args) && ret.Exited? && Plain(s)
    requires env.floor <= sp - EvalFunc(m, env.oracle, j, args, s.trace, fuel).value.need
    ensures var l, p := BodyOf(ImportCount(m) + j), Optimized(m);
            l in p.labels && Run(p, env, EnterAt(p, l, s), n) == Some(State(ret, t))
    ensures Returned(s, t, sp, EvalFunc(m, env.oracle, j, args, s.trace, fuel).value)
    ensures var l, p, q := BodyOf(ImportCount(m) + j), Unoptimized(m), Optimized(m);
            && l in p.labels && n <= original && Leaves(p, env, EnterAt(p, l, s), original)
            && Shadowed(p, env, EnterAt(p, l, s), original, q, EnterAt(q, l, s), n)
  {
    hide Run, Chain, Anchored, LabelMap, Fix, EvalFunc, Loaded, StreamOf, LabelsOf, SameCpu, Returned, FuncCode,
         RunIn, Shadowed;
    var code, labels, l := StreamOf(m, |m.bodies|), LabelsOf(m, |m.bodies|), BodyOf(ImportCount(m) + j);
    UnoptimizedIsLoaded(m);
    StreamIsCalm(m, |m.bodies|);
    StreamAnchored(m, |m.bodies|);
    var t0;
    original, t0 := SimFunc(m, Unoptimized(m), env, j, args, s, sp, ret, fuel);
    var end;
    n, end := FixPreservesRuns(code, labels, env, l, s, original);
    t := end.cpu;
    ReturnedSame(s, t0, t, sp, EvalFunc(m, env.oracle, j, args, s.trace, fuel).value);
  }

  lemma ReturnedSame(s: Cpu, t: Cpu, u: Cpu, sp: int, r: Answer)
    requires Plain(s) && Returned(s, t, sp, r) && SameCpu(t, u)
    ensures Returned(s, u, sp, r)
  {
    forall a | a in t.mem ensures a in u.mem && u.mem[a] == t.mem[a] {
      assert a in s.mem && t.mem[a] == s.mem[a];
    }
    assert u.mem == t.mem;
  }

  // ----- the frame pointer -----

  /** The function sets its first declared local and has no parameters: that slot is the saved rbp. */
  predicate StoresOverLink(m: Module, j: nat)
    requires j < |m.bodies| && BodyOk(m, j)
  {
    TypeOf(m, j).params == 0 && LocalSet(0) in m.bodies[j].ops
  }

  lemma {:induction false} EntryFrameKeys(args: seq<int>, k: nat)
    requires k <= |args|
    ensures forall o :: o in EntryFrame(args, k) <==> o % 8 == 0 && 8 <= o <= 8 * k
  {
    if k > 0 { EntryFrameKeys(args, k - 1); }
  }

  lemma OpLinkSlot(m: Module, oracle: Oracle, p: nat, op: Op, c: Config, fuel: nat)
    requires EvalOp(m, oracle, p, op, c, fuel).Done?
    ensures 0 in EvalOp(m, oracle, p, op, c, fuel).value.frame <==> 0 in c.frame || (p == 0 && op == LocalSet(0))
  {
    hide EvalFunc;
  }

  lemma {:induction false} LinkSlot(m: Module, oracle: Oracle, p: nat, ops: seq<Op>, c: Config, fuel: nat)
    requires EvalOps(m, oracle, p, ops, c, fuel).Done? && 0 !in c.frame
    ensures 0 in EvalOps(m, oracle, p, ops, c, fuel).value.frame <==> p == 0 && LocalSet(0) in ops
    decreases |ops|
  {
    hide EvalOp, EvalFunc;
    if ops != [] {
      var init, op := ops[..|ops| - 1], ops[|ops| - 1];
      LinkSlot(m, oracle, p, init, c, fuel);
      OpLinkSlot(m, oracle, p, op, EvalOps(m, oracle, p, init, c, fuel).value, fuel);
      assert ops == init + [op];
    }
  }

  /**
   The caller's rbp survives a call from outside if and only if the function does not store over
   its link slot, or what it stored last happens to be that rbp.  Whether it stores there can be
   read off its type and operators.
   */
  lemma FramePointerRestoredIff(m: Module, env: Env, j: nat, args: seq<int>, s: Cpu, t: Cpu, sp: int, fuel: nat)
    requires Compilable(m) && EvalFunc(m, env.oracle, j, args, s.trace, fuel).Done?
    requires Returned(s, t, sp, EvalFunc(m, env.oracle, j, args, s.trace, fuel).value)
    ensures var r := EvalFunc(m, env.oracle, j, args, s.trace, fuel).value;
            && (0 in r.frame <==> StoresOverLink(m, j))
            && (t.regs[RBP] == s.regs[RBP] <==> !StoresOverLink(m, j) || s.regs[RBP] == Word(r.frame[0]))
  {
    var ty, b := TypeOf(m, j), m.bodies[j];
    EntryFrameKeys(args, |args|);
    LinkSlot(m, env.oracle, ty.params, b.ops, Config(EntryFrame(args, |args|), [], s.trace, 0), fuel);
  }

  // ----- when the semantics does give an answer -----

  /** Slots holding a word after some operators, given those that did before. */
  function DefinedAfter(p: nat, ops: seq<Op>): set<nat> {
    if ops == [] then set k | 1 <= k <= p :: 8 * k
    else
      var before, op := DefinedAfter(p, ops[..|ops| - 1]), ops[|ops| - 1];
      if op.LocalSet? then before + {LocalOffset(p, op.i)} else before
  }

  /** Operands an operator pops. */
  function Pops(m: Module, op: Op): int {
    match op
    case I64Add => 2
    case I64Sub => 2
    case LocalSet(_) => 1
    case Call(f) => if Resolved(m, f).Some? then Resolved(m, f).value.params else 0
    case _ => 0
  }

  /** Operator `k` finds its operands, and reads only slots that were stored to. */
  predicate OpSafe(m: Module, p: nat, ops: seq<Op>, k: nat)
    requires k < |ops|
  {
    var op := ops[k];
    && Pops(m, op) <= Height(Resolver(m), ops[..k])
    && (op.LocalGet? ==> LocalOffset(p, op.i) in DefinedAfter(p, ops[..k]))
    && (op.Call? ==> Resolved(m, op.f).Some? && Resolved(m, op.f).value.results <= 2)
    && (op.Call? ==> op.f < ImportCount(m) + |m.bodies|)
  }

  /** What validation ensures, plus: locals set before they are read, and never over the link. */
  predicate Safe(m: Module) {
    && Compilable(m)
    && forall j :: 0 <= j < |m.bodies| ==> SafeBody(m, j)
  }

  predicate SafeBody(m: Module, j: nat)
    requires j < |m.bodies| && BodyOk(m, j)
  {
    var ops := m.bodies[j].ops;
    && TypeOf(m, j).results <= 2
    && Height(Resolver(m), ops) == TypeOf(m, j).results
    && !StoresOverLink(m, j)
    && forall k :: 0 <= k < |ops| ==> OpSafe(m, TypeOf(m, j).params, ops, k)
  }

  /** Calls go down in rank: no recursion (which, without branches, would never end). */
  predicate Ranked(m: Module, rank: nat -> nat) {
    forall j, k :: 0 <= j < |m.bodies| && 0 <= k < |m.bodies[j].ops| ==>
      CallRanked(m, rank, j, m.bodies[j].ops[k])
  }

  predicate CallRanked(m: Module, rank: nat -> nat, j: nat, op: Op) {
    op.Call? && ImportCount(m) <= op.f ==> rank(op.f - ImportCount(m)) < rank(j)
  }

  lemma {:induction false} EntryDefined(args: seq<int>)
    ensures EntryFrame(args, |args|).Keys == DefinedAfter(|args|, [])
  {
    EntryFrameKeys(args, |args|);
    forall o: nat ensures o in EntryFrame(args, |args|) <==> o in DefinedAfter(|args|, []) {
      if o in EntryFrame(args, |args|) { assert o == 8 * (o / 8); }
    }
  }

  /** Progress through a body. */
  lemma {:induction false} OpsFinish(
    m: Module, rank: nat -> nat, oracle: Oracle, j: nat, args: seq<int>, ops: seq<Op>, trace: seq<Event>, fuel: nat)
    requires Safe(m) && Ranked(m, rank) && j < |m.bodies| && |args| == TypeOf(m, j).params
    requires ops <= m.bodies[j].ops && fuel >= rank(j)
    ensures var r := EvalOps(m, oracle, |args|, ops, Config(EntryFrame(args, |args|), [], trace, 0), fuel);
            r.Done? && |r.value.stack| == Height(Resolver(m), ops) && r.value.frame.Keys == DefinedAfter(|args|, ops)
    decreases fuel, 1, |ops|
  {
    hide EvalOp, EvalFunc, Safe, Ranked;
    var c := Config(EntryFrame(args, |args|), [], trace, 0);
    if ops == [] {
      EntryDefined(args);
    } else {
      var k := |ops| - 1;
      var init, op := ops[..k], ops[k];
      OpsFinish(m, rank, oracle, j, args, init, trace, fuel);
      SafeOp(m, rank, j, k);
      assert m.bodies[j].ops[k] == op && m.bodies[j].ops[..k] == init;
      var d := EvalOps(m, oracle, |args|, init, c, fuel).value;
      if op.Call? && ImportCount(m) <= op.f {
        FuncFinishes(m, rank, oracle, op.f - ImportCount(m), Arguments(d.stack, Resolved(m, op.f).value.params),
          d.trace, fuel - 1);
      }
      OpFinishes(m, oracle, |args|, op, d, fuel);
    }
  }

  lemma SafeOp(m: Module, rank: nat -> nat, j: nat, k: nat)
    requires Safe(m) && Ranked(m, rank) && j < |m.bodies| && k < |m.bodies[j].ops|
    ensures BodyOk(m, j) && OpSafe(m, TypeOf(m, j).params, m.bodies[j].ops, k)
    ensures CallRanked(m, rank, j, m.bodies[j].ops[k])
    ensures var op := m.bodies[j].ops[k];
            op.Call? && ImportCount(m) <= op.f ==>
              BodyOk(m, op.f - ImportCount(m)) && TypeOf(m, op.f - ImportCount(m)) == Resolved(m, op.f).value
  {
    assert SafeBody(m, j);
  }

  lemma OpFinishes(m: Module, oracle: Oracle, p: nat, op: Op, d: Config, fuel: nat)
    requires Pops(m, op) <= |d.stack| && (op.LocalGet? ==> LocalOffset(p, op.i) in d.frame)
    requires op.Call? ==> Resolved(m, op.f).Some? && Resolved(m, op.f).value.results <= 2
    requires op.Call? && ImportCount(m) <= op.f ==>
               fuel > 0 &&
               var r := EvalFunc(m, oracle, op.f - ImportCount(m), Arguments(d.stack, Resolved(m, op.f).value.params),
                 d.trace, fuel - 1);
               r.Done? && 0 !in r.value.frame
    ensures var r := EvalOp(m, oracle, p, op, d, fuel);
            && r.Done? && |r.value.stack| == HeightAfter(Resolver(m), op, |d.stack|)
            && r.value.frame.Keys == if op.LocalSet? then d.frame.Keys + {LocalOffset(p, op.i)} else d.frame.Keys
  {
    hide EvalFunc;
  }

  /** Every function of a safe module without recursion has an answer, on every input. */
  lemma FuncFinishes(m: Module, rank: nat -> nat, oracle: Oracle, j: nat, args: seq<int>, trace: seq<Event>, fuel: nat)
    requires Safe(m) && Ranked(m, rank) && j < |m.bodies| && |args| == TypeOf(m, j).params && fuel >= rank(j)
    ensures EvalFunc(m, oracle, j, args, trace, fuel).Done?
    ensures 0 !in EvalFunc(m, oracle, j, args, trace, fuel).value.frame
    decreases fuel, 2, 0
  {
    var ops := m.bodies[j].ops;
    OpsFinish(m, rank, oracle, j, args, ops, trace, fuel);
    assert SafeBody(m, j);
    EntryFrameKeys(args, |args|);
    LinkSlot(m, oracle, |args|, ops, Config(EntryFrame(args, |args|), [], trace, 0), fuel);
  }

  // ----- exactly when the semantics gives an answer -----

  /** Signatures as calls see them: two registers carry results. */
  function CarriedSig(m: Module): nat -> Option<FuncType> {
    (f: nat) =>
      if Resolved(m, f).Some?
      then Some(FuncType(Resolved(m, f).value.params, Carried(Resolved(m, f).value.results))) else None
  }

  /** If the operator is a call inside the module, it comes back with the caller's frame intact. */
  predicate CalleeFinishes(m: Module, oracle: Oracle, op: Op, c: Config, fuel: nat) {
    op.Call? && ImportCount(m) <= op.f && Resolved(m, op.f).Some? && Resolved(m, op.f).value.params <= |c.stack| ==>
      && fuel > 0
      && var r := EvalFunc(m, oracle, op.f - ImportCount(m), Arguments(c.stack, Resolved(m, op.f).value.params),
         c.trace, fuel - 1);
         r.Done? && 0 !in r.value.frame
  }

  predicate FinishesAt(m: Module, oracle: Oracle, p: nat, ops: seq<Op>, c: Config, fuel: nat, k: nat)
    requires k < |ops|
  {
    var d := EvalOps(m, oracle, p, ops[..k], c, fuel);
    d.Done? ==> CalleeFinishes(m, oracle, ops[k], d.value, fuel)
  }

  /** Every call that is reached does. */
  predicate CalleesFinish(m: Module, oracle: Oracle, p: nat, ops: seq<Op>, c: Config, fuel: nat) {
    forall k :: 0 <= k < |ops| ==> FinishesAt(m, oracle, p, ops, c, fuel, k)
  }

  /** Operator `k` has its operands, and what it reads was stored. */
  predicate OpReady(m: Module, p: nat, ops: seq<Op>, k: nat)
    requires k < |ops|
  {
    && Pops(m, ops[k]) <= Height(CarriedSig(m), ops[..k])
    && (ops[k].LocalGet? ==> LocalOffset(p, ops[k].i) in DefinedAfter(p, ops[..k]))
  }

  predicate OpsReady(m: Module, p: nat, ops: seq<Op>) {
    forall k :: 0 <= k < |ops| ==> OpReady(m, p, ops, k)
  }

  lemma OpDoneIff(m: Module, oracle: Oracle, p: nat, op: Op, d: Config, fuel: nat)
    requires CalleeFinishes(m, oracle, op, d, fuel) && (op.Call? ==> Resolved(m, op.f).Some?)
    ensures var r := EvalOp(m, oracle, p, op, d, fuel);
            && (r.Done? <==> Pops(m, op) <= |d.stack| && (op.LocalGet? ==> LocalOffset(p, op.i) in d.frame))
            && (r.Done? ==>
                && |r.value.stack| == HeightAfter(CarriedSig(m), op, |d.stack|)
                && r.value.frame.Keys == if op.LocalSet? then d.frame.Keys + {LocalOffset(p, op.i)} else d.frame.Keys)
  {
    hide EvalFunc;
    if op.Call? && ImportCount(m) <= op.f && Pops(m, op) <= |d.stack| {
      var r := EvalFunc(m, oracle, op.f - ImportCount(m), Arguments(d.stack, Pops(m, op)), d.trace, fuel - 1).value;
      assert BodyOk(m, op.f - ImportCount(m)) && TypeOf(m, op.f - ImportCount(m)) == Resolved(m, op.f).value;
    }
  }

  lemma ReadyPrefix(m: Module, p: nat, ops: seq<Op>)
    requires ops != []
    ensures var init, k := ops[..|ops| - 1], |ops| - 1;
            OpsReady(m, p, ops) <==> OpsReady(m, p, init) && OpReady(m, p, ops, k)
  {
    hide OpReady;
    var init, k := ops[..|ops| - 1], |ops| - 1;
    forall i | 0 <= i < k ensures OpReady(m, p, init, i) == OpReady(m, p, ops, i) {
      SameReady(m, p, ops, i);
    }
  }

  lemma SameReady(m: Module, p: nat, ops: seq<Op>, i: nat)
    requires i + 1 < |ops|
    ensures OpReady(m, p, ops[..|ops| - 1], i) == OpReady(m, p, ops, i)
  {
    assert ops[..|ops| - 1][..i] == ops[..i];
  }

  /** A body whose reached calls finish runs to its end exactly when each operator is ready. */
  lemma {:induction false} OpsFinishIff(
    m: Module, oracle: Oracle, args: seq<int>, locals: nat, ops: seq<Op>, trace: seq<Event>, fuel: nat)
    requires OpsOk(m, locals, ops)
    requires CalleesFinish(m, oracle, |args|, ops, Config(EntryFrame(args, |args|), [], trace, 0), fuel)
    ensures var r := EvalOps(m, oracle, |args|, ops, Config(EntryFrame(args, |args|), [], trace, 0), fuel);
            && (r.Done? <==> OpsReady(m, |args|, ops))
            && (r.Done? ==>
                  |r.value.stack| == Height(CarriedSig(m), ops) && r.value.frame.Keys == DefinedAfter(|args|, ops))
    decreases |ops|
  {
    hide EvalOp, EvalFunc, CalleeFinishes, OpsReady;
    var c, p := Config(EntryFrame(args, |args|), [], trace, 0), |args|;
    if ops == [] {
      EntryDefined(args);
      assert OpsReady(m, p, ops) by { NothingReady(m, p); }
    } else {
      var k := |ops| - 1;
      var init, op := ops[..k], ops[k];
      forall i | 0 <= i < k ensures FinishesAt(m, oracle, p, init, c, fuel, i) {
        assert FinishesAt(m, oracle, p, ops, c, fuel, i) && init[..i] == ops[..i];
      }
      OpsFinishIff(m, oracle, args, locals, init, trace, fuel);
      ReadyPrefix(m, p, ops);
      var d := EvalOps(m, oracle, p, init, c, fuel);
      if d.Done? {
        assert FinishesAt(m, oracle, p, ops, c, fuel, k) && OpOk(m, locals, ops[k]);
        OpDoneIff(m, oracle, p, op, d.value, fuel);
      }
    }
  }

  lemma NothingReady(m: Module, p: nat)
    ensures OpsReady(m, p, [])
  {
  }

  /**
   When a function's reached calls finish, it has an answer if and only if every operator finds its
   operands, every local.get reads a slot that a parameter or an earlier local.set filled, and the
   results are there at the end.
   */
  lemma FinishesIff(m: Module, oracle: Oracle, j: nat, args: seq<int>, trace: seq<Event>, fuel: nat)
    requires j < |m.bodies| && BodyOk(m, j) && |args| == TypeOf(m, j).params
    requires CalleesFinish(m, oracle, |args|, m.bodies[j].ops, Config(EntryFrame(args, |args|), [], trace, 0), fuel)
    ensures EvalFunc(m, oracle, j, args, trace, fuel).Done? <==>
            && OpsReady(m, |args|, m.bodies[j].ops)
            && Carried(TypeOf(m, j).results) <= Height(CarriedSig(m), m.bodies[j].ops)
  {
    hide EvalOps, OpsReady;
    OpsFinishIff(m, oracle, args, LocalCount(TypeOf(m, j), m.bodies[j]), m.bodies[j].ops, trace, fuel);
  }

  lemma SafeCompiles(m: Module)
    requires Safe(m)
    ensures Compilable(m) && forall j :: 0 <= j < |m.bodies| ==> BodyOk(m, j)
  {
  }

  /**
   Total correctness.  In a safe module without recursion every call from outside, on every
   argument list, comes back: the machine code finishes with the answer and rbp restored.
   */
  lemma EveryCallReturns(m: Module, rank: nat -> nat, env: Env, j: nat, args: seq<int>, s: Cpu, sp: int, ret: Pc)
    returns (r: Answer, n: nat, t: Cpu)
    requires Safe(m) && Ranked(m, rank) && EnvOk(m, env) && j < |m.bodies| && |args| == TypeOf(m, j).params
    requires Entered(s, sp, ret, args) && ret.Exited? && Plain(s)
    ensures EvalFunc(m, env.oracle, j, args, s.trace, rank(j)) == Done(r)
    ensures env.floor <= sp - r.need ==>
              var l, p := BodyOf(ImportCount(m) + j), Optimized(m);
              && l in p.labels && Run(p, env, EnterAt(p, l, s), n) == Some(State(ret, t))
              && Returned(s, t, sp, r) && t.regs[RBP] == s.regs[RBP]
  {
    hide Run, Optimized, EvalFunc, Safe, Ranked, Shadowed, Unoptimized;
    SafeCompiles(m);
    FuncFinishes(m, rank, env.oracle, j, args, s.trace, rank(j));
    r := EvalFunc(m, env.oracle, j, args, s.trace, rank(j)).value;
    if env.floor <= sp - r.need {
      var original;
      n, t, original := CompiledCodeIsCorrect(m, env, j, args, s, sp, ret, rank(j));
    } else {
      n, t := 0, s;
    }
  }
}
