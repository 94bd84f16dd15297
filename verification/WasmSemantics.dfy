/**
 How what the emitted code computes relates to the WebAssembly Core Specification.  The
 specification's evaluator works on local indices, passes arguments in order, zeroes declared locals
 and subtracts the top of the stack from the value beneath it.  The code computes exactly that
 meaning of the module's mirror image: parameters counted from the other end, operands of i64.sub
 and pairs of results exchanged.
 */
module WasmSemantics {
  import opened Base
  import opened X86
  import opened Wasm
  import opened CodeGen
  import opened Placement
  import opened Streams
  import opened CodeSemantics
  import opened CallSimulation
  import opened Correctness
  import opened TypeLookup
  import opened EndToEnd

  /** `Standard` is the specification; `Reversed` exchanges the operands of i64.sub and two results. */
  datatype Dialect = Standard | Reversed

  datatype SpecConfig = SpecConfig(locals: seq<int>, stack: seq<int>, trace: seq<Event>)

  /** Results top first. */
  datatype SpecAnswer = SpecAnswer(results: seq<int>, trace: seq<Event>)

  function Difference(d: Dialect, top: int, next: int): int {
    if d.Standard? then Wrap(next - top) else Wrap(top - next)
  }

  /** The results of a call, put back on the caller's stack. */
  function Delivered(d: Dialect, results: seq<int>): seq<int> {
    if d.Reversed? && |results| == 2 then [results[1], results[0]] else results
  }

  function SpecOp(m: Module, d: Dialect, oracle: Oracle, op: Op, c: SpecConfig, fuel: nat): Outcome<SpecConfig>
    decreases fuel, 0, 0
  {
    match op
    case I64Const(v) => Done(c.(stack := [Wrap(v)] + c.stack))
    case I64Add => if |c.stack| < 2 then Stuck else Done(c.(stack := [Wrap(c.stack[1] + c.stack[0])] + c.stack[2..]))
    case I64Sub => if |c.stack| < 2 then Stuck
      else Done(c.(stack := [Difference(d, c.stack[0], c.stack[1])] + c.stack[2..]))
    case Nop => Done(c)
    case End => Done(c)
    case LocalGet(i) => if i < |c.locals| then Done(c.(stack := [c.locals[i]] + c.stack)) else Stuck
    case LocalSet(i) =>
      if i < |c.locals| && |c.stack| >= 1 then Done(c.(locals := c.locals[i := c.stack[0]], stack := c.stack[1..]))
      else Stuck
    case Call(f) =>
      if Declared(m, f).None? || |c.stack| < Declared(m, f).value.params then Stuck
      else if f < ImportCount(m)
        && Declared(m, f).value.results > 2 then Stuck  // an environment answers with two words
      else
        var t := Declared(m, f).value;
        var args, rest := Arguments(c.stack, t.params), c.stack[t.params..];
        if f < ImportCount(m) then
          // First result in rax, second in rdx: the second ends on top.
          var trace := c.trace + [Event(f, args)];
          var (a, e) := oracle(trace);
          Done(SpecConfig(c.locals, (if t.results == 0 then [] else if t.results == 1 then [a] else [e, a]) + rest,
            trace))
        else if fuel == 0 then OutOfFuel
        else
          match SpecFunc(m, d, oracle, f - ImportCount(m), args, c.trace, fuel - 1)
          case Done(r) => Done(SpecConfig(c.locals, Delivered(d, r.results) + rest, r.trace))
          case Stuck => Stuck
          case OutOfFuel => OutOfFuel
  }

  function SpecOps(m: Module, d: Dialect, oracle: Oracle, ops: seq<Op>, c: SpecConfig, fuel: nat): Outcome<SpecConfig>
    decreases fuel, 1, |ops|
  {
    if ops == [] then Done(c)
    else
      match SpecOps(m, d, oracle, ops[..|ops| - 1], c, fuel)
      case Done(e) => SpecOp(m, d, oracle, ops[|ops| - 1], e, fuel)
      case Stuck => Stuck
      case OutOfFuel => OutOfFuel
  }

  function Zeros(n: nat): (r: seq<int>)
    ensures |r| == n
  {
    seq(n, _ => 0)
  }

  function SpecFunc(
    m: Module, d: Dialect, oracle: Oracle, j: nat, args: seq<int>, trace: seq<Event>, fuel: nat): Outcome<SpecAnswer>
    decreases fuel, 2, 0
  {
    var declared := Declared(m, ImportCount(m) + j);
    if j >= |m.bodies| || declared.None? || |args| != declared.value.params then Stuck
    else
      var locals := args + Zeros(Sum(m.bodies[j].groups));
      match SpecOps(m, d, oracle, m.bodies[j].ops, SpecConfig(locals, [], trace), fuel)
      case Done(c) =>
        var n := declared.value.results;
        if |c.stack| < n then Stuck else Done(SpecAnswer(c.stack[..n], c.trace))
      case Stuck => Stuck
      case OutOfFuel => OutOfFuel
  }

  // ----- the mirror image -----

  /** Parameters counted from the other end. */
  function MirrorIndex(p: nat, i: nat): nat {
    if i < p then p - 1 - i else i
  }

  function MirrorOp(p: nat, op: Op): Op {
    match op
    case LocalGet(i) => LocalGet(MirrorIndex(p, i))
    case LocalSet(i) => LocalSet(MirrorIndex(p, i))
    case _ => op
  }

  function MirrorOps(p: nat, ops: seq<Op>): (r: seq<Op>)
    ensures |r| == |ops|
  {
    seq(|ops|, k requires 0 <= k < |ops| => MirrorOp(p, ops[k]))
  }

  function MirrorBody(m: Module, j: nat): Body
    requires j < |m.bodies|
  {
    var t := Declared(m, ImportCount(m) + j);
    if t.Some? then m.bodies[j].(ops := MirrorOps(t.value.params, m.bodies[j].ops)) else m.bodies[j]
  }

  function Mirror(m: Module): Module {
    m.(bodies := seq(|m.bodies|, j requires 0 <= j < |m.bodies| => MirrorBody(m, j)))
  }

  lemma {:induction false} MirrorImports(m: Module, k: nat)
    requires k <= |m.imports|
    ensures ImportTypes(Mirror(m), k) == ImportTypes(m, k)
  {
    if k > 0 { MirrorImports(m, k - 1); }
  }

  lemma MirrorTypes(m: Module)
    ensures ImportCount(Mirror(m)) == ImportCount(m)
    ensures forall f: nat :: Declared(Mirror(m), f) == Declared(m, f)
  {
    MirrorImports(m, |m.imports|);
  }

  /**
   Which of the two locals that share a slot, the last parameter and the first declared local, was
   set last; the parameter, if neither was.  (Without parameters the local has no rival.)
   */
  function Owner(p: nat, ops: seq<Op>): (i: nat)
    ensures i == p - 1 || i == p
  {
    if p == 0 then 0
    else if ops == [] then p - 1
    else
      var op := ops[|ops| - 1];
      if op == LocalSet(p - 1) || op == LocalSet(p) then op.i else Owner(p, ops[..|ops| - 1])
  }

  /** After `done`, local `i`'s slot holds local `i`'s value. */
  predicate OwnSlot(p: nat, done: seq<Op>, i: nat) {
    p > 0 && (i == p - 1 || i == p) ==> Owner(p, done) == i
  }

  /** Every read finds the slot in the hands of the local it reads. */
  predicate ReadsOwn(p: nat, ops: seq<Op>) {
    forall k :: 0 <= k < |ops| && ops[k].LocalGet? ==> OwnSlot(p, ops[..k], ops[k].i)
  }

  /** No function has more than `n` results. */
  ghost predicate ResultsUpTo(m: Module, n: nat) {
    forall f: nat :: Declared(m, f).Some? ==> Declared(m, f).value.results <= n
  }

  /** What the comparison needs of a module. */
  ghost predicate Comparable(m: Module, d: Dialect) {
    && Compilable(m) && TypesAgree(m) && ResultsUpTo(m, 2)
    && (forall j :: 0 <= j < |m.bodies| ==> ReadsOwn(TypeOf(m, j).params, m.bodies[j].ops))
    && (d.Standard? ==>
          && ResultsUpTo(m, 1)
          && (forall j :: 0 <= j < |m.bodies| ==> I64Sub !in m.bodies[j].ops))
  }

  /** Defined slots hold the mirrored local, for every local that owns its slot. */
  ghost predicate Mirrored(p: nat, done: seq<Op>, frame: Frame, locals: seq<int>)
    requires p <= |locals|
  {
    forall i: nat :: i < |locals| && OwnSlot(p, done, i) && LocalOffset(p, i) in frame ==>
      locals[MirrorIndex(p, i)] == frame[LocalOffset(p, i)]
  }

  lemma {:induction false} EntrySlots(args: seq<int>, n: nat, k: nat)
    requires n <= |args| && 1 <= k <= n
    ensures 8 * k in EntryFrame(args, n) && EntryFrame(args, n)[8 * k] == args[|args| - k]
  {
    if k < n { EntrySlots(args, n - 1, k); }
  }

  lemma EntryMirrored(p: nat, args: seq<int>, extra: nat)
    requires p == |args|
    ensures Mirrored(p, [], EntryFrame(args, p), args + Zeros(extra))
  {
    EntryFrameKeys(args, p);
    var locals := args + Zeros(extra);
    forall i: nat | i < |locals| && OwnSlot(p, [], i) && LocalOffset(p, i) in EntryFrame(args, p)
      ensures locals[MirrorIndex(p, i)] == EntryFrame(args, p)[LocalOffset(p, i)] {
      assert i < p;
      EntrySlots(args, p, i + 1);
    }
  }

  lemma OwnerAfter(p: nat, done: seq<Op>, op: Op)
    requires p > 0
    ensures Owner(p, done + [op]) == if op == LocalSet(p - 1) || op == LocalSet(p) then op.i else Owner(p, done)
  {
    assert (done + [op])[..|done|] == done;
  }

  lemma SetMirrored(p: nat, done: seq<Op>, frame: Frame, locals: seq<int>, i: nat, v: int)
    requires p <= |locals| && Mirrored(p, done, frame, locals) && i < |locals|
    ensures Mirrored(p, done + [LocalSet(i)], frame[LocalOffset(p, i) := v], locals[MirrorIndex(p, i) := v])
  {
    hide Owner;
    if p > 0 { OwnerAfter(p, done, LocalSet(i)); }
    var done', frame', locals' := done + [LocalSet(i)], frame[LocalOffset(p, i) := v], locals[MirrorIndex(p, i) := v];
    forall x: nat | x < |locals'| && OwnSlot(p, done', x) && LocalOffset(p, x) in frame'
      ensures locals'[MirrorIndex(p, x)] == frame'[LocalOffset(p, x)] {
      if x != i {
        assert LocalOffset(p, x) != LocalOffset(p, i);
        assert OwnSlot(p, done, x);
      }
    }
  }

  // ----- the theorem -----

  lemma {:induction false} OpsAgree(
    m: Module, d: Dialect, oracle: Oracle, j: nat, args: seq<int>, ops: seq<Op>, trace: seq<Event>, fuel: nat)
    requires Comparable(m, d) && j < |m.bodies| && ops <= m.bodies[j].ops && |args| == TypeOf(m, j).params
    requires EvalOps(m, oracle, |args|, ops, Config(EntryFrame(args, |args|), [], trace, 0), fuel).Done?
    ensures var c := EvalOps(m, oracle, |args|, ops, Config(EntryFrame(args, |args|), [], trace, 0), fuel).value;
            var r := SpecOps(Mirror(m), d, oracle, MirrorOps(|args|, ops),
              SpecConfig(args + Zeros(Sum(m.bodies[j].groups)), [], trace), fuel);
            && r.Done? && r.value.stack == c.stack && r.value.trace == c.trace
            && |r.value.locals| == LocalCount(TypeOf(m, j), m.bodies[j])
            && Mirrored(|args|, ops, c.frame, r.value.locals)
    decreases fuel, 1, |ops|
  {
    hide EvalOp, SpecOp, EvalOps, SpecOps, Comparable, Mirrored, BodyOk, TypeOf, Mirror, MirrorOps, ReadsOwn,
         EntryFrame, Sum, Zeros;
    BodyFacts(m, d, j);
    var p, body, extra := |args|, m.bodies[j].ops, Sum(m.bodies[j].groups);
    var c0, s0 := Config(EntryFrame(args, p), [], trace, 0), SpecConfig(args + Zeros(extra), [], trace);
    if ops == [] {
      EntryMirrored(p, args, extra);
      NothingAgrees(m, d, oracle, p, c0, s0, fuel);
    } else {
      var k := |ops| - 1;
      var init, op := ops[..k], ops[k];
      LastOp(m, oracle, p, ops, c0, fuel);
      OpsAgree(m, d, oracle, j, args, init, trace, fuel);
      var c := EvalOps(m, oracle, p, init, c0, fuel).value;
      var s := SpecOps(Mirror(m), d, oracle, MirrorOps(p, init), s0, fuel).value;
      MirrorLast(p, ops);
      SpecLastOp(Mirror(m), d, oracle, MirrorOps(p, ops), s0, s, fuel);
      assert body[k] == op && body[..k] == init && ops == init + [op];
      OpAgrees(m, d, oracle, j, p, init, op, c, s, fuel);
    }
  }

  lemma NothingAgrees(m: Module, d: Dialect, oracle: Oracle, p: nat, c: Config, s: SpecConfig, fuel: nat)
    ensures EvalOps(m, oracle, p, [], c, fuel) == Done(c)
    ensures SpecOps(Mirror(m), d, oracle, MirrorOps(p, []), s, fuel) == Done(s)
  {
  }

  lemma LastOp(m: Module, oracle: Oracle, p: nat, ops: seq<Op>, c: Config, fuel: nat)
    requires ops != [] && EvalOps(m, oracle, p, ops, c, fuel).Done?
    ensures var before := EvalOps(m, oracle, p, ops[..|ops| - 1], c, fuel);
            before.Done?
              && EvalOps(m, oracle, p, ops, c, fuel) == EvalOp(m, oracle, p, ops[|ops| - 1], before.value, fuel)
  {
  }

  lemma SpecLastOp(m: Module, d: Dialect, oracle: Oracle, ops: seq<Op>, c: SpecConfig, e: SpecConfig, fuel: nat)
    requires ops != [] && SpecOps(m, d, oracle, ops[..|ops| - 1], c, fuel) == Done(e)
    ensures SpecOps(m, d, oracle, ops, c, fuel) == SpecOp(m, d, oracle, ops[|ops| - 1], e, fuel)
  {
  }

  lemma MirrorLast(p: nat, ops: seq<Op>)
    requires ops != []
    ensures MirrorOps(p, ops)[..|ops| - 1] == MirrorOps(p, ops[..|ops| - 1])
    ensures MirrorOps(p, ops)[|ops| - 1] == MirrorOp(p, ops[|ops| - 1])
  {
  }

  lemma BodyFacts(m: Module, d: Dialect, j: nat)
    requires Comparable(m, d) && j < |m.bodies|
    ensures BodyOk(m, j) && ReadsOwn(TypeOf(m, j).params, m.bodies[j].ops)
    ensures Declared(m, ImportCount(m) + j) == Some(TypeOf(m, j))
    ensures OpsOk(m, LocalCount(TypeOf(m, j), m.bodies[j]), m.bodies[j].ops)
    ensures d.Standard? ==> I64Sub !in m.bodies[j].ops
    ensures TypeOf(m, j).results <= 2 && (d.Standard? ==> TypeOf(m, j).results <= 1)
  {
    var f := ImportCount(m) + j;
    assert Resolved(m, f) == Declared(m, f);
    assert BodyOk(m, j);
  }

  /** One operator keeps the two evaluators in step. */
  lemma OpAgrees(
    m: Module, d: Dialect, oracle: Oracle, j: nat, p: nat, init: seq<Op>, op: Op, c: Config, s: SpecConfig, fuel: nat)
    requires Comparable(m, d) && j < |m.bodies| && p == TypeOf(m, j).params && init + [op] <= m.bodies[j].ops
    requires EvalOp(m, oracle, p, op, c, fuel).Done?
    requires s.stack == c.stack && s.trace == c.trace && |s.locals| == LocalCount(TypeOf(m, j), m.bodies[j])
    requires Mirrored(p, init, c.frame, s.locals)
    ensures var e, r := EvalOp(m, oracle, p, op, c, fuel).value, SpecOp(Mirror(m), d, oracle, MirrorOp(p, op), s, fuel);
            && r.Done? && r.value.stack == e.stack && r.value.trace == e.trace && |r.value.locals| == |s.locals|
            && Mirrored(p, init + [op], e.frame, r.value.locals)
    decreases fuel, 0, 1
  {
    hide Comparable, EvalFunc, SpecFunc, Mirrored;
    BodyFacts(m, d, j);
    var body, k := m.bodies[j].ops, |init|;
    assert body[k] == op && body[..k] == init && OpOk(m, |s.locals|, body[k]);
    match op
    case LocalGet(i) =>
      OwnRead(p, init, c.frame, s.locals, i);
      NoSet(p, init, op, c.frame, s.locals);
    case LocalSet(i) => SetMirrored(p, init, c.frame, s.locals, i, c.stack[0]);
    case Call(f) =>
      CallAgrees(m, d, oracle, p, f, c, s, fuel);
      NoSet(p, init, op, c.frame, s.locals);
    case I64Sub =>
      assert body[k] in body;
      NoSet(p, init, op, c.frame, s.locals);
    case _ => NoSet(p, init, op, c.frame, s.locals);
  }

  lemma OwnRead(p: nat, init: seq<Op>, frame: Frame, locals: seq<int>, i: nat)
    requires p <= |locals| && Mirrored(p, init, frame, locals) && i < |locals| && OwnSlot(p, init, i)
             && LocalOffset(p, i) in frame
    ensures locals[MirrorIndex(p, i)] == frame[LocalOffset(p, i)]
  {
  }

  lemma NoSet(p: nat, init: seq<Op>, op: Op, frame: Frame, locals: seq<int>)
    requires p <= |locals| && Mirrored(p, init, frame, locals) && !op.LocalSet?
    ensures Mirrored(p, init + [op], frame, locals)
  {
    hide Owner;
    if p > 0 { OwnerAfter(p, init, op); }
  }

  lemma CallAgrees(m: Module, d: Dialect, oracle: Oracle, p: nat, f: nat, c: Config, s: SpecConfig, fuel: nat)
    requires Comparable(m, d) && EvalOp(m, oracle, p, Call(f), c, fuel).Done?
    requires s.stack == c.stack && s.trace == c.trace
    ensures var e, r := EvalOp(m, oracle, p, Call(f), c, fuel).value, SpecOp(Mirror(m), d, oracle, Call(f), s, fuel);
            r.Done? && r.value.stack == e.stack && r.value.trace == e.trace && r.value.locals == s.locals
    decreases fuel, 0, 0
  {
    hide EvalFunc, SpecFunc;
    MirrorTypes(m);
    assert Resolved(m, f) == Declared(m, f);
    var t := Resolved(m, f).value;
    assert Declared(m, f) == Some(t);
    var args := Arguments(c.stack, t.params);
    if f >= ImportCount(m) {
      FuncAgrees(m, d, oracle, f - ImportCount(m), args, c.trace, fuel - 1);
    }
  }

  /**
   For every module whose reads of shared slots find their owner: whenever the code computes an answer, the mirrored
   module means the same in the reversed dialect; and in the specification's own when the module
   does not subtract and returns at most one result.
   */
  lemma FuncAgrees(m: Module, d: Dialect, oracle: Oracle, j: nat, args: seq<int>, trace: seq<Event>, fuel: nat)
    requires Comparable(m, d) && EvalFunc(m, oracle, j, args, trace, fuel).Done?
    ensures var r := EvalFunc(m, oracle, j, args, trace, fuel).value;
            SpecFunc(Mirror(m), d, oracle, j, args, trace, fuel) == Done(SpecAnswer(r.results, r.trace))
    ensures d.Standard? ==> |EvalFunc(m, oracle, j, args, trace, fuel).value.results| <= 1
    decreases fuel, 2, 0
  {
    hide Comparable, EvalOps, SpecOps, Mirrored;
    BodyFacts(m, d, j);
    MirrorTypes(m);
    OpsAgree(m, d, oracle, j, args, m.bodies[j].ops, trace, fuel);
    assert Mirror(m).bodies[j].ops == MirrorOps(|args|, m.bodies[j].ops);
  }

  lemma MirrorIsSelf(m: Module)
    requires forall f: nat :: Declared(m, f).Some? ==> Declared(m, f).value.params <= 1
    ensures Mirror(m) == m
  {
    forall j | 0 <= j < |m.bodies| ensures Mirror(m).bodies[j] == m.bodies[j] {
      var t := Declared(m, ImportCount(m) + j);
      if t.Some? {
        forall k | 0 <= k < |m.bodies[j].ops|
          ensures MirrorOp(t.value.params, m.bodies[j].ops[k]) == m.bodies[j].ops[k] {}
        assert MirrorOps(t.value.params, m.bodies[j].ops) == m.bodies[j].ops;
      }
    }
    assert Mirror(m).bodies == m.bodies;
  }

  /** Modules that do not subtract, with at most one parameter and one result per function, keep their meaning. */
  lemma CodeIsStandard(m: Module, oracle: Oracle, j: nat, args: seq<int>, trace: seq<Event>, fuel: nat)
    requires Comparable(m, Standard)
    requires forall f: nat :: Declared(m, f).Some? ==> Declared(m, f).value.params <= 1
    requires EvalFunc(m, oracle, j, args, trace, fuel).Done?
    ensures var r := EvalFunc(m, oracle, j, args, trace, fuel).value;
            SpecFunc(m, Standard, oracle, j, args, trace, fuel) == Done(SpecAnswer(r.results, r.trace))
  {
    MirrorIsSelf(m);
    FuncAgrees(m, Standard, oracle, j, args, trace, fuel);
  }

  /**
   The machine against WebAssembly.  In a safe module without recursion every call from outside has
   a meaning in the mirrored module, and the optimised code returns it: results in rax and rdx, the
   same external calls, the stack above the return address and rbp as they were.
   */
  lemma CompiledCodeMeansMirror(
    m: Module, d: Dialect, rank: nat -> nat, env: Env, j: nat, args: seq<int>, s: Cpu, sp: int, ret: Pc)
    returns (r: SpecAnswer, need: nat, n: nat, t: Cpu)
    requires Safe(m) && Ranked(m, rank) && Comparable(m, d) && EnvOk(m, env)
    requires j < |m.bodies| && |args| == TypeOf(m, j).params && Entered(s, sp, ret, args) && ret.Exited? && Plain(s)
    ensures SpecFunc(Mirror(m), d, env.oracle, j, args, s.trace, rank(j)) == Done(r)
    ensures var code := EvalFunc(m, env.oracle, j, args, s.trace, rank(j)); code.Done? && need == code.value.need
    ensures env.floor <= sp - need ==>
              var l, p := BodyOf(ImportCount(m) + j), Optimized(m);
              && l in p.labels && Run(p, env, EnterAt(p, l, s), n) == Some(State(ret, t))
              && ResultsIn(t, r.results) && t.trace == r.trace
              && t.mem == Above(s.mem, sp + 8) && RBP in t.regs && t.regs[RBP] == s.regs[RBP]
  {
    hide Safe, Ranked, Comparable, EvalFunc, SpecFunc, Run, Optimized;
    var a;
    a, n, t := EveryCallReturns(m, rank, env, j, args, s, sp, ret);
    FuncAgrees(m, d, env.oracle, j, args, s.trace, rank(j));
    r, need := SpecAnswer(a.results, a.trace), a.need;
  }

  // ----- exactly when each departure shows -----

  lemma OppositesAgreeIff(x: int, y: int)
    requires 0 <= x < TWO64 && 0 <= y < TWO64
    ensures Wrap(x - y) == Wrap(y - x) <==> x == y || x - y == TWO64 / 2 || y - x == TWO64 / 2
  {
    var z := x - y;
    assert Wrap(z) == if z < 0 then z + TWO64 else z;
    assert Wrap(-z) == if -z < 0 then -z + TWO64 else -z;
  }

  /**
   Exchanging the operands of a subtraction shows unless they are equal or half the range apart: on
   the same stack of words the code and the specification leave the same stack in these cases only.
   */
  lemma SubtractionAgreesIff(m: Module, oracle: Oracle, p: nat, c: Config, s: SpecConfig, fuel: nat)
    requires |c.stack| >= 2 && s.stack == c.stack && 0 <= c.stack[0] < TWO64 && 0 <= c.stack[1] < TWO64
    ensures var e, r := EvalOp(m, oracle, p, I64Sub, c, fuel), SpecOp(m, Standard, oracle, I64Sub, s, fuel);
            && e.Done? && r.Done?
            && (e.value.stack == r.value.stack <==>
                var top, next := c.stack[0], c.stack[1];
                top == next || top - next == TWO64 / 2 || next - top == TWO64 / 2)
  {
    hide Wrap;
    var e, r := EvalOp(m, oracle, p, I64Sub, c, fuel).value, SpecOp(m, Standard, oracle, I64Sub, s, fuel).value;
    OppositesAgreeIff(c.stack[0], c.stack[1]);
    assert e.stack[0] == Wrap(c.stack[0] - c.stack[1]) && r.stack[0] == Wrap(c.stack[1] - c.stack[0]);
  }

  /**
   Reading the shared slot gives the value of its owner: at any read of either local after operators
   that kept evaluators in step, code and specification push the same word if and only if the owner's
   value is the asked local's.
   */
  lemma SharedReadAgreesIff(
    m: Module, d: Dialect, oracle: Oracle, p: nat, done: seq<Op>, i: nat, c: Config, s: SpecConfig, fuel: nat)
    requires p < |s.locals| && (i == p - 1 || i == p) && Mirrored(p, done, c.frame, s.locals)
    requires c.stack == s.stack && LocalOffset(p, i) in c.frame
    ensures var e, r := EvalOp(m, oracle, p, LocalGet(i), c, fuel),
            SpecOp(Mirror(m), d, oracle, MirrorOp(p, LocalGet(i)), s, fuel);
            && e.Done? && r.Done?
            && e.value.stack[0] == s.locals[MirrorIndex(p, Owner(p, done))]
            && (e.value.stack == r.value.stack <==>
               s.locals[MirrorIndex(p, Owner(p, done))] == s.locals[MirrorIndex(p, i)])
  {
    assert OwnSlot(p, done, Owner(p, done));
    var e, r := EvalOp(m, oracle, p, LocalGet(i), c, fuel).value,
      SpecOp(Mirror(m), d, oracle, MirrorOp(p, LocalGet(i)), s, fuel).value;
    assert e.stack[1..] == r.stack[1..];
    assert e.stack == [e.stack[0]] + e.stack[1..] && r.stack == [r.stack[0]] + r.stack[1..];
  }

  /**
   Results of a call of a defined function whose body leaves `want` arrive as specified, all of them in
   their order, if and only if there are fewer than two, or two that are equal.
   */
  lemma ResultsAgreeIff(m: Module, oracle: Oracle, p: nat, f: nat, c: Config, want: seq<int>, fuel: nat)
    requires ImportCount(m) <= f && EvalOp(m, oracle, p, Call(f), c, fuel).Done?
    requires |want| == Resolved(m, f).value.results && BodyLeaves(m, oracle, f, c, want, fuel)
    ensures EvalOp(m, oracle, p, Call(f), c, fuel).value.stack
              == Delivered(Standard, want) + c.stack[Resolved(m, f).value.params..] <==>
            |want| < 2 || (|want| == 2 && want[0] == want[1])
  {
    hide EvalFunc;
    var n := Resolved(m, f).value.params;
    var results := EvalFunc(m, oracle, f - ImportCount(m), Arguments(c.stack, n), c.trace, fuel - 1).value.results;
    var got, expected := PushedBack(results) + c.stack[n..], want + c.stack[n..];
    if got == expected && |want| == 2 { assert got[0] == expected[0]; }
    CarriedResults(m, oracle, f, c, want, fuel);
    if |want| <= 2 { assert results == want; }
    if |want| == 2 && want[0] == want[1] { assert PushedBack(results) == results; }
  }

  lemma CarriedResults(m: Module, oracle: Oracle, f: nat, c: Config, want: seq<int>, fuel: nat)
    requires ImportCount(m) <= f && Resolved(m, f).Some? && Resolved(m, f).value.params <= |c.stack|
    requires |want| == Resolved(m, f).value.results && BodyLeaves(m, oracle, f, c, want, fuel)
    requires BodyOk(m, f - ImportCount(m))
    ensures var n := Resolved(m, f).value.params;
            var r := EvalFunc(m, oracle, f - ImportCount(m), Arguments(c.stack, n), c.trace, fuel - 1);
            r.Done? && r.value.results == want[..Carried(|want|)]
  {
    hide EvalOps;
  }

  /** The body of function `f`, called from `c`, leaves `want` on top of its stack. */
  predicate BodyLeaves(m: Module, oracle: Oracle, f: nat, c: Config, want: seq<int>, fuel: nat)
    requires ImportCount(m) <= f && Resolved(m, f).Some? && Resolved(m, f).value.params <= |c.stack|
  {
    var j, args := f - ImportCount(m), Arguments(c.stack, Resolved(m, f).value.params);
    && fuel > 0 && j < |m.bodies|
    && var r := EvalOps(
         m, oracle, |args|, m.bodies[j].ops, Config(EntryFrame(args, |args|), [], c.trace, 0), fuel - 1);
       r.Done? && want <= r.value.stack
  }

  /** Parameters arrive in order exactly when the arguments read the same from both ends. */
  lemma ParametersAgreeIff(args: seq<int>)
    ensures (forall k :: 0 <= k < |args| ==>
               LocalOffset(|args|, k) in EntryFrame(args, |args|) &&
               EntryFrame(args, |args|)[LocalOffset(|args|, k)] == args[|args| - 1 - k])
    ensures (forall k :: 0 <= k < |args| ==>
               LocalOffset(|args|, k) in EntryFrame(args, |args|) &&
               EntryFrame(args, |args|)[LocalOffset(|args|, k)] == args[k]) <==>
            (forall k :: 0 <= k < |args| ==> args[k] == args[|args| - 1 - k])
  {
    forall k | 0 <= k < |args|
      ensures LocalOffset(|args|, k) in EntryFrame(args, |args|) &&
              EntryFrame(args, |args|)[LocalOffset(|args|, k)] == args[|args| - 1 - k] {
      EntrySlots(args, |args|, k + 1);
    }
  }
}
