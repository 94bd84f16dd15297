/**
 Where the emitted code departs from WebAssembly or from its own layout: inputs that show it.  Each
 gives what the code computes beside what the specification says.
 */
module Departures {
  import opened Base
  import opened X86
  import opened Wasm
  import opened PassSoundness
  import opened Streams
  import opened CodeGen
  import opened CodeSemantics
  import opened EndToEnd
  import opened WasmSemantics

  // ----- evaluating a body configuration by configuration -----

  ghost predicate CodePath(m: Module, oracle: Oracle, p: nat, ops: seq<Op>, cs: seq<Config>, fuel: nat) {
    |cs| == |ops| + 1 && forall k :: 0 <= k < |ops| ==> EvalOp(m, oracle, p, ops[k], cs[k], fuel) == Done(cs[k + 1])
  }

  ghost predicate SpecPath(m: Module, oracle: Oracle, ops: seq<Op>, cs: seq<SpecConfig>, fuel: nat) {
    |cs| == |ops| + 1 && forall k :: 0 <= k < |ops| ==>
      SpecOp(m, Standard, oracle, ops[k], cs[k], fuel) == Done(cs[k + 1])
  }

  lemma {:induction false} FollowCode(m: Module, oracle: Oracle, p: nat, ops: seq<Op>, cs: seq<Config>, fuel: nat)
    requires CodePath(m, oracle, p, ops, cs, fuel)
    ensures EvalOps(m, oracle, p, ops, cs[0], fuel) == Done(cs[|ops|])
    decreases |ops|
  {
    hide EvalOp;
    if ops != [] { FollowCode(m, oracle, p, ops[..|ops| - 1], cs[..|ops|], fuel); }
  }

  lemma {:induction false} FollowSpec(m: Module, oracle: Oracle, ops: seq<Op>, cs: seq<SpecConfig>, fuel: nat)
    requires SpecPath(m, oracle, ops, cs, fuel)
    ensures SpecOps(m, Standard, oracle, ops, cs[0], fuel) == Done(cs[|ops|])
    decreases |ops|
  {
    hide SpecOp;
    if ops != [] { FollowSpec(m, oracle, ops[..|ops| - 1], cs[..|ops|], fuel); }
  }

  /** The configurations a call of function `j` starts from. */
  function Start(args: seq<int>): Config {
    Config(EntryFrame(args, |args|), [], [], 0)
  }

  function SpecStart(m: Module, j: nat, args: seq<int>): SpecConfig
    requires j < |m.bodies|
  {
    SpecConfig(args + Zeros(Sum(m.bodies[j].groups)), [], [])
  }

  /** What the code of function `j` computes. */
  function CodeResults(m: Module, oracle: Oracle, j: nat, args: seq<int>, fuel: nat): Option<seq<int>> {
    var r := EvalFunc(m, oracle, j, args, [], fuel);
    if r.Done? then Some(r.value.results) else None
  }

  /** What function `j` means in WebAssembly. */
  function SpecResults(m: Module, oracle: Oracle, j: nat, args: seq<int>, fuel: nat): Option<seq<int>> {
    var r := SpecFunc(m, Standard, oracle, j, args, [], fuel);
    if r.Done? then Some(r.value.results) else None
  }

  /** A body as validation wants it: its last operator ends it. */
  function Ended(groups: seq<nat>, ops: seq<Op>): Body {
    Body(groups, ops + [End])
  }

  lemma EndIsIdle(m: Module, oracle: Oracle, p: nat, ops: seq<Op>, c: Config, s: SpecConfig, fuel: nat)
    ensures EvalOps(m, oracle, p, ops + [End], c, fuel) == EvalOps(m, oracle, p, ops, c, fuel)
    ensures SpecOps(m, Standard, oracle, ops + [End], s, fuel) == SpecOps(m, Standard, oracle, ops, s, fuel)
  {
    assert (ops + [End])[..|ops|] == ops;
  }

  lemma CodeAnswers(
    m: Module, oracle: Oracle, j: nat, args: seq<int>, ops: seq<Op>, cs: seq<Config>, fuel: nat)
    requires j < |m.bodies| && BodyOk(m, j) && |args| == TypeOf(m, j).params && m.bodies[j].ops == ops + [End]
    requires CodePath(m, oracle, |args|, ops, cs, fuel) && cs[0] == Start(args)
    requires Carried(TypeOf(m, j).results) <= |cs[|cs| - 1].stack|
    ensures CodeResults(m, oracle, j, args, fuel) == Some(cs[|cs| - 1].stack[..Carried(TypeOf(m, j).results)])
    ensures var r := EvalFunc(m, oracle, j, args, [], fuel).value;
            r.frame == cs[|cs| - 1].frame && r.trace == cs[|cs| - 1].trace
  {
    hide EvalOp, EvalOps;
    FollowCode(m, oracle, |args|, ops, cs, fuel);
    EndIsIdle(m, oracle, |args|, ops, cs[0], SpecStart(m, j, args), fuel);
  }

  lemma SpecAnswers(
    m: Module, oracle: Oracle, j: nat, args: seq<int>, t: FuncType, ops: seq<Op>, cs: seq<SpecConfig>, fuel: nat)
    requires j < |m.bodies| && Declared(m, ImportCount(m) + j) == Some(t) && |args| == t.params
    requires m.bodies[j].ops == ops + [End]
    requires SpecPath(m, oracle, ops, cs, fuel) && cs[0] == SpecStart(m, j, args)
    requires t.results <= |cs[|cs| - 1].stack|
    ensures SpecResults(m, oracle, j, args, fuel) == Some(cs[|cs| - 1].stack[..t.results])
    ensures SpecFunc(m, Standard, oracle, j, args, [], fuel).value.trace == cs[|cs| - 1].trace
  {
    hide SpecOp, SpecOps;
    FollowSpec(m, oracle, ops, cs, fuel);
    EndIsIdle(m, oracle, 0, ops, Start(args), cs[0], fuel);
  }

  /** A module of one function. */
  function One(t: FuncType, groups: seq<nat>, ops: seq<Op>): Module {
    Module([t], [], [0], [], [Ended(groups, ops)])
  }

  lemma OneType(t: FuncType, groups: seq<nat>, ops: seq<Op>)
    ensures var m := One(t, groups, ops);
            ImportCount(m) == 0 && Resolved(m, 0) == Some(t) && Declared(m, 0) == Some(t)
  {
    var m := One(t, groups, ops);
    assert ImportTypes(m, 0) == [];
    assert FunctionTypes(m) == [0];
  }

  lemma SumOne(n: nat)
    ensures Sum([n]) == n
  {
    SumAdds([], []);
  }

  lemma ReadCode(m: Module, n: nat, i: nat)
    requires i < n
    ensures OpsOk(m, n, [LocalGet(i)] + [End])
    ensures OpsCode(m, 0, n, [LocalGet(i)] + [End]) == [MovRRm(RAX, LocalOffset(0, i)), Push(RAX)]
  {
    var ops := [LocalGet(i)] + [End];
    assert ops[..1] == [LocalGet(i)] && ops[..1][..0] == [];
    assert OpsCode(m, 0, n, ops[..1][..0]) == [];
    assert OpsCode(m, 0, n, ops[..1]) == [MovRRm(RAX, LocalOffset(0, i)), Push(RAX)];
  }

  const GET0: Op := LocalGet(0)
  const GET1: Op := LocalGet(1)

  // ----- subtraction -----

  /**
   Subtracting two constants gives the opposite difference; the two agree exactly when equal or
   half the range apart.
   */
  lemma SubtractionIsExchanged(oracle: Oracle, a: int, b: int)
    ensures var m := One(FuncType(0, 1), [], [I64Const(a), I64Const(b), I64Sub]);
            && CodeResults(m, oracle, 0, [], 0) == Some([Wrap(Wrap(b) - Wrap(a))])
            && SpecResults(m, oracle, 0, [], 0) == Some([Wrap(Wrap(a) - Wrap(b))])
            && (CodeResults(m, oracle, 0, [], 0) == SpecResults(m, oracle, 0, [], 0) <==>
                Wrap(a) == Wrap(b) || Wrap(b) - Wrap(a) == TWO64 / 2 || Wrap(a) - Wrap(b) == TWO64 / 2)
  {
    hide CodeResults, SpecResults, EntryFrame, Resolved, Declared, Wrap, Zeros, Sum;
    var t, ops := FuncType(0, 1), [I64Const(a), I64Const(b), I64Sub];
    var m, x, y := One(t, [], ops), Wrap(a), Wrap(b);
    OneType(t, [], ops);
    var c, s := Start([]), SpecStart(m, 0, []);
    assert [x] + [] == [x] && [y] + [x] == [y, x];
    assert [Wrap(y - x)] + [y, x][2..] == [Wrap(y - x)] && [Wrap(x - y)] + [y, x][2..] == [Wrap(x - y)];
    CodeAnswers(m, oracle, 0, [], ops, [c, c.(stack := [x]), c.(stack := [y, x]), c.(stack := [Wrap(y - x)])], 0);
    SpecAnswers(m, oracle, 0, [], t, ops, [s, s.(stack := [x]), s.(stack := [y, x]), s.(stack := [Wrap(x - y)])], 0);
    OppositesAgreeIff(y, x);
  }

  /**
   A function of two parameters subtracting the second from the first: on every pair of arguments the
   code agrees with WebAssembly, because the two exchanges cancel.
   */
  lemma ExchangesCancel(oracle: Oracle, a: int, b: int)
    ensures var m := One(FuncType(2, 1), [], [GET0, GET1, I64Sub]);
            && CodeResults(m, oracle, 0, [a, b], 0) == Some([Wrap(a - b)])
            && SpecResults(m, oracle, 0, [a, b], 0) == Some([Wrap(a - b)])
  {
    hide CodeResults, SpecResults, EntryFrame, Resolved, Declared, Wrap, Zeros, Sum;
    var t, ops := FuncType(2, 1), [GET0, GET1, I64Sub];
    var m := One(t, [], ops);
    OneType(t, [], ops);
    EntrySlots([a, b], 2, 1);
    EntrySlots([a, b], 2, 2);
    var c, s := Start([a, b]), SpecStart(m, 0, [a, b]);
    assert [b] + [] == [b] && [a] + [] == [a] && [a] + [b] == [a, b] && [b] + [a] == [b, a];
    assert [Wrap(a - b)] + [a, b][2..] == [Wrap(a - b)] == [Wrap(a - b)] + [b, a][2..];
    CodeAnswers(m, oracle, 0, [a, b], ops, [c, c.(stack := [b]), c.(stack := [a, b]), c.(stack := [Wrap(a - b)])], 0);
    SpecAnswers(m, oracle, 0, [a, b], t, ops, [s, s.(stack := [a]), s.(stack := [b, a]), s.(stack := [Wrap(a - b)])],
      0);
  }

  // ----- parameters and results -----

  /** Returning the first of two parameters returns the second argument. */
  lemma FirstParameterIsLastArgument(oracle: Oracle, a: int, b: int)
    ensures var m := One(FuncType(2, 1), [], [GET0]);
            && CodeResults(m, oracle, 0, [a, b], 0) == Some([b])
            && SpecResults(m, oracle, 0, [a, b], 0) == Some([a])
  {
    hide CodeResults, SpecResults, EntryFrame, Resolved, Declared, Zeros, Sum;
    var t, ops := FuncType(2, 1), [GET0];
    var m := One(t, [], ops);
    OneType(t, [], ops);
    EntrySlots([a, b], 2, 1);
    var c, s := Start([a, b]), SpecStart(m, 0, [a, b]);
    assert [b] + [] == [b] && [a] + [] == [a];
    CodeAnswers(m, oracle, 0, [a, b], ops, [c, c.(stack := [b])], 0);
    SpecAnswers(m, oracle, 0, [a, b], t, ops, [s, s.(stack := [a])], 0);
  }

  /** A third result is lost: only rax and rdx carry any. */
  lemma ThirdResultIsLost(oracle: Oracle, a: int, b: int, e: int)
    ensures var m := One(FuncType(0, 3), [], [I64Const(a), I64Const(b), I64Const(e)]);
            && CodeResults(m, oracle, 0, [], 0) == Some([Wrap(e), Wrap(b)])
            && SpecResults(m, oracle, 0, [], 0) == Some([Wrap(e), Wrap(b), Wrap(a)])
  {
    hide CodeResults, SpecResults, EntryFrame, Resolved, Declared, Wrap, Zeros, Sum;
    var t, ops := FuncType(0, 3), [I64Const(a), I64Const(b), I64Const(e)];
    var m, x, y, z := One(t, [], ops), Wrap(a), Wrap(b), Wrap(e);
    OneType(t, [], ops);
    var c, s := Start([]), SpecStart(m, 0, []);
    assert [x] + [] == [x] && [y] + [x] == [y, x] && [z] + [y, x] == [z, y, x];
    assert [z, y, x][..2] == [z, y] && [z, y, x][..3] == [z, y, x];
    CodeAnswers(m, oracle, 0, [], ops, [c, c.(stack := [x]), c.(stack := [y, x]), c.(stack := [z, y, x])], 0);
    SpecAnswers(m, oracle, 0, [], t, ops, [s, s.(stack := [x]), s.(stack := [y, x]), s.(stack := [z, y, x])], 0);
  }

  /** A function of two results, and a caller that drops the one on top. */
  function TwoResults(a: int, b: int): Module {
    Module([FuncType(0, 2), FuncType(0, 1)], [], [0, 1], [],
           [Ended([], [I64Const(a), I64Const(b)]), Ended([2], [Call(0), LocalSet(1)])])
  }

  lemma TwoResultsTypes(a: int, b: int)
    ensures var m := TwoResults(a, b);
            && ImportCount(m) == 0 && BodyOk(m, 0) && BodyOk(m, 1)
            && Resolved(m, 0) == Declared(m, 0) == Some(FuncType(0, 2))
            && Resolved(m, 1) == Declared(m, 1) == Some(FuncType(0, 1))
  {
    hide Sum, Resolved, Declared;
    TwoResultsLookups(a, b);
    SumOne(2);
  }

  lemma TwoResultsLookups(a: int, b: int)
    ensures var m := TwoResults(a, b);
            && ImportCount(m) == 0
            && Resolved(m, 0) == Declared(m, 0) == Some(FuncType(0, 2))
            && Resolved(m, 1) == Declared(m, 1) == Some(FuncType(0, 1))
  {
    var m := TwoResults(a, b);
    assert ImportTypes(m, 0) == [];
    assert FunctionTypes(m) == [0, 1];
  }

  /** Two results come back exchanged: the caller drops the other one. */
  lemma ResultsAreExchanged(oracle: Oracle, a: int, b: int)
    ensures var m := TwoResults(a, b);
            && CodeResults(m, oracle, 1, [], 1) == Some([Wrap(b)])
            && SpecResults(m, oracle, 1, [], 1) == Some([Wrap(a)])
  {
    hide EvalFunc, SpecFunc, EntryFrame, Resolved, Declared, Wrap, Zeros, Sum, BodyOk;
    var m, x, y := TwoResults(a, b), Wrap(a), Wrap(b);
    TwoResultsTypes(a, b);
    var c, s := Start([]), SpecStart(m, 0, []);
    assert [x] + [] == [x] && [y] + [x] == [y, x] && [y, x][..2] == [y, x];
    assert c.frame == map[] by { EntryFrameKeys([], 0); }
    CodeAnswers(m, oracle, 0, [], [I64Const(a), I64Const(b)], [c, c.(stack := [x]), c.(stack := [y, x])], 0);
    SpecAnswers(m, oracle, 0, [], FuncType(0, 2), [I64Const(a), I64Const(b)],
      [s, s.(stack := [x]), s.(stack := [y, x])], 0);
    ResultsReachCaller(oracle, a, b);
  }

  lemma ResultsReachCaller(oracle: Oracle, a: int, b: int)
    requires var m := TwoResults(a, b);
             && CodeResults(m, oracle, 0, [], 0) == Some([Wrap(b), Wrap(a)])
             && EvalFunc(m, oracle, 0, [], [], 0).value.frame == map[]
                && EvalFunc(m, oracle, 0, [], [], 0).value.trace == []
             && SpecFunc(m, Standard, oracle, 0, [], [], 0) == Done(SpecAnswer([Wrap(b), Wrap(a)], []))
    ensures var m := TwoResults(a, b);
            && CodeResults(m, oracle, 1, [], 1) == Some([Wrap(b)])
            && SpecResults(m, oracle, 1, [], 1) == Some([Wrap(a)])
  {
    hide EvalFunc, SpecFunc, EntryFrame, Resolved, Declared, Wrap, Zeros, Sum, BodyOk;
    var m, x, y := TwoResults(a, b), Wrap(a), Wrap(b);
    TwoResultsTypes(a, b);
    var c, s := Start([]), SpecStart(m, 1, []);
    var inner := EvalFunc(m, oracle, 0, [], [], 0).value;
    assert Arguments([], 0) == [];
    assert [x][..1] == [x] && [y][..1] == [y];
    assert [x, y] + [] == [x, y] && [y, x] + [] == [y, x];
    var c1 := Config(c.frame, [x, y], [], 8 + inner.need);
    assert EvalOp(m, oracle, 0, Call(0), c, 1) == Done(c1);
    CodeAnswers(m, oracle, 1, [], [Call(0), LocalSet(1)], [c, c1, c1.(frame := c.frame[8 := x], stack := [y])], 1);
    SumOne(2);
    var s1 := s.(stack := [y, x]);
    assert SpecOp(m, Standard, oracle, Call(0), s, 1) == Done(s1);
    SpecAnswers(m, oracle, 1, [], FuncType(0, 1), [Call(0), LocalSet(1)],
      [s, s1, SpecConfig(s.locals[1 := y], [x], [])], 1);
  }

  // ----- locals -----

  /** Setting the first declared local overwrites the only parameter, whatever its value. */
  lemma FirstLocalIsLastParameter(oracle: Oracle, a: int, v: int)
    ensures var m := One(FuncType(1, 1), [1], [I64Const(v), LocalSet(1), GET0]);
            && CodeResults(m, oracle, 0, [a], 0) == Some([Wrap(v)])
            && SpecResults(m, oracle, 0, [a], 0) == Some([a])
  {
    hide CodeResults, SpecResults, EntryFrame, Resolved, Declared, Wrap, Sum;
    var t, ops, x := FuncType(1, 1), [I64Const(v), LocalSet(1), GET0], Wrap(v);
    var m := One(t, [1], ops);
    OneType(t, [1], ops);
    SumOne(1);
    var c, s := Start([a]), SpecStart(m, 0, [a]);
    var c2, s2 := c.(frame := c.frame[8 := x]), s.(locals := s.locals[1 := x]);
    assert [x] + [] == [x] && [a] + [] == [a];
    CodeAnswers(m, oracle, 0, [a], ops, [c, c.(stack := [x]), c2, c2.(stack := [x])], 0);
    SpecAnswers(m, oracle, 0, [a], t, ops, [s, s.(stack := [x]), s2, s2.(stack := [a])], 0);
  }

  /** Reading the first declared local before setting it reads the only parameter. */
  lemma UnsetLocalIsLastParameter(oracle: Oracle, a: int)
    ensures var m := One(FuncType(1, 1), [1], [GET1]);
            && CodeResults(m, oracle, 0, [a], 0) == Some([a])
            && SpecResults(m, oracle, 0, [a], 0) == Some([0])
  {
    hide CodeResults, SpecResults, EntryFrame, Resolved, Declared, Sum;
    var t, ops := FuncType(1, 1), [GET1];
    var m := One(t, [1], ops);
    OneType(t, [1], ops);
    SumOne(1);
    EntrySlots([a], 1, 1);
    var c, s := Start([a]), SpecStart(m, 0, [a]);
    assert [0] + [] == [0] && [a] + [] == [a];
    CodeAnswers(m, oracle, 0, [a], ops, [c, c.(stack := [a])], 0);
    SpecAnswers(m, oracle, 0, [a], t, ops, [s, s.(stack := [0])], 0);
  }

  /** Without parameters, setting the first declared local leaves its value in the caller's rbp slot. */
  lemma FirstLocalIsSavedRbp(oracle: Oracle, v: int)
    ensures var m := One(FuncType(0, 0), [1], [I64Const(v), LocalSet(0)]);
            && CodeResults(m, oracle, 0, [], 0) == SpecResults(m, oracle, 0, [], 0) == Some([])
            && EvalFunc(m, oracle, 0, [], [], 0).value.frame == map[0 := Wrap(v)]
  {
    hide CodeResults, SpecResults, Resolved, Declared, Wrap, Sum;
    var t, ops, x := FuncType(0, 0), [I64Const(v), LocalSet(0)], Wrap(v);
    var m := One(t, [1], ops);
    OneType(t, [1], ops);
    SumOne(1);
    var c, s := Start([]), SpecStart(m, 0, []);
    assert c.frame[0 := x] == map[0 := x];
    assert [x] + [] == [x];
    CodeAnswers(m, oracle, 0, [], ops, [c, c.(stack := [x]), c.(frame := map[0 := x])], 0);
    SpecAnswers(m, oracle, 0, [], t, ops, [s, s.(stack := [x]), s.(locals := s.locals[0 := x])], 0);
  }

  // ----- types -----

  /** A function declared to return a value is compiled as one that returns nothing. */
  lemma DoubleLookupWitness(oracle: Oracle)
    ensures var m := Module([FuncType(0, 0), FuncType(0, 1)], [], [1, 0], [],
            [Ended([], [I64Const(7)]), Ended([], [])]);
            && Declared(m, 0) == Some(FuncType(0, 1)) && Resolved(m, 0) == Some(FuncType(0, 0))
            && CodeResults(m, oracle, 0, [], 0) == Some([])
            && SpecResults(m, oracle, 0, [], 0) == Some([7])
  {
    hide CodeResults, SpecResults, EntryFrame, Zeros, Sum;
    var m := Module([FuncType(0, 0), FuncType(0, 1)], [], [1, 0], [], [Ended([], [I64Const(7)]), Ended([], [])]);
    assert ImportTypes(m, 0) == [];
    assert FunctionTypes(m) == [1, 0];
    var c, s := Start([]), SpecStart(m, 0, []);
    assert [7] + [] == [7];
    CodeAnswers(m, oracle, 0, [], [I64Const(7)], [c, c.(stack := [7])], 0);
    SpecAnswers(m, oracle, 0, [], FuncType(0, 1), [I64Const(7)], [s, s.(stack := [7])], 0);
  }

  // ----- the optimiser's pair rule -----

  lemma IdleMove(env: Env, a: Reg, b: Reg, s: Cpu)
    requires a in s.regs && b in s.regs && s.regs[a] == s.regs[b] && Trimmed(s)
    ensures Exec(env, Mov(a, b), s) == Some(s)
  {
    assert s.regs[a := s.regs[b]] == s.regs;
    assert Above(s.mem, WordOf(s, RSP)) == s.mem;
  }

  /**
   Dropping mov a, b ; mov b, a on its own is right in exactly the states where the two registers
   already agree; rsp is among the registers, and what lies below it is gone already.
   */
  lemma DroppingPairAloneIff(env: Env, a: Reg, b: Reg, s: Cpu)
    requires a != b && a in s.regs && b in s.regs && Trimmed(s)
    ensures ExecAll(env, [Mov(a, b), Mov(b, a)], s) == Some(s) <==> s.regs[a] == s.regs[b]
  {
    var pair := [Mov(a, b), Mov(b, a)];
    assert pair[1..] == [Mov(b, a)] && [Mov(b, a)][1..] == [];
    var first := Exec(env, Mov(a, b), s);
    if s.regs[a] == s.regs[b] {
      IdleMove(env, a, b, s);
      IdleMove(env, b, a, s);
      assert ExecAll(env, [Mov(b, a)], s) == Some(s);
    } else if first.Some? && Exec(env, Mov(b, a), first.value).Some? {
      var u := Exec(env, Mov(b, a), first.value).value;
      assert ExecAll(env, [Mov(b, a)], first.value) == Some(u);
      assert u.regs[a] == first.value.regs[a] == s.regs[b];
    }
  }
}
