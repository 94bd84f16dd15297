/** Instruction for instruction: what is emitted for given functions, and what the optimiser leaves of it. */
module EmittedCode {
  import opened Base
  import opened X86
  import opened Wasm
  import opened Optimizer
  import opened Rewriting
  import opened Streams
  import opened CodeGen
  import opened Placement
  import opened Departures
  import opened CallingConvention

  lemma {:induction false} OpsCodeAppend(m: Module, p: nat, n: nat, ops: seq<Op>, op: Op)
    requires OpsOk(m, n, ops) && OpOk(m, n, op)
    ensures OpsOk(m, n, ops + [op]) && OpsCode(m, p, n, ops + [op]) == OpsCode(m, p, n, ops) + OpCode(m, p, n, op)
  {
    assert (ops + [op])[..|ops|] == ops;
  }

  lemma NoOpsCode(m: Module, p: nat, n: nat)
    ensures OpsOk(m, n, []) && OpsCode(m, p, n, []) == []
  {
  }

  /** One parameter, two groups of locals, every operator but calls. */
  function AllOps(v: int): seq<Op> {
    [] + [I64Const(v)] + [LocalSet(1)] + [Wasm.Nop] + [LocalGet(0)] + [LocalGet(2)] + [I64Add] + [LocalGet(3)]
      + [I64Sub] + [End]
  }

  function AllOpsCode(v: int): seq<Instr> {
    [] + [MovRImm(RAX, v), Push(RAX)] + [Pop(RAX), MovRmR(M(8), RAX)] + [X86.Nop] + [MovRRm(RAX, 8), Push(RAX)] +
    [MovRRm(RAX, 16), Push(RAX)] + [Pop(RAX), Pop(RBX), AddRR(RAX, RBX), Push(RAX)] + [MovRRm(RAX, 24), Push(RAX)] +
    [Pop(RAX), Pop(RBX), SubRR(RAX, RBX), Push(RAX)] + []
  }

  lemma AllOpsEmitted(m: Module, v: int)
    ensures OpsOk(m, 4, AllOps(v)) && OpsCode(m, 1, 4, AllOps(v)) == AllOpsCode(v)
  {
    hide OpsCode, OpsOk;
    NoOpsCode(m, 1, 4);
    OpsCodeAppend(m, 1, 4, [], I64Const(v));
    OpsCodeAppend(m, 1, 4, [] + [I64Const(v)], LocalSet(1));
    OpsCodeAppend(m, 1, 4, [] + [I64Const(v)] + [LocalSet(1)], Wasm.Nop);
    var a := [] + [I64Const(v)] + [LocalSet(1)] + [Wasm.Nop];
    OpsCodeAppend(m, 1, 4, a, LocalGet(0));
    OpsCodeAppend(m, 1, 4, a + [LocalGet(0)], LocalGet(2));
    OpsCodeAppend(m, 1, 4, a + [LocalGet(0)] + [LocalGet(2)], I64Add);
    var b := a + [LocalGet(0)] + [LocalGet(2)] + [I64Add];
    OpsCodeAppend(m, 1, 4, b, LocalGet(3));
    OpsCodeAppend(m, 1, 4, b + [LocalGet(3)], I64Sub);
    OpsCodeAppend(m, 1, 4, b + [LocalGet(3)] + [I64Sub], End);
  }

  /** The whole function: frame for four words, the parameter's register stored, the result popped. */
  lemma FunctionEmitted(v: int)
    ensures var m := Module([FuncType(1, 1)], [], [0], [], [Body([1, 2], AllOps(v))]);
            && BodyOk(m, 0)
            && FuncCode(m, 0) ==
                 [Push(RBP), Mov(RBP, RSP), SubRspImm(32), MovRmR(M(8), RDI)] + AllOpsCode(v) +
                 [Pop(RAX), AddRspImm(32), Mov(RSP, RBP), Pop(RBP), Ret]
  {
    hide OpsOk, OpsCode, AllOps, AllOpsCode, Resolved;
    var m := Module([FuncType(1, 1)], [], [0], [], [Body([1, 2], AllOps(v))]);
    OneLookup(m);
    SumAdds([1], [2]);
    assert [1, 2] == [1] + [2];
    AllOpsEmitted(m, v);
    assert StoreParams(1, 1) == [MovRmR(M(8), RDI)];
  }

  lemma OneLookup(m: Module)
    requires m.types == [FuncType(1, 1)] && m.imports == [] && m.funcs == [0]
    ensures ImportCount(m) == 0 && Resolved(m, 0) == Some(FuncType(1, 1))
  {
    assert ImportTypes(m, 0) == [];
    assert FunctionTypes(m) == [0];
  }

  // ----- the repository's example, compiled -----

  function Enter(): seq<Instr> {
    [Dq(0), Push(RBP), Mov(RBP, RSP), SubRspImm(16), MovRmR(M(8), RSI), MovRmR(M(16), RDI)]
  }

  function Leave(): seq<Instr> {
    [AddRspImm(16), Mov(RSP, RBP), Pop(RBP), Ret]
  }

  /** Behind the word of its function table: the subtracting function as emitted. */
  function Before(): seq<Instr> {
    Enter() +
    [MovRRm(RAX, 8), Push(RAX), MovRRm(RAX, 16)] + [Push(RAX), Pop(RAX)] + [Pop(RBX), SubRR(RAX, RBX)] +
    [Push(RAX), Pop(RAX)] + Leave()
  }

  /** And as optimised: two push/pop pairs have become self moves and are gone. */
  function After(): seq<Instr> {
    Enter() + [MovRRm(RAX, 8), Push(RAX), MovRRm(RAX, 16)] + [Pop(RBX), SubRR(RAX, RBX)] + Leave()
  }

  lemma SubtractingBody(m: Module)
    ensures OpsOk(m, 2, [GET0, GET1, I64Sub] + [End])
    ensures OpsCode(m, 2, 2, [GET0, GET1, I64Sub] + [End]) ==
            [MovRRm(RAX, 8), Push(RAX)] + [MovRRm(RAX, 16), Push(RAX)] +
            [Pop(RAX), Pop(RBX), SubRR(RAX, RBX), Push(RAX)]
  {
    hide OpsOk, OpsCode;
    NoOpsCode(m, 2, 2);
    OpsCodeAppend(m, 2, 2, [], GET0);
    OpsCodeAppend(m, 2, 2, [] + [GET0], GET1);
    OpsCodeAppend(m, 2, 2, [] + [GET0] + [GET1], I64Sub);
    OpsCodeAppend(m, 2, 2, [] + [GET0] + [GET1] + [I64Sub], End);
    assert [GET0, GET1, I64Sub] + [End] == [] + [GET0] + [GET1] + [I64Sub] + [End];
  }

  lemma SubtractingFunction()
    ensures BodyOk(Subtracting(), 0)
    ensures [Dq(0)] + FuncCode(Subtracting(), 0) == Before()
  {
    hide OpsOk, OpsCode, Resolved, StoreParams;
    var m, t := Subtracting(), FuncType(2, 1);
    OneType(t, [], [GET0, GET1, I64Sub]);
    SubtractingBody(m);
    TwoStores();
  }

  lemma TwoStores()
    ensures StoreParams(2, 2) == [MovRmR(M(8), RSI), MovRmR(M(16), RDI)]
  {
    assert StoreParams(2, 1) == [MovRmR(M(8), RSI)];
  }

  lemma SubtractingEmitted()
    ensures Compilable(Subtracting()) && StreamOf(Subtracting(), 1) == Before()
  {
    hide FuncCode, BodyOk, Before;
    var m := Subtracting();
    SubtractingFunction();
    assert ImportCode(m, 0) == [];
    assert HeadCode(m, 1) == [Dq(0)];
  }

  lemma Fuses(x: seq<Instr>, a: Reg, b: Reg, y: seq<Instr>)
    ensures Rewrites(x + [Push(a), Pop(b)] + y, x + [Mov(b, a)] + y)
  {
    assert RewritesBy(x + [Push(a), Pop(b)] + y, x + [Mov(b, a)] + y, x, [Push(a), Pop(b)], [Mov(b, a)], y);
  }

  lemma Drops(x: seq<Instr>, a: Reg, y: seq<Instr>)
    ensures Rewrites(x + [Mov(a, a)] + y, x + y)
  {
    assert x + [] + y == x + y;
    assert RewritesBy(x + [Mov(a, a)] + y, x + y, x, [Mov(a, a)], [], y);
  }

  lemma Vanishes(x: seq<Instr>, a: Reg, y: seq<Instr>)
    ensures Reduces(x + [Push(a), Pop(a)] + y, x + y, 2)
  {
    hide Rewrites;
    Fuses(x, a, a, y);
    Drops(x, a, y);
    assert Reduces(x + y, x + y, 0);
    assert Reduces(x + [Mov(a, a)] + y, x + y, 1);
  }

  lemma BeforeReduces()
    ensures Reduces(Before(), After(), 4)
  {
    hide Enter, Leave, Reduces;
    var x := Enter() + [MovRRm(RAX, 8), Push(RAX), MovRRm(RAX, 16)];
    var pair, y, z := [Push(RAX), Pop(RAX)], [Pop(RBX), SubRR(RAX, RBX)], Leave();
    Vanishes(x, RAX, y + pair + z);
    Vanishes(x + y, RAX, z);
    assert Before() == x + pair + (y + pair + z);
    assert x + (y + pair + z) == x + y + pair + z;
    assert After() == x + y + z;
    ReducesTrans(Before(), x + y + pair + z, 2, After(), 2);
  }

  lemma AfterIsNormal()
    ensures NormalForm(After())
  {
    hide NormalForm, RuleAt;
    var c := After();
    forall i | 0 <= i < |c| ensures RuleAt(c[i..]) == Keep { KeptIff(c, i); }
    NormalIffNothingApplies(c);
  }

  /** The repository's example compiles to exactly these instructions. */
  lemma SubtractingOptimized()
    ensures Compilable(Subtracting()) && OptimizedCode(Subtracting()) == After()
  {
    hide StreamOf, LabelsOf, Fix, Reduces, NormalForm, Compilable, Before, After;
    SubtractingEmitted();
    BeforeReduces();
    AfterIsNormal();
    var n := OptimizedIsTheNormalForm(StreamOf(Subtracting(), 1), LabelsOf(Subtracting(), 1));
  }
}
