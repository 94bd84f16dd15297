/**
 The compiler as it runs: sections in order, one assembler appended to, index maps filled along the
 way, then optimisation and label binding.  Every step is proved against the functions of `CodeGen`.
 */
module Compiler {
  import opened Base
  import opened X86
  import opened Wasm
  import opened CodeGen
  import opened TypeLookup
  import opened StackHeights

  class Assembler {
    var instructions: seq<Instr>

    constructor ()
      ensures instructions == []
    {
      instructions := [];
    }

    method Add(ins: Instr)
      modifies this
      ensures instructions == old(instructions) + [ins]
    {
      instructions := instructions + [ins];
    }
  }

  /** The index maps: type section, function index to type index, import labels, body labels. */
  datatype Tables = Tables(
    typedefs: map<nat, FuncType>, types: map<nat, nat>, ils: map<nat, Label>, got: map<nat, Label>)

  /** The maps cover exactly the module's index spaces: imported functions first, then the defined ones. */
  predicate TablesOf(m: Module, t: Tables) {
    && t.typedefs == (map i: nat | i < |m.types| :: m.types[i])
    && t.types == (map f: nat | f < |FunctionTypes(m)| :: FunctionTypes(m)[f])
    && t.ils == (map f: nat | f < ImportCount(m) :: ImportSlot(f))
    && t.got == (map f: nat | ImportCount(m) <= f < |FunctionTypes(m)| :: BodyOf(f))
  }

  /** Index-space partition: every function index has exactly one of an import slot and a body label. */
  lemma IndexSpaces(m: Module, t: Tables)
    requires TablesOf(m, t)
    ensures t.ils.Keys !! t.got.Keys && t.ils.Keys + t.got.Keys == t.types.Keys
    ensures forall f: nat :: f in t.got <==> ImportCount(m) <= f < ImportCount(m) + |m.funcs|
    ensures forall f: nat :: Resolved(m, f).Some? ==> f in t.ils || f in t.got
  {
    assert |FunctionTypes(m)| == ImportCount(m) + |m.funcs|;
    forall f: nat ensures f in t.types <==> f in t.ils || f in t.got {}
    assert t.ils.Keys + t.got.Keys == t.types.Keys;
  }

  /** The type lookup: through the function index map twice, then the type section. */
  method LookUpType(ghost m: Module, t: Tables, f: nat) returns (r: Option<FuncType>)
    requires TablesOf(m, t)
    ensures r == Resolved(m, f)
  {
    if f in t.types && t.types[f] in t.types && t.types[t.types[f]] in t.typedefs {
      r := Some(t.typedefs[t.types[t.types[f]]]);
    } else {
      r := None;
    }
  }

  /** Pop arguments, taking registers from the back of the queue. */
  method EmitPops(asm: Assembler, n: nat)
    requires n <= 6
    modifies asm
    ensures asm.instructions == old(asm.instructions) + PopArgs(n)
  {
    hide PopArgs;
    ghost var goal := asm.instructions + PopArgs(n);
    var order := INTEGER_ORDER[..n];
    for k := 0 to n
      invariant order == INTEGER_ORDER[..n - k]
      invariant asm.instructions + PopArgs(n - k) == goal
    {
      ghost var before, rest := asm.instructions, PopArgs(n - k - 1);
      var r := order[|order| - 1];
      PopArgsNext(n - k);
      asm.Add(Pop(r));
      assert before + ([Pop(r)] + rest) == before + [Pop(r)] + rest;
      order := order[..|order| - 1];
    }
    NoPopArgs();
  }

  lemma PopArgsNext(n: nat)
    requires 0 < n <= 6
    ensures PopArgs(n) == [Pop(INTEGER_ORDER[n - 1])] + PopArgs(n - 1)
  {
  }

  lemma NoPopArgs()
    ensures PopArgs(0) == []
  {
  }

  /** Push results, taking registers from the front of the queue while it lasts. */
  method EmitPushes(asm: Assembler, n: nat)
    modifies asm
    ensures asm.instructions == old(asm.instructions) + PushResults(n)
  {
    var order := [RAX, RDX];
    for k := 0 to n
      invariant order == [RAX, RDX][if k <= 2 then k else 2..]
      invariant asm.instructions == old(asm.instructions) + PushResults(k)
    {
      if order != [] {
        asm.Add(Push(order[0]));
        order := order[1..];
      }
    }
  }

  /** The call arm: arguments into registers, the transfer, results back on the stack. */
  method EmitCall(ghost m: Module, asm: Assembler, t: Tables, f: nat) returns (ok: bool)
    requires TablesOf(m, t)
    modifies asm
    ensures ok <==> OpOk(m, 0, Call(f))
    ensures ok ==> asm.instructions == old(asm.instructions) + OpCode(m, 0, 0, Call(f))
  {
    hide PopArgs, PushResults, Resolved, FunctionTypes;
    IndexSpaces(m, t);
    var ty := LookUpType(m, t, f);
    if ty.None? || ty.value.params > 6 { return false; }
    EmitPops(asm, ty.value.params);
    if f !in t.got {
      if f in t.ils {
        asm.Add(MovRSlot(R10, t.ils[f]));
        asm.Add(CallReg(R10));
      }
    } else {
      asm.Add(CallLabel(t.got[f]));
    }
    assert asm.instructions == old(asm.instructions) + PopArgs(ty.value.params) + CallCode(m, f);
    EmitPushes(asm, ty.value.results);
    ok := true;
  }

  /** `handle_instruction`. */
  method HandleInstruction(
    ghost m: Module, asm: Assembler, t: Tables, ghost p: nat, locals: seq<nat>, op: Op)
    returns (ok: bool)
    requires TablesOf(m, t) && locals == Offsets(p, |locals|)
    modifies asm
    ensures ok <==> OpOk(m, |locals|, op)
    ensures ok ==> asm.instructions == old(asm.instructions) + OpCode(m, p, |locals|, op)
  {
    ok := true;
    match op
    case I64Const(v) => asm.Add(MovRImm(RAX, v)); asm.Add(Push(RAX));
    case I64Add => asm.Add(Pop(RAX)); asm.Add(Pop(RBX)); asm.Add(AddRR(RAX, RBX)); asm.Add(Push(RAX));
    case I64Sub => asm.Add(Pop(RAX)); asm.Add(Pop(RBX)); asm.Add(SubRR(RAX, RBX)); asm.Add(Push(RAX));
    case Call(f) => ok := EmitCall(m, asm, t, f);
    case Nop => asm.Add(X86.Nop);
    case End =>
    case LocalGet(i) =>
      if i >= |locals| { return false; }
      asm.Add(MovRRm(RAX, locals[i])); asm.Add(Push(RAX));
    case LocalSet(i) =>
      if i >= |locals| { return false; }
      asm.Add(Pop(RAX)); asm.Add(MovRmR(M(locals[i]), RAX));
  }

  /** Offsets of parameters and declared locals, group by group, and the frame's size. */
  method LayOut(t: FuncType, groups: seq<nat>) returns (locals: seq<nat>, size: nat)
    ensures locals == Offsets(t.params, t.params + Sum(groups))
    ensures size == 8 * (t.params + Sum(groups))
  {
    locals, size := [], 0;
    for k := 0 to t.params
      invariant locals == Offsets(t.params, k) && size == 8 * k
    {
      locals := locals + [size + 8];
      size := size + 8;
    }
    for g := 0 to |groups|
      invariant locals == Offsets(t.params, t.params + Sum(groups[..g])) && size == 8 * (t.params + Sum(groups[..g]))
    {
      var count := groups[g];
      ghost var before := t.params + Sum(groups[..g]);
      for i := 0 to count
        invariant locals == Offsets(t.params, before + i)
      {
        locals := locals + [size + 8 * i];
      }
      size := size + 8 * count;
      assert groups[..g + 1][..g] == groups[..g];
    }
    assert groups[..|groups|] == groups;
  }

  method EmitPrologue(asm: Assembler, t: FuncType, size: nat)
    requires t.params <= 6
    modifies asm
    ensures asm.instructions == old(asm.instructions) + Prologue(t, size)
  {
    asm.Add(Push(RBP));
    asm.Add(MovRmR(R(RBP), RSP));
    if size > 0 { asm.Add(SubRspImm(size)); }
    ghost var frame := asm.instructions;
    var order := INTEGER_ORDER[..t.params];
    for k := 0 to t.params
      invariant order == INTEGER_ORDER[..t.params - k]
      invariant asm.instructions == frame + StoreParams(t.params, k)
    {
      asm.Add(MovRmR(M(8 * (k + 1)), order[|order| - 1]));
      order := order[..|order| - 1];
    }
  }

  method EmitEpilogue(asm: Assembler, t: FuncType, size: nat)
    modifies asm
    ensures asm.instructions == old(asm.instructions) + Epilogue(t, size)
  {
    var results := [RAX, RDX];
    for k := 0 to t.results
      invariant results == [RAX, RDX][if k <= 2 then k else 2..]
      invariant asm.instructions == old(asm.instructions) + PopResults(k)
    {
      if results != [] {
        asm.Add(Pop(results[0]));
        results := results[1..];
      }
    }
    if size > 0 { asm.Add(AddRspImm(size)); }
    asm.Add(MovRmR(R(RSP), RBP));
    asm.Add(Pop(RBP));
    asm.Add(Ret);
  }

  /** The operators of a body, and the largest operand stack height validation saw. */
  method EmitOps(
    ghost m: Module, asm: Assembler, t: Tables, ghost p: nat, locals: seq<nat>, ops: seq<Op>,
    sig: nat -> Option<FuncType>)
    returns (ok: bool, height: int)
    requires TablesOf(m, t) && locals == Offsets(p, |locals|)
    modifies asm
    ensures ok <==> OpsOk(m, |locals|, ops)
    ensures ok ==> asm.instructions == old(asm.instructions) + OpsCode(m, p, |locals|, ops)
    ensures ok ==> height == Peak(sig, ops)
  {
    hide TablesOf, OpOk, OpCode, HeightAfter, Offsets;
    var current := 0;
    height := 0;
    for k := 0 to |ops|
      invariant OpsOk(m, |locals|, ops[..k])
      invariant asm.instructions == old(asm.instructions) + OpsCode(m, p, |locals|, ops[..k])
      invariant current == Height(sig, ops[..k]) && height == Peak(sig, ops[..k])
    {
      current := HeightAfter(sig, ops[k], current);
      height := Max(height, current);
      ok := HandleInstruction(m, asm, t, p, locals, ops[k]);
      if !ok { return; }
      assert ops[..k + 1][..k] == ops[..k];
    }
    assert ops[..|ops|] == ops;
    ok := true;
  }

  /** One code section entry. */
  method EmitFunction(m: Module, asm: Assembler, t: Tables, j: nat) returns (ok: bool, height: nat)
    requires TablesOf(m, t) && j < |m.bodies|
    modifies asm
    ensures ok <==> BodyOk(m, j)
    ensures ok ==> asm.instructions == old(asm.instructions) + FuncCode(m, j)
    ensures ok ==> height == RecordedHeight(m, j)
  {
    hide TablesOf, OpsOk, OpsCode, Prologue, Epilogue, Peak, Offsets, Resolved, Sum;
    var f := ImportCount(m) + j;
    IndexSpaces(m, t);
    var ty := LookUpType(m, t, f);
    height := 0;
    if ty.None? || f !in t.got || ty.value.params > 6 { return false, 0; }
    var locals, size := LayOut(ty.value, m.bodies[j].groups);
    EmitPrologue(asm, ty.value, size);
    var h;
    ok, h := EmitOps(m, asm, t, ty.value.params, locals, m.bodies[j].ops, Declarer(m));
    if !ok { return; }
    height := h;
    EmitEpilogue(asm, ty.value, size);
  }
}
