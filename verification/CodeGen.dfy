/** What the compiler emits for each operator, function and module, and why the optimiser may run on it. */
module CodeGen {
  import opened X86
  import opened Wasm
  import opened Optimizer
  import opened Streams

  // ----- frame layout -----

  /**
   Byte offset below rbp of local `i` in a function of `p` parameters.  A parameter's offset
   includes its own size; a declared local's does not.
   */
  function LocalOffset(p: nat, i: nat): (off: nat)
    ensures off % 8 == 0
  {
    if i < p then 8 * (i + 1) else 8 * i
  }

  function Offsets(p: nat, n: nat): (r: seq<nat>)
    ensures |r| == n
  {
    seq(n, i requires 0 <= i < n => LocalOffset(p, i))
  }

  function LocalsSize(t: FuncType, b: Body): (n: nat)
    ensures n % 8 == 0
  {
    8 * LocalCount(t, b)
  }

  /**
   Where one local lies: inside the allocated area, just below the saved rbp or further down; on the
   saved rbp exactly if it is the first declared local of a function without parameters.
   */
  lemma LocalLayout(t: FuncType, b: Body, i: nat)
    requires i < LocalCount(t, b)
    ensures LocalOffset(t.params, i) <= LocalsSize(t, b)
    ensures LocalOffset(t.params, i) == 0 <==> t.params == 0 && i == 0
  {
  }

  /**
   Two locals share a slot exactly when they are last parameter and first declared local; else they
   are words apart.
   */
  lemma SharedSlotIff(t: FuncType, b: Body, i: nat, j: nat)
    requires i < j < LocalCount(t, b)
    ensures LocalOffset(t.params, i) == LocalOffset(t.params, j) <==> i + 1 == t.params && j == t.params
    ensures LocalOffset(t.params, i) != LocalOffset(t.params, j) ==>
              LocalOffset(t.params, i) + 8 <= LocalOffset(t.params, j)
  {
  }

  function SlotsOf(p: nat, lo: nat, hi: nat): set<nat> {
    set i | lo <= i < hi :: LocalOffset(p, i)
  }

  /**
   Tiling: parameters take every word just below the saved rbp, declared locals every word from the
   last of those on, so that the deepest word of the allocated area is the one no local uses.
   */
  lemma SlotsTile(t: FuncType, b: Body, off: nat)
    ensures off in SlotsOf(t.params, 0, t.params) <==> off % 8 == 0 && 0 < off <= 8 * t.params
    ensures off in SlotsOf(t.params, t.params, LocalCount(t, b)) <==>
            off % 8 == 0 && 8 * t.params <= off < LocalsSize(t, b)
    ensures Sum(b.groups) > 0 ==> LocalsSize(t, b) !in SlotsOf(t.params, 0, LocalCount(t, b))
  {
    if off % 8 == 0 {
      assert off == 8 * (off / 8);
      if 0 < off <= 8 * t.params { assert LocalOffset(t.params, off / 8 - 1) == off; }
      if 8 * t.params <= off < LocalsSize(t, b) { assert LocalOffset(t.params, off / 8) == off; }
    }
  }

  // ----- operators -----

  /** Operators on which the compiler does not panic. */
  predicate OpOk(m: Module, locals: nat, op: Op) {
    match op
    case Call(f) => Resolved(m, f).Some? && Resolved(m, f).value.params <= 6
    case LocalGet(i) => i < locals
    case LocalSet(i) => i < locals
    case _ => true
  }

  /** Pop `n` arguments, the last one first. */
  function PopArgs(n: nat): (r: seq<Instr>)
    requires n <= 6
    ensures |r| == n
  {
    if n == 0 then [] else [Pop(INTEGER_ORDER[n - 1])] + PopArgs(n - 1)
  }

  function PushResults(r: nat): seq<Instr> {
    if r == 0 then [] else if r == 1 then [Push(RAX)] else [Push(RAX), Push(RDX)]
  }

  function PopResults(r: nat): seq<Instr> {
    if r == 0 then [] else if r == 1 then [Pop(RAX)] else [Pop(RAX), Pop(RDX)]
  }

  /** Transfer to an import through its slot, to a defined function through its label. */
  function CallCode(m: Module, f: nat): seq<Instr> {
    if f < ImportCount(m) then [MovRSlot(R10, ImportSlot(f)), CallReg(R10)] else [CallLabel(BodyOf(f))]
  }

  function OpCode(m: Module, p: nat, locals: nat, op: Op): seq<Instr>
    requires OpOk(m, locals, op)
  {
    match op
    case I64Const(v) => [MovRImm(RAX, v), Push(RAX)]
    case I64Add => [Pop(RAX), Pop(RBX), AddRR(RAX, RBX), Push(RAX)]
    case I64Sub => [Pop(RAX), Pop(RBX), SubRR(RAX, RBX), Push(RAX)]
    case Call(f) =>
      var t := Resolved(m, f).value;
      PopArgs(t.params) + CallCode(m, f) + PushResults(t.results)
    case Nop => [X86.Nop]
    case End => []
    case LocalGet(i) => [MovRRm(RAX, LocalOffset(p, i)), Push(RAX)]
    case LocalSet(i) => [Pop(RAX), MovRmR(M(LocalOffset(p, i)), RAX)]
  }

  predicate OpsOk(m: Module, locals: nat, ops: seq<Op>) {
    forall k :: 0 <= k < |ops| ==> OpOk(m, locals, ops[k])
  }

  function OpsCode(m: Module, p: nat, locals: nat, ops: seq<Op>): seq<Instr>
    requires OpsOk(m, locals, ops)
  {
    if ops == [] then []
    else OpsCode(m, p, locals, ops[..|ops| - 1]) + OpCode(m, p, locals, ops[|ops| - 1])
  }

  // ----- functions -----

  /** Store the first `k` of `n` parameters, taking argument registers from the back. */
  function StoreParams(n: nat, k: nat): (r: seq<Instr>)
    requires k <= n <= 6
    ensures |r| == k
  {
    if k == 0 then [] else StoreParams(n, k - 1) + [MovRmR(M(8 * k), INTEGER_ORDER[n - k])]
  }

  function Prologue(t: FuncType, size: nat): seq<Instr>
    requires t.params <= 6
  {
    [Push(RBP), Mov(RBP, RSP)] + (if size > 0 then [SubRspImm(size)] else []) + StoreParams(t.params, t.params)
  }

  function Epilogue(t: FuncType, size: nat): seq<Instr> {
    PopResults(t.results) + (if size > 0 then [AddRspImm(size)] else []) + [Mov(RSP, RBP), Pop(RBP), Ret]
  }

  /** Code section entry `j` compiles without a panic. */
  predicate BodyOk(m: Module, j: nat)
    requires j < |m.bodies|
  {
    var f := ImportCount(m) + j;
    && j < |m.funcs|
    && Resolved(m, f).Some? && Resolved(m, f).value.params <= 6
    && OpsOk(m, LocalCount(Resolved(m, f).value, m.bodies[j]), m.bodies[j].ops)
  }

  function TypeOf(m: Module, j: nat): FuncType
    requires j < |m.bodies| && BodyOk(m, j)
  {
    Resolved(m, ImportCount(m) + j).value
  }

  function FuncCode(m: Module, j: nat): seq<Instr>
    requires j < |m.bodies| && BodyOk(m, j)
  {
    var t, b := TypeOf(m, j), m.bodies[j];
    Prologue(t, LocalsSize(t, b)) + OpsCode(m, t.params, LocalCount(t, b), b.ops) + Epilogue(t, LocalsSize(t, b))
  }

  // ----- modules -----

  /** The first `k` code section entries compile without a panic. */
  predicate BodiesOk(m: Module, k: nat)
    requires k <= |m.bodies|
  {
    forall j :: 0 <= j < k ==> BodyOk(m, j)
  }

  predicate Compilable(m: Module) {
    BodiesOk(m, |m.bodies|)
  }

  const UNLINKED: int := 0xBADC0FFEE0DDF00D

  function ImportCode(m: Module, k: nat): seq<Instr>
    requires k <= |m.imports|
  {
    if k == 0 then []
    else ImportCode(m, k - 1) + (if m.imports[k - 1].FuncImport? then [ZeroBytes, Dq(UNLINKED)] else [ZeroBytes])
  }

  function ImportLabels(m: Module, k: nat): seq<LabelIndex>
    requires k <= |m.imports|
  {
    if k == 0 then []
    else ImportLabels(m, k - 1) +
         if m.imports[k - 1].FuncImport?
         then [LabelIndex(|ImportCode(m, k - 1)| + 1, ImportSlot(|ImportTypes(m, k - 1)|))] else []
  }

  function TableCode(k: nat): (r: seq<Instr>)
    ensures |r| == k
  {
    seq(k, _ => Dq(0))
  }

  /** Code and labels of the imports and the first `k` entries of the function section. */
  function HeadCode(m: Module, k: nat): seq<Instr> {
    ImportCode(m, |m.imports|) + TableCode(k)
  }

  function HeadLabels(m: Module, k: nat): seq<LabelIndex> {
    ImportLabels(m, |m.imports|) +
    seq(k, i requires 0 <= i < k => LabelIndex(|ImportCode(m, |m.imports|)| + i, TableEntry(ImportCount(m) + i)))
  }

  /** Code and labels once the first `k` bodies are done. */
  function StreamOf(m: Module, k: nat): seq<Instr>
    requires k <= |m.bodies| && BodiesOk(m, k)
  {
    if k == 0 then HeadCode(m, |m.funcs|) else StreamOf(m, k - 1) + FuncCode(m, k - 1)
  }

  function LabelsOf(m: Module, k: nat): seq<LabelIndex>
    requires k <= |m.bodies| && BodiesOk(m, k)
  {
    if k == 0 then HeadLabels(m, |m.funcs|)
    else LabelsOf(m, k - 1) + [LabelIndex(|StreamOf(m, k - 1)|, BodyOf(ImportCount(m) + k - 1))]
  }

  // ----- the emitted stream meets the neighbour conditions -----

  /** Imposes nothing on what comes next. */
  predicate Quiet(x: Instr) {
    x != Push(RBP) && x != Mov(RSP, RBP) && x != Pop(RAX) && !(IsRegMove(x) && x.dst.reg == RAX)
  }

  /** Imposes nothing on what came before. */
  predicate Opens(y: Instr) {
    y != Push(RDX) && !(IsRegMove(y) && y.src == RDX) && y != Pop(RBP) && y != Mov(RBP, RSP)
  }

  /** A block that can stand anywhere between quiet neighbours. */
  predicate Calm(b: seq<Instr>) {
    b == [] || (Opens(b[0]) && Quiet(b[|b| - 1]) && Chain(X86.Nop, b))
  }

  lemma CalmConcat(a: seq<Instr>, b: seq<Instr>)
    requires Calm(a) && Calm(b)
    ensures Calm(a + b)
  {
    if a == [] {
      assert a + b == b;
    } else if b == [] {
      assert a + b == a;
    } else {
      ChainConcat(X86.Nop, a, b);
    }
  }

  lemma {:induction false} CalmPops(n: nat)
    requires n <= 6
    ensures Calm(PopArgs(n))
  {
    if n > 0 {
      CalmPops(n - 1);
      CalmOne(Pop(INTEGER_ORDER[n - 1]));
      CalmConcat([Pop(INTEGER_ORDER[n - 1])], PopArgs(n - 1));
    }
  }

  lemma CalmCall(m: Module, f: nat)
    requires OpOk(m, 0, Call(f))
    ensures var t := Resolved(m, f).value;
            Calm(PopArgs(t.params) + CallCode(m, f) + PushResults(t.results))
  {
    hide Chain, Calm, PopArgs, Resolved;
    var t := Resolved(m, f).value;
    CalmPops(t.params);
    if f < ImportCount(m) { CalmTwo(CallCode(m, f)); } else { CalmOne(CallLabel(BodyOf(f))); }
    CalmConcat(PopArgs(t.params), CallCode(m, f));
    CalmResults(t.results);
    CalmConcat(PopArgs(t.params) + CallCode(m, f), PushResults(t.results));
  }

  lemma CalmResults(r: nat)
    ensures Calm(PushResults(r))
  {
    hide Chain, Calm;
    CalmNone();
    if r == 1 { CalmOne(Push(RAX)); } else if r > 1 { CalmTwo(PushResults(r)); }
  }

  lemma CalmOp(m: Module, p: nat, locals: nat, op: Op)
    requires OpOk(m, locals, op)
    ensures Calm(OpCode(m, p, locals, op))
  {
    hide Chain, Calm, PopArgs;
    match op
    case I64Const(v) => CalmTwo([MovRImm(RAX, v), Push(RAX)]);
    case I64Add => CalmFour([Pop(RAX), Pop(RBX), AddRR(RAX, RBX), Push(RAX)]);
    case I64Sub => CalmFour([Pop(RAX), Pop(RBX), SubRR(RAX, RBX), Push(RAX)]);
    case Call(f) => CalmCall(m, f);
    case Nop => CalmOne(X86.Nop);
    case End => CalmNone();
    case LocalGet(i) => CalmTwo([MovRRm(RAX, LocalOffset(p, i)), Push(RAX)]);
    case LocalSet(i) => CalmTwo([Pop(RAX), MovRmR(M(LocalOffset(p, i)), RAX)]);
  }

  lemma ChainEnd(x: Instr)
    requires Quiet(x)
    ensures Chain(x, [])
  {
  }

  lemma CalmNone()
    ensures Calm([])
  {
  }

  lemma CalmOne(a: Instr)
    requires Shape(a) && Opens(a) && Quiet(a)
    ensures Calm([a])
  {
    hide Chain;
    ChainEnd(a);
    ChainCons(X86.Nop, a, []);
    assert [a] + [] == [a];
  }

  lemma CalmTwo(b: seq<Instr>)
    requires |b| == 2 && Shape(b[0]) && Shape(b[1]) && Opens(b[0]) && Quiet(b[1]) && Follows(b[0], b[1])
    ensures Calm(b)
  {
    hide Chain;
    ChainEnd(b[1]);
    ChainCons(b[0], b[1], []);
    ChainCons(X86.Nop, b[0], [b[1]] + []);
    assert [b[0]] + ([b[1]] + []) == b;
  }

  lemma CalmFour(b: seq<Instr>)
    requires |b| == 4 && Opens(b[0]) && Quiet(b[3])
    requires Shape(b[0]) && Shape(b[1]) && Shape(b[2]) && Shape(b[3])
    requires Follows(b[0], b[1]) && Follows(b[1], b[2]) && Follows(b[2], b[3])
    ensures Calm(b)
  {
    hide Chain;
    ChainEnd(b[3]);
    ChainCons(b[2], b[3], []);
    ChainCons(b[1], b[2], [b[3]] + []);
    ChainCons(b[0], b[1], [b[2]] + ([b[3]] + []));
    ChainCons(X86.Nop, b[0], [b[1]] + ([b[2]] + ([b[3]] + [])));
    assert [b[0]] + ([b[1]] + ([b[2]] + ([b[3]] + []))) == b;
  }

  lemma {:induction false} CalmOps(m: Module, p: nat, locals: nat, ops: seq<Op>)
    requires OpsOk(m, locals, ops)
    ensures Calm(OpsCode(m, p, locals, ops))
  {
    if ops != [] {
      CalmOps(m, p, locals, ops[..|ops| - 1]);
      CalmOp(m, p, locals, ops[|ops| - 1]);
      CalmConcat(OpsCode(m, p, locals, ops[..|ops| - 1]), OpCode(m, p, locals, ops[|ops| - 1]));
    }
  }

  lemma {:induction false} CalmStores(n: nat, k: nat)
    requires k <= n <= 6
    ensures Calm(StoreParams(n, k))
  {
    if k > 0 {
      CalmStores(n, k - 1);
      CalmOne(MovRmR(M(8 * k), INTEGER_ORDER[n - k]));
      CalmConcat(StoreParams(n, k - 1), [MovRmR(M(8 * k), INTEGER_ORDER[n - k])]);
    }
  }

  lemma CalmFunc(m: Module, j: nat)
    requires j < |m.bodies| && BodyOk(m, j)
    ensures Calm(FuncCode(m, j))
    ensures FuncCode(m, j) != [] && FuncCode(m, j)[|FuncCode(m, j)| - 1] == Ret
  {
    hide Chain, Calm, OpsCode, StoreParams;
    var t, b := TypeOf(m, j), m.bodies[j];
    var size := LocalsSize(t, b);
    var alloc: seq<Instr> := if size > 0 then [SubRspImm(size)] else [];
    CalmNone();
    CalmOne(SubRspImm(size));
    CalmTwo([Push(RBP), Mov(RBP, RSP)]);
    CalmConcat([Push(RBP), Mov(RBP, RSP)], alloc);
    CalmStores(t.params, t.params);
    CalmConcat([Push(RBP), Mov(RBP, RSP)] + alloc, StoreParams(t.params, t.params));
    var ops := OpsCode(m, t.params, LocalCount(t, b), b.ops);
    CalmOps(m, t.params, LocalCount(t, b), b.ops);
    CalmConcat(Prologue(t, size), ops);
    CalmEpilogue(t, size);
    CalmConcat(Prologue(t, size) + ops, Epilogue(t, size));
  }

  lemma CalmEpilogue(t: FuncType, size: nat)
    ensures Calm(Epilogue(t, size))
  {
    hide Chain, Calm;
    var leave := [Mov(RSP, RBP)] + ([Pop(RBP)] + ([Ret] + []));
    ChainEnd(Ret);
    ChainCons(Pop(RBP), Ret, []);
    ChainCons(Mov(RSP, RBP), Pop(RBP), [Ret] + []);
    var free := if size > 0 then [AddRspImm(size)] + leave else leave;
    CalmLeave(X86.Nop, size, leave);
    CalmLeave(Pop(RAX), size, leave);
    CalmLeave(Pop(RDX), size, leave);
    EpiloguePops(t, free);
    assert Epilogue(t, size) == PopResults(t.results) + free;
  }

  lemma CalmLeave(x: Instr, size: nat, leave: seq<Instr>)
    requires x == X86.Nop || x == Pop(RAX) || x == Pop(RDX)
    requires leave == [Mov(RSP, RBP)] + ([Pop(RBP)] + ([Ret] + [])) && Chain(Mov(RSP, RBP), [Pop(RBP)] + ([Ret] + []))
    ensures Chain(x, if size > 0 then [AddRspImm(size)] + leave else leave)
  {
    hide Chain;
    ChainCons(x, Mov(RSP, RBP), [Pop(RBP)] + ([Ret] + []));
    ChainCons(AddRspImm(size), Mov(RSP, RBP), [Pop(RBP)] + ([Ret] + []));
    ChainCons(x, AddRspImm(size), leave);
  }

  lemma EpiloguePops(t: FuncType, free: seq<Instr>)
    requires free != [] && Opens(free[0]) && Quiet(free[|free| - 1])
    requires Chain(X86.Nop, free) && Chain(Pop(RAX), free) && Chain(Pop(RDX), free)
    ensures Calm(PopResults(t.results) + free)
  {
    hide Chain;
    if t.results == 0 {
      assert PopResults(t.results) + free == free;
    } else if t.results == 1 {
      ChainCons(X86.Nop, Pop(RAX), free);
    } else {
      TwoPops(free);
      assert PopResults(t.results) + free == [Pop(RAX)] + ([Pop(RDX)] + free);
    }
  }

  lemma TwoPops(free: seq<Instr>)
    requires free != [] && Quiet(free[|free| - 1]) && Chain(Pop(RDX), free)
    ensures Calm([Pop(RAX)] + ([Pop(RDX)] + free))
  {
    hide Chain;
    ChainCons(Pop(RAX), Pop(RDX), free);
    ChainCons(X86.Nop, Pop(RAX), [Pop(RDX)] + free);
  }

  lemma {:induction false} CalmImports(m: Module, k: nat)
    requires k <= |m.imports|
    ensures Calm(ImportCode(m, k))
  {
    if k > 0 {
      CalmImports(m, k - 1);
      CalmTwo([ZeroBytes, Dq(UNLINKED)]);
      CalmConcat(ImportCode(m, k - 1), if m.imports[k - 1].FuncImport? then [ZeroBytes, Dq(UNLINKED)] else [ZeroBytes]);
    }
  }

  lemma {:induction false} CalmTable(k: nat)
    ensures Calm(TableCode(k))
  {
    if k > 0 {
      CalmTable(k - 1);
      CalmConcat(TableCode(k - 1), [Dq(0)]);
      assert TableCode(k) == TableCode(k - 1) + [Dq(0)];
    }
  }

  /** Every stream the compiler emits meets the conditions the optimiser needs. */
  lemma {:induction false} StreamIsCalm(m: Module, k: nat)
    requires k <= |m.bodies| && Compilable(m)
    ensures Calm(StreamOf(m, k)) && Chain(X86.Nop, StreamOf(m, k))
  {
    hide Chain, FuncCode, ImportCode, TableCode, BodyOk;
    ChainEnd(X86.Nop);
    if k == 0 {
      CalmImports(m, |m.imports|);
      CalmTable(|m.funcs|);
      CalmConcat(ImportCode(m, |m.imports|), TableCode(|m.funcs|));
    } else {
      StreamIsCalm(m, k - 1);
      CalmFunc(m, k - 1);
      CalmConcat(StreamOf(m, k - 1), FuncCode(m, k - 1));
    }
  }
}
