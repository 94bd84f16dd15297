/**
 The finished object's code: what the label binder makes of the optimised stream, with each label on
 its zero-size marker, runs in step with that stream.
 */
module BoundCode {
  import opened Base
  import opened X86
  import opened RawX86
  import opened Wasm
  import opened Optimizer
  import opened Relocation
  import opened Shadowing
  import opened Streams
  import opened CodeGen
  import opened Placement
  import opened CodeSemantics
  import opened CallSimulation
  import opened Correctness
  import opened EndToEnd
  import opened Hardware
  import opened Binder
  import opened Assembly

  /** Where instruction `i`, or its marker if it has one, lies in the bound stream. */
  function Place(code: seq<Instr>, labels: seq<LabelIndex>, i: nat): nat {
    if i <= |code| then |Bound(code, labels, i)| else |Bound(code, labels, |code|)| + (i - |code|)
  }

  function Marks(labels: seq<LabelIndex>, i: nat): nat {
    if FindLabel(labels, i).Some? then 1 else 0
  }

  function Placer(code: seq<Instr>, labels: seq<LabelIndex>): Pc -> Pc {
    (pc: Pc) => if pc.At? then At(Place(code, labels, pc.i)) else pc
  }

  /** The bound stream, labels at their markers. */
  function BoundProgram(code: seq<Instr>, labels: seq<LabelIndex>): Program {
    Program(Bound(code, labels, |code|), map l | l in LabelMap(labels) :: Place(code, labels, LabelMap(labels)[l]))
  }

  lemma {:induction false} BoundPrefix(code: seq<Instr>, labels: seq<LabelIndex>, i: nat, k: nat)
    requires i <= k <= |code|
    ensures Bound(code, labels, i) <= Bound(code, labels, k)
    decreases k
  {
    if i < k { BoundPrefix(code, labels, i, k - 1); }
  }

  lemma PlacedAt(code: seq<Instr>, labels: seq<LabelIndex>, i: nat)
    requires i < |code|
    ensures var bound, at, marks := Bound(code, labels, |code|), Place(code, labels, i), Marks(labels, i);
            && at + marks < |bound| && bound[at + marks] == code[i] && (marks == 1 ==> bound[at] == ZeroBytes)
            && Place(code, labels, i + 1) == at + marks + 1
  {
    BoundPrefix(code, labels, i + 1, |code|);
    var next := Bound(code, labels, i + 1);
    assert next == Bound(code, labels, i) + (if FindLabel(labels, i).Some? then [ZeroBytes] else []) + [code[i]];
  }

  lemma {:induction false} DataPlaced(code: seq<Instr>, labels: seq<LabelIndex>, i: nat)
    requires DataAt(code, i)
    ensures DataAt(Bound(code, labels, |code|), Place(code, labels, i))
    decreases |code| - i
  {
    hide Place, Bound, Marks;
    PlacedAt(code, labels, i);
    if code[i].ZeroBytes? { DataPlaced(code, labels, i + 1); }
    var bound, at := Bound(code, labels, |code|), Place(code, labels, i);
    assert DataAt(bound, at + Marks(labels, i));
    assert Marks(labels, i) <= 1 by { MarksAre(labels, i); }
  }

  lemma MarksAre(labels: seq<LabelIndex>, i: nat)
    ensures Marks(labels, i) <= 1
  {
  }

  /** The instruction proper, from behind its marker. */
  lemma PlacedStep(code: seq<Instr>, labels: seq<LabelIndex>, env: Env, i: nat, s: Cpu)
    requires Step(ProgramOf(code, labels), env, State(At(i), s)).Some?
    ensures var g, t := Placer(code, labels), Step(ProgramOf(code, labels), env, State(At(i), s)).value;
            var at := Place(code, labels, i) + Marks(labels, i);
            Step(BoundProgram(code, labels), env, State(At(at), MapCpu(g, s))) == Some(Relocate(g, t))
  {
    hide Place, Bound, Marks, Exec, External, LabelMap, PushVal, SetReg, Release;
    var g, p, q := Placer(code, labels), ProgramOf(code, labels), BoundProgram(code, labels);
    PlacedAt(code, labels, i);
    match code[i]
    case CallLabel(l) => PushCommutes(g, env, s, Code(At(i + 1)));
    case Ret => ReleaseCommutes(g, s, WordOf(s, RSP) + 8);
    case MovRSlot(r, l) =>
      DataPlaced(code, labels, p.labels[l]);
      SetRegCommutes(g, s, r, Import(l.f));
    case CallReg(r) => ExternalCommutes(g, env, s, s.regs[r].f);
    case ins => ExecCommutes(g, env, ins, s);
  }

  /** One step of the stream is one step of the bound code, after the marker if there is one. */
  lemma BoundStep(code: seq<Instr>, labels: seq<LabelIndex>, env: Env, s: State) returns (n: nat)
    requires Step(ProgramOf(code, labels), env, s).Some?
    ensures 1 <= n <= 2
    ensures var g, t := Placer(code, labels), Step(ProgramOf(code, labels), env, s).value;
            Run(BoundProgram(code, labels), env, Relocate(g, s), n) == Some(Relocate(g, t))
  {
    hide Place, Bound, Marks, LabelMap;
    var g, q, i := Placer(code, labels), BoundProgram(code, labels), s.pc.i;
    PlacedAt(code, labels, i);
    MarksAre(labels, i);
    PlacedStep(code, labels, env, i, s.cpu);
    n := Marks(labels, i) + 1;
    var at, t := Place(code, labels, i), Relocate(g, Step(ProgramOf(code, labels), env, s).value);
    assert Run(q, env, t, 0) == Some(t);
    assert Run(q, env, State(At(at + Marks(labels, i)), MapCpu(g, s.cpu)), 1) == Some(t);
  }

  /** Whole runs: the bound code does what the stream does, in at most twice as many steps. */
  lemma {:induction false} BoundRuns(
    code: seq<Instr>, labels: seq<LabelIndex>, env: Env, s: State, n: nat)
    returns (k: nat)
    requires Run(ProgramOf(code, labels), env, s, n).Some?
    ensures n <= k <= 2 * n
    ensures var g, t := Placer(code, labels), Run(ProgramOf(code, labels), env, s, n).value;
            Run(BoundProgram(code, labels), env, Relocate(g, s), k) == Some(Relocate(g, t))
    decreases n
  {
    hide Step, BoundProgram, ProgramOf, Relocate;
    k := 0;
    if n > 0 {
      var p, q, g := ProgramOf(code, labels), BoundProgram(code, labels), Placer(code, labels);
      var t := Step(p, env, s).value;
      var first := BoundStep(code, labels, env, s);
      var rest := BoundRuns(code, labels, env, t, n - 1);
      RunCompose(q, env, Relocate(g, s), first, Relocate(g, t), rest);
      k := first + rest;
    }
  }

  // ----- the finished object -----

  /** An object's code as a program: calls and slots find their labels at the markers. */
  function ObjectProgram(m: Module): Program
    requires Compilable(m)
  {
    BoundProgram(OptimizedCode(m), OptimizedLabels(m))
  }

  /** The program is the object's code, and function f's label is at the byte recorded as its entry point. */
  predicate EntryIsRecorded(m: Module, size: Instr -> nat, f: nat)
    requires Compilable(m)
  {
    var o, p, l := ObjectOf(m, size), ObjectProgram(m), BodyOf(f);
    && p.code == o.code && l in p.labels && p.labels[l] < |o.code|
    && EntryPoint(o, f) == Some(SizeOf(size, o.code[..p.labels[l]]))
  }

  lemma EntryPointIsLabel(m: Module, size: Instr -> nat, f: nat)
    requires Compilable(m) && SizesOk(size) && ImportCount(m) <= f < ImportCount(m) + |m.bodies|
    ensures EntryIsRecorded(m, size, f)
  {
    hide LabelMap, Entries, SizesOk, SizeOf, OptimizedCode, OptimizedLabels, Heights, ExportMap, ImportRefs,
         TableWords, Marks, FindLabel;
    var code, labels := OptimizedCode(m), OptimizedLabels(m);
    EntryPoints(m, size, f);
    var i := LabelMap(labels)[BodyOf(f)];
    BoundSize(size, code, labels, i);
    BoundPrefix(code, labels, i, |code|);
    PlacedAt(code, labels, i);
    var bound := Bound(code, labels, |code|);
    assert bound[..|Bound(code, labels, i)|] == Bound(code, labels, i);
  }

  lemma PlainPlaced(code: seq<Instr>, labels: seq<LabelIndex>, s: Cpu)
    requires Plain(s)
    ensures MapCpu(Placer(code, labels), s) == s
  {
    var g := Placer(code, labels);
    assert MapVals(g, s.regs) == s.regs;
    forall a | a in s.mem ensures MapVal(g, s.mem[a]) == s.mem[a] {}
    assert MapVals(g, s.mem) == s.mem;
  }

  lemma PlacedSame(code: seq<Instr>, labels: seq<LabelIndex>, s: Cpu)
    ensures SameCpu(s, MapCpu(Placer(code, labels), s))
  {
  }

  /**
   The object's own code, entered at the byte its recorded entry point names: whenever the operator
   semantics gives an answer, it leaves the module with that answer and everything else as it was.
   */
  lemma ObjectCodeIsCorrect(
    m: Module, size: Instr -> nat, env: Env, j: nat, args: seq<int>, s: Cpu, sp: int, ret: Pc, fuel: nat)
    returns (n: nat, t: Cpu)
    requires Compilable(m) && EnvOk(m, env) && SizesOk(size)
    requires EvalFunc(m, env.oracle, j, args, s.trace, fuel).Done?
    requires Entered(s, sp, ret, args) && ret.Exited? && Plain(s)
    requires env.floor <= sp - EvalFunc(m, env.oracle, j, args, s.trace, fuel).value.need
    ensures EntryIsRecorded(m, size, ImportCount(m) + j)
    ensures var p, l := ObjectProgram(m), BodyOf(ImportCount(m) + j);
            l in p.labels && Run(p, env, EnterAt(p, l, s), n) == Some(State(ret, t))
    ensures Returned(s, t, sp, EvalFunc(m, env.oracle, j, args, s.trace, fuel).value)
  {
    hide Run, EvalFunc, Optimized, Unoptimized, Shadowed, SizesOk, SizeOf, Place, Returned, EntryIsRecorded,
         ObjectProgram, Compilable, Entered, Plain;
    EntryPointIsLabel(m, size, ImportCount(m) + j);
    var k, u, original := CompiledCodeIsCorrect(m, env, j, args, s, sp, ret, fuel);
    n, t := BoundReturns(m, env, BodyOf(ImportCount(m) + j), s, k, ret, u, sp,
      EvalFunc(m, env.oracle, j, args, s.trace, fuel).value);
  }

  lemma BoundReturns(
    m: Module, env: Env, l: Label, s: Cpu, k: nat, ret: Pc, u: Cpu, sp: int, a: Answer)
    returns (n: nat, t: Cpu)
    requires Compilable(m) && Plain(s) && ret.Exited? && Returned(s, u, sp, a)
    requires l in Optimized(m).labels && Run(Optimized(m), env, EnterAt(Optimized(m), l, s), k) == Some(State(ret, u))
    ensures l in ObjectProgram(m).labels
    ensures Run(ObjectProgram(m), env, EnterAt(ObjectProgram(m), l, s), n) == Some(State(ret, t))
            && Returned(s, t, sp, a)
  {
    hide Run, OptimizedCode, OptimizedLabels, LabelMap, Place, Returned, Compilable, Plain, MapCpu, Bound;
    var code, labels := OptimizedCode(m), OptimizedLabels(m);
    n := BoundRuns(code, labels, env, EnterAt(Optimized(m), l, s), k);
    t := MapCpu(Placer(code, labels), u);
    PlainPlaced(code, labels, s);
    PlacedSame(code, labels, u);
    ReturnedSame(s, u, t, sp, a);
  }

  /** And so does every run of the raw machine: it never gets stuck before. */
  lemma EveryObjectRunReturns(
    m: Module, size: Instr -> nat, env: Env, j: nat, args: seq<int>, s: Cpu, sp: int, ret: Pc, fuel: nat)
    returns (n: nat)
    requires Compilable(m) && EnvOk(m, env) && SizesOk(size)
    requires EvalFunc(m, env.oracle, j, args, s.trace, fuel).Done?
    requires Entered(s, sp, ret, args) && ret.Exited? && Plain(s)
    requires env.floor <= sp - EvalFunc(m, env.oracle, j, args, s.trace, fuel).value.need
    ensures EntryIsRecorded(m, size, ImportCount(m) + j)
    ensures var p, l := ObjectProgram(m), BodyOf(ImportCount(m) + j);
            && l in p.labels
            && EveryRunSees(p, env, EnterAt(p, l, s), n, sp, ret, EvalFunc(m, env.oracle, j, args, s.trace, fuel).value)
  {
    hide Run, EvalFunc, ObjectProgram, EntryIsRecorded, RawStep, SizesOk, BodiesOk, Returned, EveryRunSees;
    var t;
    n, t := ObjectCodeIsCorrect(m, size, env, j, args, s, sp, ret, fuel);
    var l, p, a := BodyOf(ImportCount(m) + j), ObjectProgram(m), EvalFunc(m, env.oracle, j, args, s.trace, fuel).value;
    RawRunsSee(p, env, EnterAt(p, l, s), n, t, sp, ret, a);
  }
}
