/**
 Moving code: a machine state seen from a program whose instructions lie elsewhere.  The pc and every
 code address the state holds are renamed; instructions that do not look at code addresses commute
 with the renaming.
 */
module Relocation {
  import opened Base
  import opened X86

  function MapVal(g: Pc -> Pc, v: Val): Val {
    if v.Code? then Code(g(v.ret)) else v
  }

  function MapVals<K>(g: Pc -> Pc, m: map<K, Val>): map<K, Val> {
    map k | k in m :: MapVal(g, m[k])
  }

  function MapCpu(g: Pc -> Pc, s: Cpu): Cpu {
    Cpu(MapVals(g, s.regs), MapVals(g, s.mem), s.trace)
  }

  function MapResult(g: Pc -> Pc, r: Option<Cpu>): Option<Cpu> {
    match r
    case None => None
    case Some(s) => Some(MapCpu(g, s))
  }

  function Relocate(g: Pc -> Pc, s: State): State {
    State(g(s.pc), MapCpu(g, s.cpu))
  }

  lemma MapUpdate<K>(g: Pc -> Pc, m: map<K, Val>, k: K, v: Val)
    ensures MapVals(g, m[k := v]) == MapVals(g, m)[k := MapVal(g, v)]
  {
  }

  lemma MapAbove(g: Pc -> Pc, m: map<int, Val>, lo: int)
    ensures MapVals(g, Above(m, lo)) == Above(MapVals(g, m), lo)
  {
  }

  lemma ReleaseCommutes(g: Pc -> Pc, s: Cpu, sp: int)
    ensures MapCpu(g, Release(s, sp)) == Release(MapCpu(g, s), sp)
  {
    MapUpdate(g, s.regs, RSP, Word(sp));
    MapAbove(g, s.mem, sp);
  }

  lemma PushCommutes(g: Pc -> Pc, env: Env, s: Cpu, v: Val)
    ensures MapResult(g, PushVal(env, s, v)) == PushVal(env, MapCpu(g, s), MapVal(g, v))
  {
    if HasWord(s, RSP) {
      var sp := WordOf(s, RSP) - 8;
      MapUpdate(g, s.regs, RSP, Word(sp));
      MapUpdate(g, s.mem, sp, v);
    }
  }

  lemma SetRegCommutes(g: Pc -> Pc, s: Cpu, r: Reg, v: Val)
    ensures MapResult(g, SetReg(s, r, v)) == SetReg(MapCpu(g, s), r, MapVal(g, v))
  {
    MapUpdate(g, s.regs, r, v);
    if v.Word? { ReleaseCommutes(g, s, v.w); }
  }

  lemma ExecCommutes(g: Pc -> Pc, env: Env, ins: Instr, s: Cpu)
    ensures MapResult(g, Exec(env, ins, s)) == Exec(env, ins, MapCpu(g, s))
  {
    hide SetReg, PushVal, Release, Wrap;
    match ins
    case Push(r) => if r in s.regs { PushCommutes(g, env, s, s.regs[r]); }
    case Pop(r) =>
      if HasWord(s, RSP) && WordOf(s, RSP) in s.mem {
        var sp := WordOf(s, RSP);
        ReleaseCommutes(g, s, sp + 8);
        SetRegCommutes(g, Release(s, sp + 8), r, s.mem[sp]);
      }
    case MovRmR(R(d), src) => if src in s.regs { SetRegCommutes(g, s, d, s.regs[src]); }
    case MovRmR(M(off), src) =>
      if src in s.regs && Addressable(s, off) { MapUpdate(g, s.mem, WordOf(s, RBP) - off, s.regs[src]); }
    case MovRRm(d, off) =>
      if Addressable(s, off) && WordOf(s, RBP) - off in s.mem { SetRegCommutes(g, s, d, s.mem[WordOf(s, RBP) - off]); }
    case _ => ArithCommutes(g, env, ins, s);
  }

  lemma ArithCommutes(g: Pc -> Pc, env: Env, ins: Instr, s: Cpu)
    requires !ins.Push? && !ins.Pop? && !ins.MovRmR? && !ins.MovRRm?
    ensures MapResult(g, Exec(env, ins, s)) == Exec(env, ins, MapCpu(g, s))
  {
    hide SetReg, PushVal, Release, Wrap;
    match ins
    case MovRImm(d, imm) => SetRegCommutes(g, s, d, Word(Wrap(imm)));
    case AddRR(d, src) =>
      if HasWord(s, d) && HasWord(s, src) { SetRegCommutes(g, s, d, Word(Wrap(WordOf(s, d) + WordOf(s, src)))); }
    case SubRR(d, src) =>
      if HasWord(s, d) && HasWord(s, src) { SetRegCommutes(g, s, d, Word(Wrap(WordOf(s, d) - WordOf(s, src)))); }
    case SubRspImm(n) => if HasWord(s, RSP) { MapUpdate(g, s.regs, RSP, Word(WordOf(s, RSP) - n)); }
    case AddRspImm(n) => if HasWord(s, RSP) { ReleaseCommutes(g, s, WordOf(s, RSP) + n); }
    case _ =>
  }

  lemma ExternalCommutes(g: Pc -> Pc, env: Env, s: Cpu, f: nat)
    ensures MapResult(g, External(env, s, f)) == External(env, MapCpu(g, s), f)
  {
    var n := env.arity(f);
    if HasWord(s, RSP) && RBP in s.regs && ArgsReady(s, n) {
      assert ArgsOf(s, n) == ArgsOf(MapCpu(g, s), n);
    }
    if External(env, s, f).Some? {
      var t := External(env, s, f).value;
      assert MapVals(g, t.regs) == External(env, MapCpu(g, s), f).value.regs;
    }
  }

  /** A step brings in no code address but the module's own: whatever renaming leaves those alone. */
  lemma StepFixed(g: Pc -> Pc, p: Program, env: Env, s: State)
    requires Step(p, env, s).Some? && MapCpu(g, s.cpu) == s.cpu
    requires forall i: nat :: g(At(i)) == At(i)
    ensures MapCpu(g, Step(p, env, s).value.cpu) == Step(p, env, s).value.cpu
  {
    hide MapCpu, Exec, External, PushVal, SetReg, Release;
    var i, cpu := s.pc.i, s.cpu;
    match p.code[i]
    case CallLabel(l) => PushCommutes(g, env, cpu, Code(At(i + 1)));
    case Ret => ReleaseCommutes(g, cpu, WordOf(cpu, RSP) + 8);
    case MovRSlot(r, l) => SetRegCommutes(g, cpu, r, Import(l.f));
    case CallReg(r) => ExternalCommutes(g, env, cpu, cpu.regs[r].f);
    case ins => ExecCommutes(g, env, ins, cpu);
  }

  // ----- equality up to code addresses -----

  predicate SameVal(v: Val, w: Val) {
    v == w || (v.Code? && w.Code? && v.ret.At? && w.ret.At?)
  }

  /** Equal but for which instruction of the module a leftover return address names. */
  predicate SameCpu(s: Cpu, t: Cpu) {
    && s.trace == t.trace && s.regs.Keys == t.regs.Keys && s.mem.Keys == t.mem.Keys
    && (forall r :: r in s.regs ==> SameVal(s.regs[r], t.regs[r]))
    && (forall a :: a in s.mem ==> SameVal(s.mem[a], t.mem[a]))
  }

  lemma SameCpuTrans(a: Cpu, b: Cpu, c: Cpu)
    requires SameCpu(a, b) && SameCpu(b, c)
    ensures SameCpu(a, c)
  {
  }

  /** A run that ends outside the module. */
  predicate Leaves(p: Program, env: Env, s: State, n: nat) {
    Run(p, env, s, n).Some? && Run(p, env, s, n).value.pc.Exited?
  }
}
