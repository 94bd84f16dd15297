/**
 A machine closer to the hardware: every register and every stack word always holds something,
 nothing faults for lack of stack or definedness, an external callee leaves arbitrary values in the
 registers it does not answer in, and everything below rsp may change at any step (as an interrupt
 handler would change it).  Whatever the strict machine of `X86` does, this one does in every case.
 */
module RawX86 {
  import opened Base
  import opened X86
  import opened PassSoundness

  datatype Raw = Raw(pc: Pc, regs: Reg -> Val, mem: int -> Val, trace: seq<Event>)

  /** A value used as a number. */
  function Num(v: Val): int {
    if v.Word? then v.w else 0
  }

  function SetR(s: Raw, r: Reg, v: Val): Raw {
    s.(regs := (q: Reg) => if q == r then v else s.regs(q))
  }

  function SetM(s: Raw, a: int, v: Val): Raw {
    s.(mem := (b: int) => if b == a then v else s.mem(b))
  }

  function Sp(s: Raw): int {
    Num(s.regs(RSP))
  }

  function PushRaw(s: Raw, v: Val): Raw {
    SetR(SetM(s, Sp(s) - 8, v), RSP, Word(Sp(s) - 8))
  }

  function ExecRaw(ins: Instr, s: Raw): Raw {
    match ins
    case Push(r) => PushRaw(s, s.regs(r))
    case Pop(r) => SetR(SetR(s, RSP, Word(Sp(s) + 8)), r, s.mem(Sp(s)))
    case MovRmR(R(d), src) => SetR(s, d, s.regs(src))
    case MovRmR(M(off), src) => SetM(s, Num(s.regs(RBP)) - off, s.regs(src))
    case MovRRm(d, off) => SetR(s, d, s.mem(Num(s.regs(RBP)) - off))
    case MovRImm(d, imm) => SetR(s, d, Word(Wrap(imm)))
    case AddRR(d, src) => SetR(s, d, Word(Wrap(Num(s.regs(d)) + Num(s.regs(src)))))
    case SubRR(d, src) => SetR(s, d, Word(Wrap(Num(s.regs(d)) - Num(s.regs(src)))))
    case SubRspImm(n) => SetR(s, RSP, Word(Sp(s) - n))
    case AddRspImm(n) => SetR(s, RSP, Word(Sp(s) + n))
    case _ => s
  }

  function RawArgs(s: Raw, n: nat): seq<int> {
    seq(n, k requires 0 <= k < n => if k < 6 then Num(s.regs(INTEGER_ORDER[k])) else 0)
  }

  /** An external call; `junk` is what the callee leaves in the registers it may clobber. */
  function ExternalRaw(env: Env, junk: Reg -> Val, s: Raw, f: nat): Raw {
    var trace := s.trace + [Event(f, RawArgs(s, env.arity(f)))];
    var (a, d) := env.oracle(trace);
    Raw(s.pc,
        (q: Reg) => if q == RSP || q == RBP then s.regs(q)
                    else if q == RAX && env.answers(f) >= 1 then Word(a)
                    else if q == RDX && env.answers(f) >= 2 then Word(d) else junk(q),
        s.mem, trace)
  }

  function NextRaw(p: Program, env: Env, junk: Reg -> Val, s: Raw): Option<Raw> {
    if s.pc.Exited? || |p.code| <= s.pc.i then None
    else
      var i := s.pc.i;
      match p.code[i]
      case CallLabel(l) => if l in p.labels then Some(PushRaw(s, Code(At(i + 1))).(pc := At(p.labels[l]))) else None
      case Ret => if s.mem(Sp(s)).Code? then Some(SetR(s, RSP, Word(Sp(s) + 8)).(pc := s.mem(Sp(s)).ret)) else None
      case MovRSlot(r, l) => if SlotAt(p, l) then Some(SetR(s, r, Import(l.f)).(pc := At(i + 1))) else None
      case CallReg(r) => if s.regs(r).Import? then Some(ExternalRaw(env, junk, s, s.regs(r).f).(pc := At(i + 1)))
        else None
      case Dq(_) => None
      case ins => Some(ExecRaw(ins, s).(pc := At(i + 1)))
  }

  /** A step, after which memory below rsp is arbitrary. */
  ghost predicate RawStep(p: Program, env: Env, junk: Reg -> Val, s: Raw, t: Raw) {
    var e := NextRaw(p, env, junk, s);
    && e.Some? && t.pc == e.value.pc && t.trace == e.value.trace
    && (forall q: Reg :: t.regs(q) == e.value.regs(q))
    && (forall a: int :: Sp(e.value) <= a ==> t.mem(a) == e.value.mem(a))
  }

  ghost predicate HasNext(p: Program, env: Env, junk: Reg -> Val, s: Raw) {
    exists t :: RawStep(p, env, junk, s, t)
  }

  /** Not stuck: there is a next state, whatever an external callee leaves behind. */
  ghost predicate CanStep(p: Program, env: Env, s: Raw) {
    forall junk: Reg -> Val :: HasNext(p, env, junk, s)
  }

  /** The raw state holds whatever the strict one defines. */
  ghost predicate Agree(s: State, r: Raw) {
    && r.pc == s.pc && r.trace == s.cpu.trace
    && (forall q :: q in s.cpu.regs ==> r.regs(q) == s.cpu.regs[q])
    && (forall a :: a in s.cpu.mem ==> r.mem(a) == s.cpu.mem[a])
  }

  /** Some raw state agrees with every strict one. */
  lemma RawExists(s: State) returns (r: Raw)
    ensures Agree(s, r)
  {
    r := Raw(
      s.pc, (q: Reg) => if q in s.cpu.regs then s.cpu.regs[q] else Word(0),
      (a: int) => if a in s.cpu.mem then s.cpu.mem[a] else Word(0), s.cpu.trace);
  }

  lemma ExecTrims(env: Env, ins: Instr, s: Cpu)
    requires Trimmed(s) && Exec(env, ins, s).Some?
    ensures Trimmed(Exec(env, ins, s).value)
  {
  }

  lemma StepTrims(p: Program, env: Env, s: State)
    requires Trimmed(s.cpu) && Step(p, env, s).Some?
    ensures Trimmed(Step(p, env, s).value.cpu)
  {
    hide Exec;
    var ins := p.code[s.pc.i];
    if Exec(env, ins, s.cpu).Some? { ExecTrims(env, ins, s.cpu); }
  }

  lemma ExecAgrees(env: Env, ins: Instr, s: Cpu, r: Raw)
    requires Agree(State(r.pc, s), r) && Exec(env, ins, s).Some?
    ensures Agree(State(r.pc, Exec(env, ins, s).value), ExecRaw(ins, r))
  {
    hide Exec, ExecRaw, Agree;
    if ins.Push? || ins.Pop? {
      StackAgrees(env, ins, s, r);
    } else if ins.MovRmR? || ins.MovRRm? {
      MoveAgrees(env, ins, s, r);
    } else {
      ArithAgrees(env, ins, s, r);
    }
  }

  lemma StackAgrees(env: Env, ins: Instr, s: Cpu, r: Raw)
    requires Agree(State(r.pc, s), r) && Exec(env, ins, s).Some? && (ins.Push? || ins.Pop?)
    ensures Agree(State(r.pc, Exec(env, ins, s).value), ExecRaw(ins, r))
  {
  }

  lemma MoveAgrees(env: Env, ins: Instr, s: Cpu, r: Raw)
    requires Agree(State(r.pc, s), r) && Exec(env, ins, s).Some? && (ins.MovRmR? || ins.MovRRm?)
    ensures Agree(State(r.pc, Exec(env, ins, s).value), ExecRaw(ins, r))
  {
  }

  lemma ArithAgrees(env: Env, ins: Instr, s: Cpu, r: Raw)
    requires Agree(State(r.pc, s), r) && Exec(env, ins, s).Some?
    requires !ins.Push? && !ins.Pop? && !ins.MovRmR? && !ins.MovRRm?
    ensures Agree(State(r.pc, Exec(env, ins, s).value), ExecRaw(ins, r))
  {
    hide Wrap;
  }

  lemma ExternalAgrees(env: Env, junk: Reg -> Val, s: Cpu, r: Raw, f: nat)
    requires Agree(State(r.pc, s), r) && External(env, s, f).Some?
    ensures Agree(State(r.pc, External(env, s, f).value), ExternalRaw(env, junk, r, f))
  {
    assert RawArgs(r, env.arity(f)) == ArgsOf(s, env.arity(f));
  }

  /** The raw machine can step, and what it computes agrees. */
  lemma NextAgrees(p: Program, env: Env, junk: Reg -> Val, s: State, r: Raw)
    requires Agree(s, r) && Step(p, env, s).Some?
    ensures NextRaw(p, env, junk, r).Some? && Agree(Step(p, env, s).value, NextRaw(p, env, junk, r).value)
  {
    hide Exec, External, ExecRaw, ExternalRaw;
    var ins := p.code[s.pc.i];
    if ins.CallReg? {
      ExternalAgrees(env, junk, s.cpu, r, s.cpu.regs[ins.r].f);
    } else if !(ins.CallLabel? || ins.Ret? || ins.MovRSlot?) {
      DataFaults(env, ins, s.cpu);
      ExecAgrees(env, ins, s.cpu, r);
    }
  }

  /** What the strict machine can do, the raw machine can. */
  lemma RawCanStep(p: Program, env: Env, s: State, r: Raw)
    requires Agree(s, r) && Step(p, env, s).Some?
    ensures CanStep(p, env, r)
  {
    hide Step, NextRaw, Agree;
    forall junk: Reg -> Val ensures HasNext(p, env, junk, r) {
      NextAgrees(p, env, junk, s, r);
      assert RawStep(p, env, junk, r, NextRaw(p, env, junk, r).value);
    }
  }

  lemma DataFaults(env: Env, ins: Instr, s: Cpu)
    ensures ins.Dq? ==> Exec(env, ins, s).None?
  {
  }

  /** One step of the strict machine is one step of the raw one, whatever the junk and the noise below rsp. */
  lemma StepIsReal(p: Program, env: Env, junk: Reg -> Val, s: State, r: Raw, r': Raw)
    requires Agree(s, r) && Trimmed(s.cpu) && Step(p, env, s).Some? && RawStep(p, env, junk, r, r')
    ensures Agree(Step(p, env, s).value, r') && Trimmed(Step(p, env, s).value.cpu)
  {
    hide Step, NextRaw;
    NextAgrees(p, env, junk, s, r);
    StepTrims(p, env, s);
  }

  /** A raw run: states, and the junk external callees left on the way. */
  ghost predicate RawRun(p: Program, env: Env, path: seq<Raw>, junk: seq<Reg -> Val>) {
    |path| == |junk| + 1 && forall i :: 0 <= i < |junk| ==> RawStep(p, env, junk[i], path[i], path[i + 1])
  }

  /**
   Whole runs: if the strict machine runs n steps, then every run of the raw machine of up to n steps
   from an agreeing state ends in an agreeing state, and until there are n of them it goes on.
   */
  lemma {:induction false} RunsAreReal(p: Program, env: Env, s: State, n: nat, path: seq<Raw>, junk: seq<Reg -> Val>)
    requires Run(p, env, s, n).Some? && Trimmed(s.cpu)
    requires RawRun(p, env, path, junk) && |junk| <= n && Agree(s, path[0])
    ensures Run(p, env, s, |junk|).Some? && Agree(Run(p, env, s, |junk|).value, path[|junk|])
    ensures |junk| < n ==> CanStep(p, env, path[|junk|])
    decreases n
  {
    hide Step, NextRaw, Agree, Trimmed, RawStep, CanStep;
    if n > 0 {
      var t := Step(p, env, s).value;
      if junk == [] {
        RawCanStep(p, env, s, path[0]);
      } else {
        assert RawStep(p, env, junk[0], path[0], path[0 + 1]);
        StepIsReal(p, env, junk[0], s, path[0], path[1]);
        forall i | 0 <= i < |junk[1..]| ensures RawStep(p, env, junk[1..][i], path[1..][i], path[1..][i + 1]) {
          assert RawStep(p, env, junk[i + 1], path[i + 1], path[i + 1 + 1]);
        }
        RunsAreReal(p, env, t, n - 1, path[1..], junk[1..]);
      }
    }
  }
}
