/**
 The target: the x86-64 instructions the code generator emits and a small-step machine for them.

 The machine is strict.  Registers and stack words are partial maps, reading an undefined one is a
 fault (`None`), and a stack word becomes undefined as soon as rsp moves above it.  A run that does
 not fault therefore never depends on stale stack contents or on registers an external callee may
 have clobbered; module `RawX86` shows that a machine with total memory and arbitrary contents in
 those places then does the same.
 */
module X86 {
  import opened Base

  datatype Reg = RAX | RBX | RCX | RDX | RSI | RDI | R8 | R9 | R10 | RBP | RSP

  /** Labels are named by what they mark; the assembler uses them only for identity. */
  datatype Label = ImportSlot(f: nat) | TableEntry(f: nat) | BodyOf(f: nat)

  /** A register-or-memory operand; the only memory form emitted is [rbp - off]. */
  datatype Rm = R(reg: Reg) | M(off: nat)

  datatype Instr =
    | Push(r: Reg)
    | Pop(r: Reg)
    | MovRmR(dst: Rm, src: Reg)            // Mov_rm64_r64: register or [rbp - off] := register
    | MovRRm(r: Reg, off: nat)             // Mov_r64_rm64: register := [rbp - off]
    | MovRImm(r: Reg, imm: int)
    | MovRSlot(r: Reg, target: Label)       // register := the quadword at a label
    | AddRR(r: Reg, src: Reg)
    | SubRR(r: Reg, src: Reg)
    | SubRspImm(n: nat)
    | AddRspImm(n: nat)
    | CallLabel(target: Label)
    | CallReg(r: Reg)
    | Ret
    | Nop
    | Dq(w: int)
    | ZeroBytes

  datatype Program = Program(code: seq<Instr>, labels: map<Label, nat>)

  /** An instruction of the module, or an address outside it, in some other unit of code. */
  datatype Pc = At(i: nat) | Exited(unit: nat, to: nat)

  datatype Val = Word(w: int) | Code(ret: Pc) | Import(f: nat)

  /** A call that left the module: which import, and the arguments in the argument registers. */
  datatype Event = Event(f: nat, args: seq<int>)

  datatype Cpu = Cpu(regs: map<Reg, Val>, mem: map<int, Val>, trace: seq<Event>)

  datatype State = State(pc: Pc, cpu: Cpu)

  /**
   What surrounds the module: the lowest usable stack address, how many parameters each import takes
   and how many results it gives, and what imports answer (rax, rdx) given every external call so far.
   */
  datatype Env = Env(floor: int, arity: nat -> nat, answers: nat -> nat, oracle: seq<Event> -> (int, int))

  /** Integer argument registers, in the order of section 3.2.3 of the System V AMD64 psABI. */
  const INTEGER_ORDER: seq<Reg> := [RDI, RSI, RDX, RCX, R8, R9]

  /** Memory at or above an address. */
  function Above(mem: map<int, Val>, lo: int): (r: map<int, Val>) {
    map a | a in mem && lo <= a :: mem[a]
  }

  predicate HasWord(s: Cpu, r: Reg) {
    r in s.regs && s.regs[r].Word?
  }

  function WordOf(s: Cpu, r: Reg): int
    requires HasWord(s, r)
  {
    s.regs[r].w
  }

  /** Raise rsp: what it leaves behind is gone. */
  function Release(s: Cpu, sp: int): Cpu {
    Cpu(s.regs[RSP := Word(sp)], Above(s.mem, sp), s.trace)
  }

  /** Push a value, unless the stack is exhausted. */
  function PushVal(env: Env, s: Cpu, v: Val): Option<Cpu> {
    if HasWord(s, RSP) && env.floor <= WordOf(s, RSP) - 8 then
      var sp := WordOf(s, RSP) - 8;
      Some(Cpu(s.regs[RSP := Word(sp)], s.mem[sp := v], s.trace))
    else None
  }

  /** Write a register.  A write to rsp may only give stack back, in whole words. */
  function SetReg(s: Cpu, r: Reg, v: Val): Option<Cpu> {
    if r != RSP then Some(s.(regs := s.regs[r := v]))
    else if HasWord(s, RSP) && v.Word? && WordOf(s, RSP) <= v.w && (v.w - WordOf(s, RSP)) % 8 == 0 then
      Some(Release(s, v.w))
    else None
  }

  /** [rbp - off] is an aligned word of the live stack. */
  predicate Addressable(s: Cpu, off: nat) {
    && HasWord(s, RSP) && HasWord(s, RBP)
    && WordOf(s, RSP) <= WordOf(s, RBP) - off
    && (WordOf(s, RBP) - off - WordOf(s, RSP)) % 8 == 0
  }

  /** The effect of an instruction that falls through and does not look at labels. */
  function Exec(env: Env, ins: Instr, s: Cpu): Option<Cpu> {
    match ins
    case Push(r) => if r in s.regs then PushVal(env, s, s.regs[r]) else None
    case Pop(r) =>
      if HasWord(s, RSP) && WordOf(s, RSP) in s.mem then
        SetReg(Release(s, WordOf(s, RSP) + 8), r, s.mem[WordOf(s, RSP)])
      else None
    case MovRmR(R(d), src) => if src in s.regs then SetReg(s, d, s.regs[src]) else None
    case MovRmR(M(off), src) =>
      if src in s.regs && Addressable(s, off) then
        Some(s.(mem := s.mem[WordOf(s, RBP) - off := s.regs[src]]))
      else None
    case MovRRm(d, off) =>
      if Addressable(s, off) && WordOf(s, RBP) - off in s.mem then
        SetReg(s, d, s.mem[WordOf(s, RBP) - off])
      else None
    case MovRImm(d, imm) => SetReg(s, d, Word(Wrap(imm)))
    case AddRR(d, src) =>
      if HasWord(s, d) && HasWord(s, src) then SetReg(s, d, Word(Wrap(WordOf(s, d) + WordOf(s, src)))) else None
    case SubRR(d, src) =>
      if HasWord(s, d) && HasWord(s, src) then SetReg(s, d, Word(Wrap(WordOf(s, d) - WordOf(s, src)))) else None
    case SubRspImm(n) =>
      if HasWord(s, RSP) && n % 8 == 0 && env.floor <= WordOf(s, RSP) - n then
        Some(s.(regs := s.regs[RSP := Word(WordOf(s, RSP) - n)]))
      else None
    case AddRspImm(n) =>
      if HasWord(s, RSP) && n % 8 == 0 then Some(Release(s, WordOf(s, RSP) + n)) else None
    case Nop => Some(s)
    case ZeroBytes => Some(s)
    case _ => None
  }

  predicate ArgsReady(s: Cpu, n: nat) {
    n <= 6 && forall k :: 0 <= k < n ==> HasWord(s, INTEGER_ORDER[k])
  }

  function ArgsOf(s: Cpu, n: nat): (r: seq<int>)
    requires ArgsReady(s, n)
    ensures |r| == n
  {
    seq(n, k requires 0 <= k < n => WordOf(s, INTEGER_ORDER[k]))
  }

  /** `n` results in rax and rdx, while they last. */
  function Answering(regs: map<Reg, Val>, n: nat, a: int, d: int): map<Reg, Val> {
    if n == 0 then regs else if n == 1 then regs[RAX := Word(a)] else regs[RAX := Word(a)][RDX := Word(d)]
  }

  /**
   An external callee returns with rsp and rbp as they were, its answers in rax and rdx, and leaves
   every other register undefined.  It needs a word for its return address.
   */
  function External(env: Env, s: Cpu, f: nat): Option<Cpu> {
    if HasWord(s, RSP) && RBP in s.regs && env.floor <= WordOf(s, RSP) - 8 && ArgsReady(s, env.arity(f)) then
      var trace := s.trace + [Event(f, ArgsOf(s, env.arity(f)))];
      var (a, d) := env.oracle(trace);
      Some(Cpu(Answering(map[RSP := s.regs[RSP], RBP := s.regs[RBP]], env.answers(f), a, d), s.mem, trace))
    else None
  }

  /** A quadword lies at the address of instruction `i`: markers take up no room. */
  predicate DataAt(code: seq<Instr>, i: nat)
    decreases |code| - i
  {
    i < |code| && (code[i].Dq? || (code[i].ZeroBytes? && DataAt(code, i + 1)))
  }

  predicate SlotAt(p: Program, l: Label) {
    l.ImportSlot? && l in p.labels && DataAt(p.code, p.labels[l])
  }

  function Next(i: nat, r: Option<Cpu>): Option<State> {
    match r
    case None => None
    case Some(cpu) => Some(State(At(i + 1), cpu))
  }

  /** One machine step; `None` is a fault (or there is nothing left to run). */
  function Step(p: Program, env: Env, s: State): Option<State> {
    if s.pc.Exited? || |p.code| <= s.pc.i then None
    else
      var i, cpu := s.pc.i, s.cpu;
      match p.code[i]
      case CallLabel(l) =>
        if l in p.labels then
          var pushed := PushVal(env, cpu, Code(At(i + 1)));
          if pushed.Some? then Some(State(At(p.labels[l]), pushed.value)) else None
        else None
      case Ret =>
        if HasWord(cpu, RSP) && WordOf(cpu, RSP) in cpu.mem && cpu.mem[WordOf(cpu, RSP)].Code? then
          Some(State(cpu.mem[WordOf(cpu, RSP)].ret, Release(cpu, WordOf(cpu, RSP) + 8)))
        else None
      case MovRSlot(r, l) => if SlotAt(p, l) then Next(i, SetReg(cpu, r, Import(l.f))) else None
      case CallReg(r) =>
        if r in cpu.regs && cpu.regs[r].Import? then Next(i, External(env, cpu, cpu.regs[r].f)) else None
      case ins => Next(i, Exec(env, ins, cpu))
  }

  /** Exactly `n` steps. */
  function Run(p: Program, env: Env, s: State, n: nat): Option<State>
    decreases n
  {
    if n == 0 then Some(s)
    else
      var t := Step(p, env, s);
      if t.None? then None else Run(p, env, t.value, n - 1)
  }

  lemma {:induction false} RunCompose(p: Program, env: Env, s: State, m: nat, t: State, n: nat)
    requires Run(p, env, s, m) == Some(t)
    ensures Run(p, env, s, m + n) == Run(p, env, t, n)
    decreases m
  {
    if m > 0 {
      RunCompose(p, env, Step(p, env, s).value, m - 1, t, n);
    }
  }

  lemma {:induction false} RunSplit(p: Program, env: Env, s: State, m: nat, n: nat)
    requires Run(p, env, s, m + n).Some?
    ensures Run(p, env, s, m).Some? && Run(p, env, s, m + n) == Run(p, env, Run(p, env, s, m).value, n)
    decreases m
  {
    if m > 0 { RunSplit(p, env, Step(p, env, s).value, m - 1, n); }
  }

  /** Straight-line execution of a block. */
  function ExecAll(env: Env, block: seq<Instr>, s: Cpu): Option<Cpu> {
    if block == [] then Some(s)
    else
      var t := Exec(env, block[0], s);
      if t.None? then None else ExecAll(env, block[1..], t.value)
  }

  lemma {:induction false} ExecAllConcat(env: Env, a: seq<Instr>, b: seq<Instr>, s: Cpu, t: Cpu)
    requires ExecAll(env, a, s) == Some(t)
    ensures ExecAll(env, a + b, s) == ExecAll(env, b, t)
  {
    if a == [] {
      assert a + b == b;
    } else {
      assert (a + b)[1..] == a[1..] + b;
      ExecAllConcat(env, a[1..], b, Exec(env, a[0], s).value, t);
    }
  }

  /** `block` is what the code holds from index `i` on. */
  predicate CodeAt(code: seq<Instr>, i: nat, block: seq<Instr>) {
    i + |block| <= |code| && code[i..i + |block|] == block
  }

  lemma CodeAtSplit(code: seq<Instr>, i: nat, a: seq<Instr>, b: seq<Instr>)
    requires CodeAt(code, i, a + b)
    ensures CodeAt(code, i, a) && CodeAt(code, i + |a|, b)
  {
    var ab := a + b;
    assert a == ab[..|a|] && b == ab[|a|..];
    assert code[i..i + |a|] == code[i..i + |ab|][..|a|];
    assert code[i + |a|..i + |ab|] == code[i..i + |ab|][|a|..];
  }

  lemma CodeAtAppend(code: seq<Instr>, i: nat, block: seq<Instr>, more: seq<Instr>)
    requires CodeAt(code, i, block)
    ensures CodeAt(code + more, i, block)
  {
    assert (code + more)[i..i + |block|] == code[i..i + |block|];
  }

  /** A block the code holds at the pc runs as straight-line execution says. */
  lemma {:induction false} RunBlock(p: Program, env: Env, i: nat, block: seq<Instr>, s: Cpu, t: Cpu)
    requires CodeAt(p.code, i, block)
    requires ExecAll(env, block, s) == Some(t)
    ensures Run(p, env, State(At(i), s), |block|) == Some(State(At(i + |block|), t))
    decreases |block|
  {
    if block != [] {
      assert p.code[i] == p.code[i..i + |block|][0] == block[0];
      assert block == [block[0]] + block[1..];
      CodeAtSplit(p.code, i, [block[0]], block[1..]);
      var u := Exec(env, block[0], s).value;
      assert Step(p, env, State(At(i), s)) == Some(State(At(i + 1), u));
      RunBlock(p, env, i + 1, block[1..], u, t);
    }
  }
}
