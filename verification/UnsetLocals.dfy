/**
 Declared locals are not zeroed.  A function that returns a local it never set: WebAssembly answers
 zero.  If the local has a word of its own, the strict machine faults at the read, and the raw machine
 answers whatever word happened to lie below the stack pointer before the call.  `SavedLink` has the
 case of a local that shares the saved rbp's word.
 */
module UnsetLocals {
  import opened Base
  import opened X86
  import opened RawX86
  import opened Wasm
  import opened PassSoundness
  import opened Streams
  import opened CodeGen
  import opened Placement
  import opened CodeSemantics
  import opened CallSimulation
  import opened Correctness
  import opened Departures

  function Unset(): Module {
    One(FuncType(0, 1), [2], [LocalGet(1)])
  }

  function Before(): seq<Instr> {
    [Push(RBP), Mov(RBP, RSP), SubRspImm(16)]
  }

  function Behind(): seq<Instr> {
    [MovRRm(RAX, 8), Push(RAX), Pop(RAX)] + [AddRspImm(16), Mov(RSP, RBP), Pop(RBP)]
  }

  lemma UnsetCompiles()
    ensures ImportCount(Unset()) == 0 && Compilable(Unset()) && TypeOf(Unset(), 0) == FuncType(0, 1)
    ensures FuncCode(Unset(), 0) == Before() + Behind() + [Ret]
    ensures var l, p := BodyOf(0), Unoptimized(Unset());
            l in p.labels && CodeAt(p.code, p.labels[l], Before() + Behind() + [Ret])
  {
    hide Unoptimized;
    var m := Unset();
    OneType(FuncType(0, 1), [2], [LocalGet(1)]);
    SumOne(2);
    ReadCode(m, 2, 1);
    assert FuncCode(m, 0) == Before() + Behind() + [Ret];
    UnoptimizedIsLoaded(m);
    assert BodyAt(m, Unoptimized(m), 0);
  }

  lemma UnsetMeanings(oracle: Oracle)
    ensures SpecResults(Unset(), oracle, 0, [], 0) == Some([0])
    ensures EvalFunc(Unset(), oracle, 0, [], [], 0).Stuck?
  {
    hide SpecResults, Resolved, Declared, Sum;
    var t, ops, m := FuncType(0, 1), [LocalGet(1)], Unset();
    OneType(t, [2], ops);
    SumOne(2);
    var s := SpecStart(m, 0, []);
    assert [0] + [] == [0];
    SpecAnswers(m, oracle, 0, [], t, ops, [s, s.(stack := [0])], 0);
    EndIsIdle(m, oracle, 0, ops, Start([]), s, 0);
    assert EvalOps(m, oracle, 0, ops[..0], Start([]), 0) == Done(Start([]));
  }

  /** From every entry with room for the frame the strict machine gets to the read and no further. */
  lemma UnsetLocalFaults(env: Env, s: Cpu, sp: int, ret: Pc, n: nat)
    requires Entered(s, sp, ret, []) && env.floor <= sp - 24
    ensures SpecResults(Unset(), env.oracle, 0, [], 0) == Some([0])
    ensures EvalFunc(Unset(), env.oracle, 0, [], [], 0).Stuck?
    ensures Compilable(Unset())
    ensures var l, p := BodyOf(0), Unoptimized(Unset());
            l in p.labels && (Run(p, env, EnterAt(p, l, s), n).Some? <==> n <= 3)
  {
    hide Unoptimized, EvalFunc, SpecResults, Compilable, ExecAll, Exec, Step, Run, Behind;
    UnsetMeanings(env.oracle);
    UnsetCompiles();
    var l, p := BodyOf(0), Unoptimized(Unset());
    var i := p.labels[l];
    CodeAtSplit(p.code, i, Before(), Behind() + [Ret]);
    assert Before() + (Behind() + [Ret]) == Before() + Behind() + [Ret];
    var t := UnsetPrologue(env, s, sp);
    RunBlock(p, env, i, Before(), s, t);
    ReadFaults(p, env, i + 3, t);
    if n <= 3 {
      RunShorter(p, env, EnterAt(p, l, s), n, 3);
    } else {
      RunCompose(p, env, EnterAt(p, l, s), 3, State(At(i + 3), t), n - 3);
      FaultStops(p, env, State(At(i + 3), t), n - 3);
    }
  }

  lemma ReadFaults(p: Program, env: Env, i: nat, s: Cpu)
    requires CodeAt(p.code, i, Behind() + [Ret]) && HasWord(s, RBP) && WordOf(s, RBP) - 8 !in s.mem
    ensures Step(p, env, State(At(i), s)).None?
  {
    var block := Behind() + [Ret];
    assert p.code[i] == p.code[i..i + |block|][0] == block[0] == MovRRm(RAX, 8);
  }

  lemma FaultStops(p: Program, env: Env, s: State, n: nat)
    requires Step(p, env, s).None? && n > 0
    ensures Run(p, env, s, n).None?
  {
  }

  lemma {:induction false} RunShorter(p: Program, env: Env, s: State, k: nat, n: nat)
    requires k <= n && Run(p, env, s, n).Some?
    ensures Run(p, env, s, k).Some?
    decreases k
  {
    if k > 0 { RunShorter(p, env, Step(p, env, s).value, k - 1, n - 1); }
  }

  lemma UnsetPrologue(env: Env, s: Cpu, sp: int) returns (t: Cpu)
    requires Trimmed(s) && WordOf(s, RSP) == sp && RBP in s.regs && env.floor <= sp - 24
    ensures ExecAll(env, Before(), s) == Some(t)
    ensures HasWord(t, RBP) && WordOf(t, RBP) == sp - 8 && sp - 16 !in t.mem
  {
    var s1 := Exec(env, Push(RBP), s).value;
    var s2 := Exec(env, Mov(RBP, RSP), s1).value;
    t := Exec(env, SubRspImm(16), s2).value;
    assert Before()[1..] == [Mov(RBP, RSP), SubRspImm(16)] && Before()[1..][1..] == [SubRspImm(16)]
           && Before()[1..][1..][1..] == [];
    assert ExecAll(env, [SubRspImm(16)], s2) == Some(t);
    assert ExecAll(env, [Mov(RBP, RSP), SubRspImm(16)], s1) == Some(t);
  }

  // ----- the raw machine -----

  /** `n` undisturbed steps. */
  function RawAfter(p: Program, env: Env, junk: Reg -> Val, s: Raw, n: nat): Option<Raw>
    decreases n
  {
    if n == 0 then Some(s)
    else
      var t := NextRaw(p, env, junk, s);
      if t.None? then None else RawAfter(p, env, junk, t.value, n - 1)
  }

  predicate Straight(block: seq<Instr>) {
    forall k :: 0 <= k < |block| ==>
      var ins := block[k];
      !ins.CallLabel? && !ins.Ret? && !ins.MovRSlot? && !ins.CallReg? && !ins.Dq?
  }

  function Advance(ins: Instr, s: Raw): Raw {
    ExecRaw(ins, s).(pc := At(if s.pc.At? then s.pc.i + 1 else 0))
  }

  function ExecRaws(block: seq<Instr>, s: Raw): Raw {
    if block == [] then s else ExecRaws(block[1..], Advance(block[0], s))
  }

  lemma RawAdvance(p: Program, env: Env, junk: Reg -> Val, s: Raw, block: seq<Instr>)
    requires s.pc.At? && s.pc.i < |p.code| && block != [] && p.code[s.pc.i] == block[0] && Straight(block)
    ensures NextRaw(p, env, junk, s) == Some(Advance(block[0], s))
  {
    hide ExecRaw;
  }

  lemma {:induction false} RawBlock(p: Program, env: Env, junk: Reg -> Val, s: Raw, block: seq<Instr>, n: nat)
    requires s.pc.At? && CodeAt(p.code, s.pc.i, block) && Straight(block)
    ensures RawAfter(p, env, junk, s, |block| + n) == RawAfter(p, env, junk, ExecRaws(block, s), n)
    ensures ExecRaws(block, s).pc == At(s.pc.i + |block|)
    decreases |block|
  {
    hide ExecRaw, NextRaw;
    if block != [] {
      var i := s.pc.i;
      assert p.code[i] == p.code[i..i + |block|][0] == block[0];
      assert block == [block[0]] + block[1..];
      CodeAtSplit(p.code, i, [block[0]], block[1..]);
      RawAdvance(p, env, junk, s, block);
      RawBlock(p, env, junk, Advance(block[0], s), block[1..], n);
    }
  }

  lemma Three(a: Instr, b: Instr, c: Instr, s: Raw)
    ensures ExecRaws([a, b, c], s) == Advance(c, Advance(b, Advance(a, s)))
  {
    hide Advance;
    assert [a, b, c][1..] == [b, c] && [b, c][1..] == [c] && [c][1..] == [];
    var s1 := Advance(a, s);
    var s2 := Advance(b, s1);
    assert ExecRaws([c], s2) == Advance(c, s2);
    assert ExecRaws([b, c], s1) == ExecRaws([c], s2);
  }

  lemma {:induction false} RawConcat(a: seq<Instr>, b: seq<Instr>, s: Raw)
    ensures ExecRaws(a + b, s) == ExecRaws(b, ExecRaws(a, s))
  {
    hide Advance;
    if a == [] {
      assert a + b == b;
    } else {
      assert (a + b)[1..] == a[1..] + b;
      RawConcat(a[1..], b, Advance(a[0], s));
    }
  }

  function Read(): seq<Instr> {
    [MovRRm(RAX, 8), Push(RAX), Pop(RAX)]
  }

  function Leave(): seq<Instr> {
    [AddRspImm(16), Mov(RSP, RBP), Pop(RBP)]
  }

  lemma BeforeRaw(r: Raw)
    requires r.regs(RSP).Word?
    ensures var t := ExecRaws(Before(), r);
            && t.regs(RSP) == Word(Sp(r) - 24) && t.regs(RBP) == Word(Sp(r) - 8)
            && t.mem(Sp(r)) == r.mem(Sp(r)) && t.mem(Sp(r) - 16) == r.mem(Sp(r) - 16)
  {
    hide ExecRaws, Advance;
    var s1 := PushedBase(r);
    BasedBelow(s1, Sp(r));
    Three(Push(RBP), Mov(RBP, RSP), SubRspImm(16), r);
  }

  lemma PushedBase(r: Raw) returns (s: Raw)
    requires r.regs(RSP).Word?
    ensures s == Advance(Push(RBP), r) && s.regs(RSP) == Word(Sp(r) - 8)
    ensures s.mem(Sp(r)) == r.mem(Sp(r)) && s.mem(Sp(r) - 16) == r.mem(Sp(r) - 16)
  {
    s := Advance(Push(RBP), r);
  }

  lemma BasedBelow(r: Raw, sp: int)
    requires r.regs(RSP) == Word(sp - 8)
    ensures var t := Advance(SubRspImm(16), Advance(Mov(RBP, RSP), r));
            t.regs(RSP) == Word(sp - 24) && t.regs(RBP) == Word(sp - 8) && t.mem == r.mem
  {
  }

  lemma ReadRaw(r: Raw, sp: int)
    requires r.regs(RSP) == Word(sp - 24) && r.regs(RBP) == Word(sp - 8)
    ensures var t := ExecRaws(Read(), r);
            && t.regs(RSP) == Word(sp - 24) && t.regs(RBP) == Word(sp - 8) && t.regs(RAX) == r.mem(sp - 16)
            && t.mem(sp) == r.mem(sp)
  {
    hide ExecRaws;
    Three(MovRRm(RAX, 8), Push(RAX), Pop(RAX), r);
    var s1 := Advance(MovRRm(RAX, 8), r);
    var s2 := Advance(Push(RAX), s1);
  }

  lemma LeaveRaw(r: Raw, sp: int)
    requires r.regs(RSP) == Word(sp - 24) && r.regs(RBP) == Word(sp - 8)
    ensures var t := ExecRaws(Leave(), r); t.regs(RSP) == Word(sp) && t.regs(RAX) == r.regs(RAX) && t.mem == r.mem
  {
    hide ExecRaws;
    Three(AddRspImm(16), Mov(RSP, RBP), Pop(RBP), r);
    var s1 := Advance(AddRspImm(16), r);
    var s2 := Advance(Mov(RSP, RBP), s1);
  }

  lemma BehindRaw(r: Raw, sp: int)
    requires r.regs(RSP) == Word(sp - 24) && r.regs(RBP) == Word(sp - 8)
    ensures var t := ExecRaws(Behind(), r);
            t.regs(RSP) == Word(sp) && t.mem(sp) == r.mem(sp) && t.regs(RAX) == r.mem(sp - 16)
  {
    hide ExecRaws, ExecRaw;
    RawConcat(Read(), Leave(), r);
    ReadRaw(r, sp);
    LeaveRaw(ExecRaws(Read(), r), sp);
  }

  /** From every raw state at the function's label, ten steps return the word two places below the return address. */
  lemma UnsetLocalIsStale(env: Env, junk: Reg -> Val, r: Raw)
    requires r.regs(RSP).Word? && r.mem(Sp(r)).Code?
    ensures SpecResults(Unset(), env.oracle, 0, [], 0) == Some([0])
    ensures Compilable(Unset())
    ensures var l, p := BodyOf(0), Unoptimized(Unset());
            && l in p.labels
            && var t := RawAfter(p, env, junk, r.(pc := At(p.labels[l])), 10);
               t.Some? && t.value.pc == r.mem(Sp(r)).ret && t.value.regs(RAX) == r.mem(Sp(r) - 16)
  {
    hide Unoptimized, SpecResults, Compilable, ExecRaws, NextRaw, RawAfter;
    UnsetMeanings(env.oracle);
    UnsetCompiles();
    var p := Unoptimized(Unset());
    var i := p.labels[BodyOf(0)];
    var s := r.(pc := At(i));
    var block := Before() + Behind();
    CodeAtSplit(p.code, i, block, [Ret]);
    BeforeRaw(s);
    BehindRaw(ExecRaws(Before(), s), Sp(r));
    RawConcat(Before(), Behind(), s);
    RawBlock(p, env, junk, s, block, 1);
    RetIsEdge(p, i + 9);
    RawRet(p, env, junk, ExecRaws(block, s));
  }

  lemma RawRet(p: Program, env: Env, junk: Reg -> Val, s: Raw)
    requires s.pc.At? && s.pc.i < |p.code| && p.code[s.pc.i] == Ret && s.mem(Sp(s)).Code?
    ensures var t := RawAfter(p, env, junk, s, 1);
            t.Some? && t.value.pc == s.mem(Sp(s)).ret && t.value.regs(RAX) == s.regs(RAX)
  {
    var t := NextRaw(p, env, junk, s).value;
    assert RawAfter(p, env, junk, t, 0) == Some(t);
  }
}
