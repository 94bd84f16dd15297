/** End-to-end correctness on the raw machine. */
module Hardware {
  import opened Base
  import opened X86
  import opened RawX86
  import opened Wasm
  import opened PassSoundness
  import opened Shadowing
  import opened Streams
  import opened CodeGen
  import opened Placement
  import opened CodeSemantics
  import opened CallSimulation
  import opened Correctness
  import opened EndToEnd

  /** What an outside caller sees of a finished raw run. */
  ghost predicate SeesAnswer(s: Cpu, sp: int, ret: Pc, a: Answer, r: Raw)
    requires RBP in s.regs
  {
    && r.pc == ret && r.regs(RSP) == Word(sp + 8) && r.trace == a.trace
    && (|a.results| >= 1 ==> r.regs(RAX) == Word(a.results[0]))
    && (|a.results| >= 2 ==> r.regs(RDX) == Word(a.results[1]))
    && r.regs(RBP) == (if 0 in a.frame then Word(a.frame[0]) else s.regs[RBP])
    && (forall addr :: addr in s.mem && sp + 8 <= addr ==> r.mem(addr) == s.mem[addr])
  }

  /**
   Every raw run from a state that agrees with `start` goes on until it has made `n` steps, and then
   has returned with the answer.
   */
  ghost predicate EveryRunSees(p: Program, env: Env, start: State, n: nat, sp: int, ret: Pc, a: Answer)
    requires RBP in start.cpu.regs
  {
    forall path, junk {:trigger RawRun(p, env, path, junk)} ::
      RawRun(p, env, path, junk) && |junk| <= n && Agree(start, path[0]) ==>
        if |junk| < n then CanStep(p, env, path[|junk|]) else SeesAnswer(start.cpu, sp, ret, a, path[n])
  }

  /** A strict run that returns with the answer makes every raw run do so. */
  lemma RawRunsSee(p: Program, env: Env, start: State, n: nat, t: Cpu, sp: int, ret: Pc, a: Answer)
    requires Trimmed(start.cpu) && Run(p, env, start, n) == Some(State(ret, t)) && Returned(start.cpu, t, sp, a)
    ensures EveryRunSees(p, env, start, n, sp, ret, a)
  {
    hide Run, RawStep, CanStep, Trimmed, Agree, Returned, SeesAnswer;
    ReturnedBase(start.cpu, t, sp, a);
    forall path: seq<Raw>, junk: seq<Reg -> Val> | RawRun(p, env, path, junk) && |junk| <= n && Agree(start, path[0])
      ensures if |junk| < n then CanStep(p, env, path[|junk|]) else SeesAnswer(start.cpu, sp, ret, a, path[n]) {
      RunsAreReal(p, env, start, n, path, junk);
      if |junk| == n { AnswerSeen(start.cpu, t, sp, ret, a, path[n]); }
    }
  }

  lemma ReturnedBase(s: Cpu, t: Cpu, sp: int, a: Answer)
    requires Returned(s, t, sp, a)
    ensures RBP in s.regs
  {
  }

  /** Every raw run from a state that agrees with `start` goes on for `n` steps, and then has made `calls`. */
  ghost predicate EveryRunCalls(p: Program, env: Env, start: State, n: nat, calls: seq<Event>) {
    forall path: seq<Raw>, junk: seq<Reg -> Val> {:trigger RawRun(p, env, path, junk)} ::
      RawRun(p, env, path, junk) && |junk| <= n && Agree(start, path[0]) ==>
        if |junk| < n then CanStep(p, env, path[|junk|]) else path[n].trace == calls
  }

  lemma RawRunsCall(p: Program, env: Env, start: State, n: nat, t: State)
    requires Trimmed(start.cpu) && Run(p, env, start, n) == Some(t)
    ensures EveryRunCalls(p, env, start, n, t.cpu.trace)
  {
    hide Run, RawStep, CanStep, Trimmed;
    forall path: seq<Raw>, junk: seq<Reg -> Val> | RawRun(p, env, path, junk) && |junk| <= n && Agree(start, path[0])
      ensures if |junk| < n then CanStep(p, env, path[|junk|]) else path[n].trace == t.cpu.trace {
      RunsAreReal(p, env, start, n, path, junk);
    }
  }

  /**
   There is a number of steps that every raw run of the optimised code makes, from any state that
   agrees with the entry state on what the caller set up, and after them it has returned with the answer.
   */
  lemma EveryRawRunReturns(
    m: Module, env: Env, j: nat, args: seq<int>, s: Cpu, sp: int, ret: Pc, fuel: nat)
    returns (n: nat)
    requires Compilable(m) && EnvOk(m, env)
    requires EvalFunc(m, env.oracle, j, args, s.trace, fuel).Done?
    requires Entered(s, sp, ret, args) && ret.Exited? && Plain(s)
    requires env.floor <= sp - EvalFunc(m, env.oracle, j, args, s.trace, fuel).value.need
    ensures var l, p, a := BodyOf(ImportCount(m) + j), Optimized(m),
            EvalFunc(m, env.oracle, j, args, s.trace, fuel).value;
            l in p.labels && EveryRunSees(p, env, EnterAt(p, l, s), n, sp, ret, a)
  {
    hide Run, EvalFunc, Optimized, RawStep, Unoptimized, Shadowed, EveryRunSees;
    var t, original;
    n, t, original := CompiledCodeIsCorrect(m, env, j, args, s, sp, ret, fuel);
    var l, p, a := BodyOf(ImportCount(m) + j), Optimized(m), EvalFunc(m, env.oracle, j, args, s.trace, fuel).value;
    RawRunsSee(p, env, EnterAt(p, l, s), n, t, sp, ret, a);
  }

  lemma AnswerSeen(s: Cpu, t: Cpu, sp: int, ret: Pc, a: Answer, r: Raw)
    requires Returned(s, t, sp, a) && Agree(State(ret, t), r)
    ensures SeesAnswer(s, sp, ret, a, r)
  {
    forall addr | addr in s.mem && sp + 8 <= addr ensures r.mem(addr) == s.mem[addr] {
      assert addr in t.mem && t.mem[addr] == s.mem[addr];
    }
  }
}
