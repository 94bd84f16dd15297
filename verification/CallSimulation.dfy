/** Calls, whole functions and, by induction on the call depth, everything a module can run. */
module CallSimulation {
  import opened Base
  import opened X86
  import opened PassSoundness
  import opened Streams
  import opened CodeGen
  import opened CodeSemantics
  import opened Simulation

  /** Argument registers hold `args`, first argument first. */
  predicate ArgsIn(s: Cpu, args: seq<int>) {
    && |args| <= 6
    && forall k :: 0 <= k < |args| ==> INTEGER_ORDER[k] in s.regs && s.regs[INTEGER_ORDER[k]] == Word(args[k])
  }

  lemma ArgRegsDistinct()
    ensures forall j, k :: 0 <= j < k < 6 ==> INTEGER_ORDER[j] != INTEGER_ORDER[k]
    ensures forall k :: 0 <= k < 6 ==> INTEGER_ORDER[k] != RSP && INTEGER_ORDER[k] != RBP && INTEGER_ORDER[k] != R10
  {
  }

  /** Argument registers from the n-th on are as before. */
  predicate KeepsArgsFrom(s: Cpu, t: Cpu, n: nat) {
    forall k :: n <= k < 6 && INTEGER_ORDER[k] in s.regs ==>
      INTEGER_ORDER[k] in t.regs && t.regs[INTEGER_ORDER[k]] == s.regs[INTEGER_ORDER[k]]
  }

  /** The caller's pop loop: register k receives argument k, and what lies beneath stays. */
  lemma {:induction false} SimPopArgs(env: Env, s: Cpu, b: Anchor, c: Config, n: nat) returns (t: Cpu)
    requires Rep(s, b, c) && n <= 6 && n <= |c.stack|
    ensures ExecAll(env, PopArgs(n), s) == Some(t)
    ensures Rep(t, b, c.(stack := c.stack[n..])) && ArgsIn(t, Arguments(c.stack, n))
    ensures KeepsArgsFrom(s, t, n)
    decreases n
  {
    hide Rep, ExecAll, Exec, ArgsIn, KeepsArgsFrom, Keeps, Arguments;
    if n == 0 {
      t := s;
      ExecNone(env, s);
      NoArgs(s, c.stack);
      assert c.stack[0..] == c.stack;
    } else {
      var r := INTEGER_ORDER[n - 1];
      ArgRegsDistinct();
      RepPop(env, s, b, c, r);
      var s1, c1 := Exec(env, Pop(r), s).value, c.(stack := c.stack[1..]);
      t := SimPopArgs(env, s1, b, c1, n - 1);
      ExecCons(env, Pop(r), PopArgs(n - 1), s, s1, t);
      assert c1.stack[n - 1..] == c.stack[n..];
      ArgsExtend(s, s1, t, c.stack, n);
    }
  }

  lemma NoArgs(s: Cpu, stack: seq<int>)
    ensures ArgsIn(s, Arguments(stack, 0)) && KeepsArgsFrom(s, s, 0)
  {
  }

  lemma ArgsExtend(s: Cpu, s1: Cpu, t: Cpu, stack: seq<int>, n: nat)
    requires 0 < n <= 6 && n <= |stack|
    requires ArgsIn(t, Arguments(stack[1..], n - 1)) && KeepsArgsFrom(s1, t, n - 1)
    requires Keeps(s, s1, {RSP, INTEGER_ORDER[n - 1]})
    requires INTEGER_ORDER[n - 1] in s1.regs && s1.regs[INTEGER_ORDER[n - 1]] == Word(stack[0])
    ensures ArgsIn(t, Arguments(stack, n)) && KeepsArgsFrom(s, t, n)
  {
    ArgRegsDistinct();
    var args := Arguments(stack, n);
    forall k | 0 <= k < n ensures INTEGER_ORDER[k] in t.regs && t.regs[INTEGER_ORDER[k]] == Word(args[k]) {
      if k < n - 1 { assert Arguments(stack[1..], n - 1)[k] == args[k]; }
    }
  }

  /** rax, then rdx, hold the results. */
  predicate ResultsIn(s: Cpu, results: seq<int>) {
    && |results| <= 2
    && (|results| >= 1 ==> RAX in s.regs && s.regs[RAX] == Word(results[0]))
    && (|results| >= 2 ==> RDX in s.regs && s.regs[RDX] == Word(results[1]))
  }

  lemma SimPushResults(env: Env, s: Cpu, b: Anchor, c: Config, h: nat, r: nat, results: seq<int>) returns (t: Cpu)
    requires Rep(s, b, c) && ResultsIn(s, results) && |results| == Carried(r)
    requires |c.stack| + |results| <= h && Room(env, b, h, 0)
    ensures ExecAll(env, PushResults(r), s) == Some(t)
    ensures Rep(t, b, c.(stack := PushedBack(results) + c.stack))
  {
    hide Rep, ExecAll;
    if r == 0 {
      t := s;
      ExecNone(env, s);
      assert PushedBack(results) + c.stack == c.stack;
    } else {
      RepPush(env, s, b, c, RAX, results[0]);
      var s1, c1 := Exec(env, Push(RAX), s).value, c.(stack := [results[0]] + c.stack);
      if r == 1 {
        t := s1;
        ExecOne(env, Push(RAX), s, t);
        assert PushedBack(results) == [results[0]];
      } else {
        RepPush(env, s1, b, c1, RDX, results[1]);
        t := Exec(env, Push(RDX), s1).value;
        ExecTwo(env, Push(RAX), Push(RDX), s, s1, t);
        assert PushedBack(results) + c.stack == [results[1]] + c1.stack;
      }
    }
  }

  // ----- entering and leaving a function -----

  /** About to execute a function's first instruction, called with `args` and to return to `ret`. */
  predicate Entered(s: Cpu, sp: int, ret: Pc, args: seq<int>) {
    && Trimmed(s) && WordOf(s, RSP) == sp && sp in s.mem && s.mem[sp] == Code(ret)
    && RBP in s.regs && ArgsIn(s, args)
  }

  /**
   Just after the return: the return address is gone and nothing above it has changed, results are
   in rax and rdx, and rbp is the caller's unless the function stored over it.
   */
  predicate Returned(s: Cpu, t: Cpu, sp: int, r: Answer) {
    && HasWord(t, RSP) && WordOf(t, RSP) == sp + 8
    && t.mem == Above(s.mem, sp + 8)
    && RBP in s.regs && RBP in t.regs
    && t.regs[RBP] == (if 0 in r.frame then Word(r.frame[0]) else s.regs[RBP])
    && ResultsIn(t, r.results)
    && t.trace == r.trace
  }

  /** The callee's stores: slot k receives the k-th argument from the end. */
  lemma {:induction false} SimStores(env: Env, s: Cpu, b: Anchor, c: Config, args: seq<int>, k: nat) returns (t: Cpu)
    requires Rep(s, b, c.(frame := map[])) && ArgsIn(s, args) && k <= |args| && 8 * k <= b.size
    ensures ExecAll(env, StoreParams(|args|, k), s) == Some(t)
    ensures Rep(t, b, c.(frame := EntryFrame(args, k))) && t.regs == s.regs
    decreases k
  {
    hide Rep, ExecAll;
    if k == 0 {
      t := s;
      ExecNone(env, s);
    } else {
      var s1 := SimStores(env, s, b, c, args, k - 1);
      var n := |args|;
      var ins := MovRmR(M(8 * k), INTEGER_ORDER[n - k]);
      RepStore(env, s1, b, c.(frame := EntryFrame(args, k - 1)), 8 * k, INTEGER_ORDER[n - k], args[n - k]);
      t := Exec(env, ins, s1).value;
      ExecAllConcat(env, StoreParams(n, k - 1), [ins], s, s1);
      ExecOne(env, ins, s1, t);
    }
  }

  /** push rbp ; mov rbp, rsp ; sub rsp, size sets up an empty frame. */
  lemma SimFrame(env: Env, s: Cpu, sp: int, ret: Pc, args: seq<int>, size: nat) returns (t: Cpu)
    requires Entered(s, sp, ret, args) && size % 8 == 0 && env.floor <= sp - 8 - size
    ensures ExecAll(env, [Push(RBP), Mov(RBP, RSP)] + (if size > 0 then [SubRspImm(size)] else []), s) == Some(t)
    ensures Rep(t, Anchor(sp - 8, s.regs[RBP], size, s.mem), Config(map[], [], s.trace, 0)) && ArgsIn(t, args)
  {
    hide ExecAll;
    var b := Anchor(sp - 8, s.regs[RBP], size, s.mem);
    ArgRegsDistinct();
    var s1 := Exec(env, Push(RBP), s).value;
    var s2 := Exec(env, Mov(RBP, RSP), s1).value;
    ExecTwo(env, Push(RBP), Mov(RBP, RSP), s, s1, s2);
    if size > 0 {
      t := Exec(env, SubRspImm(size), s2).value;
      ExecAllConcat(env, [Push(RBP), Mov(RBP, RSP)], [SubRspImm(size)], s, s2);
      ExecOne(env, SubRspImm(size), s2, t);
    } else {
      t := s2;
      assert [Push(RBP), Mov(RBP, RSP)] + [] == [Push(RBP), Mov(RBP, RSP)];
    }
    assert Above(t.mem, sp) == s.mem;
  }

  lemma SimPopResults(env: Env, s: Cpu, b: Anchor, c: Config, r: nat) returns (t: Cpu)
    requires Rep(s, b, c) && |c.stack| >= Carried(r)
    ensures ExecAll(env, PopResults(r), s) == Some(t)
    ensures Rep(t, b, c.(stack := c.stack[Carried(r)..])) && ResultsIn(t, c.stack[..Carried(r)])
  {
    hide Rep, ExecAll;
    if r == 0 {
      t := s;
      ExecNone(env, s);
      assert c.stack[0..] == c.stack;
    } else {
      RepPop(env, s, b, c, RAX);
      var s1, c1 := Exec(env, Pop(RAX), s).value, c.(stack := c.stack[1..]);
      if r == 1 {
        t := s1;
        ExecOne(env, Pop(RAX), s, t);
      } else {
        RepPop(env, s1, b, c1, RDX);
        t := Exec(env, Pop(RDX), s1).value;
        ExecTwo(env, Pop(RAX), Pop(RDX), s, s1, t);
        assert c1.stack[1..] == c.stack[2..];
      }
    }
  }

  /** add rsp, size ; mov rsp, rbp ; pop rbp takes the frame down to the return address. */
  lemma SimLeave(env: Env, s: Cpu, b: Anchor, c: Config) returns (t: Cpu)
    requires Rep(s, b, c)
    ensures ExecAll(env, (if b.size > 0 then [AddRspImm(b.size)] else []) + [Mov(RSP, RBP), Pop(RBP)], s) == Some(t)
    ensures HasWord(t, RSP) && WordOf(t, RSP) == b.bp + 8 && t.mem == b.outer && t.trace == c.trace
    ensures RBP in t.regs && t.regs[RBP] == (if 0 in c.frame then Word(c.frame[0]) else b.saved)
    ensures Keeps(s, t, {RSP, RBP})
  {
    hide ExecAll, StackRep, FrameRep;
    SavedWord(s, b, c);
    LeaveAligned(b, c);
    if b.size == 0 {
      t := LeaveTail(env, s, b.bp);
      assert [] + [Mov(RSP, RBP), Pop(RBP)] == [Mov(RSP, RBP), Pop(RBP)];
    } else {
      var s1 := Release(s, Sp(b, c) + b.size);
      t := LeaveTail(env, s1, b.bp);
      assert Above(s1.mem, b.bp + 8) == Above(s.mem, b.bp + 8);
      ExecCons(env, AddRspImm(b.size), [Mov(RSP, RBP), Pop(RBP)], s, s1, t);
    }
  }

  lemma LeaveTail(env: Env, s: Cpu, bp: int) returns (t: Cpu)
    requires HasWord(s, RBP) && WordOf(s, RBP) == bp && HasWord(s, RSP) && WordOf(s, RSP) <= bp && bp in s.mem
    requires (bp - WordOf(s, RSP)) % 8 == 0
    ensures ExecAll(env, [Mov(RSP, RBP), Pop(RBP)], s) == Some(t)
    ensures t == Cpu(s.regs[RSP := Word(bp + 8)][RBP := s.mem[bp]], Above(s.mem, bp + 8), s.trace)
  {
    hide ExecAll;
    var s1 := Release(s, bp);
    assert Exec(env, Mov(RSP, RBP), s) == Some(s1);
    t := Exec(env, Pop(RBP), s1).value;
    assert t.mem == Above(s.mem, bp + 8);
    assert t.regs == s.regs[RSP := Word(bp + 8)][RBP := s.mem[bp]];
    ExecTwo(env, Mov(RSP, RBP), Pop(RBP), s, s1, t);
  }

  lemma SavedWord(s: Cpu, b: Anchor, c: Config)
    requires Rep(s, b, c)
    ensures b.bp in s.mem && s.mem[b.bp] == if 0 in c.frame then Word(c.frame[0]) else b.saved
  {
    if 0 in c.frame { assert Holds(s.mem, b.bp - 0, c.frame[0]); }
  }

  lemma LeaveAligned(b: Anchor, c: Config)
    requires b.size % 8 == 0
    ensures (b.bp - Sp(b, c)) % 8 == 0 && (b.bp - (Sp(b, c) + b.size)) % 8 == 0
  {
    SlotAligned(b, c, 0);
    assert b.bp - (Sp(b, c) + b.size) == 8 * |c.stack|;
  }
}
