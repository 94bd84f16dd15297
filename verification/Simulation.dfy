/** The unoptimised machine code of a module does what `CodeSemantics` says, frame by frame. */
module Simulation {
  import opened Base
  import opened X86
  import opened Wasm
  import opened PassSoundness
  import opened CodeGen
  import opened CodeSemantics

  /** Where a frame sits: its base, the rbp saved there, the bytes of its locals, and memory above it. */
  datatype Anchor = Anchor(bp: int, saved: Val, size: nat, outer: map<int, Val>)

  function Sp(b: Anchor, c: Config): int {
    b.bp - b.size - 8 * |c.stack|
  }

  predicate Holds(mem: map<int, Val>, a: int, v: int) {
    a in mem && mem[a] == Word(v)
  }

  ghost predicate StackRep(mem: map<int, Val>, sp: int, stack: seq<int>) {
    forall j :: 0 <= j < |stack| ==> Holds(mem, sp + 8 * j, stack[j])
  }

  ghost predicate FrameRep(mem: map<int, Val>, b: Anchor, frame: Frame) {
    && (forall o :: o in frame ==> o <= b.size && o % 8 == 0 && Holds(mem, b.bp - o, frame[o]))
    && (0 !in frame ==> b.bp in mem && mem[b.bp] == b.saved)
  }

  /**
   The machine represents a configuration of a function whose frame is based at `bp`: rsp is as
   many words below the locals as the operand stack is high, the words from rsp up are exactly that
   stack, defined slots hold their words, the saved rbp is untouched unless slot 0 was stored to,
   and memory from the return address up is exactly `outer`.
   */
  ghost predicate Rep(s: Cpu, b: Anchor, c: Config) {
    && b.size % 8 == 0
    && HasWord(s, RBP) && WordOf(s, RBP) == b.bp
    && HasWord(s, RSP) && WordOf(s, RSP) == Sp(b, c)
    && (forall a :: a in s.mem ==> Sp(b, c) <= a)
    && StackRep(s.mem, Sp(b, c), c.stack)
    && FrameRep(s.mem, b, c.frame)
    && Above(s.mem, b.bp + 8) == b.outer
    && s.trace == c.trace
  }

  // ----- single instructions -----

  /** Registers other than rsp and rbp are not part of the representation. */
  lemma RepOther(s: Cpu, b: Anchor, c: Config, regs: map<Reg, Val>)
    requires Rep(s, b, c)
    requires RSP in regs && regs[RSP] == s.regs[RSP] && RBP in regs && regs[RBP] == s.regs[RBP]
    ensures Rep(s.(regs := regs), b, c)
  {
  }

  lemma StackPush(mem: map<int, Val>, sp: int, stack: seq<int>, v: int)
    requires StackRep(mem, sp, stack)
    ensures StackRep(mem[sp - 8 := Word(v)], sp - 8, [v] + stack)
  {
    forall j | 0 <= j < |[v] + stack| ensures Holds(mem[sp - 8 := Word(v)], sp - 8 + 8 * j, ([v] + stack)[j]) {
      if j > 0 { assert Holds(mem, sp + 8 * (j - 1), stack[j - 1]); }
    }
  }

  lemma StackPop(mem: map<int, Val>, sp: int, stack: seq<int>)
    requires StackRep(mem, sp, stack) && |stack| > 0
    ensures Holds(mem, sp, stack[0]) && StackRep(Above(mem, sp + 8), sp + 8, stack[1..])
  {
    assert Holds(mem, sp + 8 * 0, stack[0]);
    forall j | 0 <= j < |stack[1..]| ensures Holds(Above(mem, sp + 8), sp + 8 + 8 * j, stack[1..][j]) {
      assert Holds(mem, sp + 8 * (j + 1), stack[j + 1]);
    }
  }

  /** The frame and what is above it depend only on memory above the operand stack. */
  lemma FrameSame(mem: map<int, Val>, mem': map<int, Val>, b: Anchor, frame: Frame)
    requires Above(mem, b.bp - b.size) == Above(mem', b.bp - b.size) && FrameRep(mem, b, frame)
    ensures FrameRep(mem', b, frame) && Above(mem', b.bp + 8) == Above(mem, b.bp + 8)
  {
    forall a | b.bp - b.size <= a ensures (a in mem <==> a in mem') && (a in mem ==> mem[a] == mem'[a]) {
      assert a in Above(mem, b.bp - b.size) <==> a in mem;
      assert a in Above(mem', b.bp - b.size) <==> a in mem';
    }
  }

  /** Every register but the ones named is as before. */
  predicate Keeps(s: Cpu, t: Cpu, except: set<Reg>) {
    forall q :: q in s.regs && q !in except ==> q in t.regs && t.regs[q] == s.regs[q]
  }

  lemma RepPush(env: Env, s: Cpu, b: Anchor, c: Config, r: Reg, v: int)
    requires Rep(s, b, c) && r in s.regs && s.regs[r] == Word(v)
    requires env.floor <= Sp(b, c) - 8
    ensures Exec(env, Push(r), s).Some?
    ensures Rep(Exec(env, Push(r), s).value, b, c.(stack := [v] + c.stack))
    ensures Keeps(s, Exec(env, Push(r), s).value, {RSP})
  {
    hide StackRep, FrameRep;
    var t := Exec(env, Push(r), s).value;
    StackPush(s.mem, Sp(b, c), c.stack, v);
    assert Above(t.mem, b.bp - b.size) == Above(s.mem, b.bp - b.size);
    FrameSame(s.mem, t.mem, b, c.frame);
  }

  lemma RepPop(env: Env, s: Cpu, b: Anchor, c: Config, r: Reg)
    requires Rep(s, b, c) && |c.stack| > 0 && r != RSP && r != RBP
    ensures Exec(env, Pop(r), s).Some?
    ensures var t := Exec(env, Pop(r), s).value;
            && Rep(t, b, c.(stack := c.stack[1..])) && r in t.regs && t.regs[r] == Word(c.stack[0])
            && Keeps(s, t, {RSP, r})
  {
    hide StackRep, FrameRep;
    StackPop(s.mem, Sp(b, c), c.stack);
    var t := Exec(env, Pop(r), s).value;
    assert Above(t.mem, b.bp - b.size) == Above(s.mem, b.bp - b.size);
    FrameSame(s.mem, t.mem, b, c.frame);
  }

  lemma RepStore(env: Env, s: Cpu, b: Anchor, c: Config, off: nat, r: Reg, v: int)
    requires Rep(s, b, c) && r in s.regs && s.regs[r] == Word(v) && off % 8 == 0 && off <= b.size
    ensures Exec(env, MovRmR(M(off), r), s).Some?
    ensures var t := Exec(env, MovRmR(M(off), r), s).value;
            Rep(t, b, c.(frame := c.frame[off := v])) && t.regs == s.regs
  {
    SlotAligned(b, c, off);
    var t := Exec(env, MovRmR(M(off), r), s).value;
    assert Above(t.mem, b.bp + 8) == Above(s.mem, b.bp + 8);
  }

  lemma RepLoad(env: Env, s: Cpu, b: Anchor, c: Config, off: nat)
    requires Rep(s, b, c) && off in c.frame
    ensures Exec(env, MovRRm(RAX, off), s) == Some(s.(regs := s.regs[RAX := Word(c.frame[off])]))
  {
    SlotAligned(b, c, off);
  }

  lemma SlotAligned(b: Anchor, c: Config, off: nat)
    requires b.size % 8 == 0 && off % 8 == 0
    ensures (b.bp - off - Sp(b, c)) % 8 == 0
  {
    var x, y := b.size / 8, off / 8;
    assert b.bp - off - Sp(b, c) == 8 * (x - y + |c.stack|);
  }

  // ----- blocks -----

  lemma ExecCons(env: Env, ins: Instr, rest: seq<Instr>, s: Cpu, t: Cpu, u: Cpu)
    requires Exec(env, ins, s) == Some(t) && ExecAll(env, rest, t) == Some(u)
    ensures ExecAll(env, [ins] + rest, s) == Some(u)
  {
    assert ([ins] + rest)[1..] == rest;
  }

  lemma ExecTwo(env: Env, a: Instr, b: Instr, s: Cpu, t: Cpu, u: Cpu)
    requires Exec(env, a, s) == Some(t) && Exec(env, b, t) == Some(u)
    ensures ExecAll(env, [a, b], s) == Some(u)
  {
    assert ExecAll(env, [], u) == Some(u);
    ExecCons(env, b, [], t, u, u);
    ExecCons(env, a, [b] + [], s, t, u);
    assert [a] + ([b] + []) == [a, b];
  }

  lemma ExecOne(env: Env, a: Instr, s: Cpu, t: Cpu)
    requires Exec(env, a, s) == Some(t)
    ensures ExecAll(env, [a], s) == Some(t)
  {
    assert [a][1..] == [];
    assert ExecAll(env, [], t) == Some(t);
  }

  /** Operators other than calls. */
  predicate IsPlain(op: Op) {
    !op.Call?
  }

  /** There is room for an operand stack of `h` words and for calls that need `need` bytes. */
  predicate Room(env: Env, b: Anchor, h: nat, need: nat) {
    env.floor <= b.bp - b.size - 8 * h - need
  }

  lemma SimArith(env: Env, s: Cpu, b: Anchor, c: Config, h: nat, ins: Instr, v: int) returns (t: Cpu)
    requires Rep(s, b, c) && |c.stack| >= 2 && |c.stack| - 1 <= h && Room(env, b, h, 0)
    requires (ins == AddRR(RAX, RBX) && v == Wrap(c.stack[0] + c.stack[1])) ||
             (ins == SubRR(RAX, RBX) && v == Wrap(c.stack[0] - c.stack[1]))
    ensures ExecAll(env, [Pop(RAX), Pop(RBX), ins, Push(RAX)], s) == Some(t)
    ensures Rep(t, b, c.(stack := [v] + c.stack[2..]))
  {
    hide Rep, ExecAll;
    RepPop(env, s, b, c, RAX);
    var s1, c1 := Exec(env, Pop(RAX), s).value, c.(stack := c.stack[1..]);
    RepPop(env, s1, b, c1, RBX);
    var s2, c2 := Exec(env, Pop(RBX), s1).value, c.(stack := c.stack[2..]);
    assert c1.stack[1..] == c2.stack;
    var s3 := s2.(regs := s2.regs[RAX := Word(v)]);
    assert Exec(env, ins, s2) == Some(s3);
    RepBounds(s2, b, c2);
    RepOther(s2, b, c2, s3.regs);
    RepPush(env, s3, b, c2, RAX, v);
    t := Exec(env, Push(RAX), s3).value;
    ExecTwo(env, ins, Push(RAX), s2, s3, t);
    ExecCons(env, Pop(RBX), [ins, Push(RAX)], s1, s2, t);
    ExecCons(env, Pop(RAX), [Pop(RBX)] + [ins, Push(RAX)], s, s1, t);
    assert [Pop(RAX)] + ([Pop(RBX)] + [ins, Push(RAX)]) == [Pop(RAX), Pop(RBX), ins, Push(RAX)];
  }

  lemma RepBounds(s: Cpu, b: Anchor, c: Config)
    requires Rep(s, b, c)
    ensures HasWord(s, RBP) && WordOf(s, RBP) == b.bp && HasWord(s, RSP) && WordOf(s, RSP) == Sp(b, c)
    ensures Trimmed(s) && s.trace == c.trace && b.size % 8 == 0
  {
  }

  /** Put a value in rax and push it. */
  lemma SimLoadPush(env: Env, s: Cpu, b: Anchor, c: Config, h: nat, ins: Instr, v: int) returns (t: Cpu)
    requires Rep(s, b, c) && |c.stack| + 1 <= h && Room(env, b, h, 0)
    requires Exec(env, ins, s) == Some(s.(regs := s.regs[RAX := Word(v)]))
    ensures ExecAll(env, [ins, Push(RAX)], s) == Some(t)
    ensures Rep(t, b, c.(stack := [v] + c.stack))
  {
    hide Rep, ExecAll;
    var s1 := s.(regs := s.regs[RAX := Word(v)]);
    RepBounds(s, b, c);
    RepOther(s, b, c, s1.regs);
    RepPush(env, s1, b, c, RAX, v);
    t := Exec(env, Push(RAX), s1).value;
    ExecTwo(env, ins, Push(RAX), s, s1, t);
  }

  lemma SimSet(env: Env, s: Cpu, b: Anchor, c: Config, off: nat) returns (t: Cpu)
    requires Rep(s, b, c) && |c.stack| >= 1 && off % 8 == 0 && off <= b.size
    ensures ExecAll(env, [Pop(RAX), MovRmR(M(off), RAX)], s) == Some(t)
    ensures Rep(t, b, c.(frame := c.frame[off := c.stack[0]], stack := c.stack[1..]))
  {
    hide Rep, ExecAll;
    RepPop(env, s, b, c, RAX);
    var s1, c1 := Exec(env, Pop(RAX), s).value, c.(stack := c.stack[1..]);
    RepStore(env, s1, b, c1, off, RAX, c.stack[0]);
    t := Exec(env, MovRmR(M(off), RAX), s1).value;
    ExecTwo(env, Pop(RAX), MovRmR(M(off), RAX), s, s1, t);
  }

  /** The emitted code of an operator other than a call does what the operator does. */
  lemma SimPlain(m: Module, env: Env, p: nat, locals: nat, op: Op, s: Cpu, b: Anchor, c: Config, h: nat, fuel: nat)
    returns (t: Cpu)
    requires OpOk(m, locals, op) && IsPlain(op) && b.size == 8 * locals && p <= locals
    requires Rep(s, b, c) && Room(env, b, h, 0)
    requires EvalOp(m, env.oracle, p, op, c, fuel).Done?
    requires |EvalOp(m, env.oracle, p, op, c, fuel).value.stack| <= h
    ensures ExecAll(env, OpCode(m, p, locals, op), s) == Some(t)
    ensures Rep(t, b, EvalOp(m, env.oracle, p, op, c, fuel).value)
  {
    hide Rep, ExecAll;
    match op
    case I64Const(v) => t := SimLoadPush(env, s, b, c, h, MovRImm(RAX, v), Wrap(v));
    case I64Add => t := SimArith(env, s, b, c, h, AddRR(RAX, RBX), Wrap(c.stack[0] + c.stack[1]));
    case I64Sub => t := SimArith(env, s, b, c, h, SubRR(RAX, RBX), Wrap(c.stack[0] - c.stack[1]));
    case Nop => t := s; ExecOne(env, X86.Nop, s, s);
    case End => t := s; ExecNone(env, s);
    case LocalGet(i) =>
      RepLoad(env, s, b, c, LocalOffset(p, i));
      t := SimLoadPush(env, s, b, c, h, MovRRm(RAX, LocalOffset(p, i)), c.frame[LocalOffset(p, i)]);
    case LocalSet(i) => t := SimSet(env, s, b, c, LocalOffset(p, i));
  }

  lemma ExecNone(env: Env, s: Cpu)
    ensures ExecAll(env, [], s) == Some(s)
  {
  }
}
