/** Bounds on rsp at every single step of a run, for the frame of one call. */
module OwnFrame {
  import opened Base
  import opened X86
  import opened Shadowing

  predicate StackIn(s: Cpu, bp: int, depth: nat) {
    && HasWord(s, RBP) && WordOf(s, RBP) == bp
    && HasWord(s, RSP) && bp - WordOf(s, RSP) <= depth
  }

  /**
   Away from the edges, rbp is at most `bp`; and where it is `bp`, so in the frame based there, at
   most `depth` bytes lie between rsp and it.
   */
  predicate InFrame(p: Program, bp: int, depth: nat, u: State) {
    u.pc.At? && u.pc.i < |p.code| && !IsEdge(p.code[u.pc.i]) ==>
      && HasWord(u.cpu, RBP) && HasWord(u.cpu, RSP) && WordOf(u.cpu, RBP) <= bp
      && (WordOf(u.cpu, RBP) == bp ==> bp - WordOf(u.cpu, RSP) <= depth)
  }

  predicate StepIn(p: Program, env: Env, s: State, k: nat, bp: int, depth: nat) {
    Run(p, env, s, k).Some? && InFrame(p, bp, depth, Run(p, env, s, k).value)
  }

  /** Every state before step `n`. */
  ghost predicate RunIn(p: Program, env: Env, s: State, n: nat, bp: int, depth: nat) {
    forall k: nat :: k < n ==> StepIn(p, env, s, k, bp, depth)
  }

  lemma RunInNone(p: Program, env: Env, s: State, bp: int, depth: nat)
    ensures RunIn(p, env, s, 0, bp, depth)
  {
  }

  lemma RunInCompose(p: Program, env: Env, s: State, a: nat, t: State, b: nat, bp: int, depth: nat)
    requires RunIn(p, env, s, a, bp, depth) && Run(p, env, s, a) == Some(t) && RunIn(p, env, t, b, bp, depth)
    ensures RunIn(p, env, s, a + b, bp, depth)
  {
    hide Run, InFrame;
    var all := a + b;
    forall k: nat | k < all ensures StepIn(p, env, s, k, bp, depth) {
      if k >= a {
        assert StepIn(p, env, t, k - a, bp, depth);
        RunCompose(p, env, s, a, t, k - a);
      }
    }
  }

  lemma RunInStep(p: Program, env: Env, s: State, bp: int, depth: nat)
    requires InFrame(p, bp, depth, s)
    ensures RunIn(p, env, s, 1, bp, depth)
  {
    hide InFrame, Step;
    forall k: nat | k < 1 ensures StepIn(p, env, s, k, bp, depth) {
      assert Run(p, env, s, 0) == Some(s);
    }
  }

  /** A frame further down says all that is needed about this one. */
  lemma RunInOuter(p: Program, env: Env, s: State, n: nat, low: int, depth: nat, bp: int, depth': nat)
    requires RunIn(p, env, s, n, low, depth) && low < bp
    ensures RunIn(p, env, s, n, bp, depth')
  {
    hide Run;
    forall k: nat | k < n ensures StepIn(p, env, s, k, bp, depth') {
      assert StepIn(p, env, s, k, low, depth);
    }
  }

  // ----- straight-line blocks -----

  predicate DataReg(r: Reg) {
    r != RSP && r != RBP
  }

  predicate Lowers(ins: Instr) {
    ins.Push? || ins.SubRspImm?
  }

  /** Leaves rsp and rbp alone. */
  predicate Level(ins: Instr) {
    match ins
    case MovRmR(R(d), _) => DataReg(d)
    case MovRmR(M(_), _) => true
    case MovRRm(d, _) => DataReg(d)
    case MovRImm(d, _) => DataReg(d)
    case AddRR(d, _) => DataReg(d)
    case SubRR(d, _) => DataReg(d)
    case Nop => true
    case ZeroBytes => true
    case _ => false
  }

  predicate Raises(ins: Instr) {
    match ins
    case Pop(r) => DataReg(r)
    case AddRspImm(_) => true
    case MovRmR(R(RSP), _) => true
    case _ => false
  }

  predicate Falling(block: seq<Instr>) {
    forall i :: 0 <= i < |block| ==> Lowers(block[i]) || Level(block[i])
  }

  /** First up, then down: rsp is never lower than at one of the ends. */
  predicate Valley(block: seq<Instr>) {
    if block == [] then true
    else if Lowers(block[0]) then Falling(block)
    else (Level(block[0]) || Raises(block[0])) && Valley(block[1..])
  }

  lemma ExecMoves(env: Env, ins: Instr, s: Cpu, t: Cpu)
    requires Exec(env, ins, s) == Some(t) && HasWord(s, RBP) && HasWord(s, RSP)
    requires Lowers(ins) || Level(ins) || Raises(ins)
    ensures HasWord(t, RBP) && WordOf(t, RBP) == WordOf(s, RBP) && HasWord(t, RSP)
    ensures Lowers(ins) ==> WordOf(t, RSP) <= WordOf(s, RSP)
    ensures Level(ins) ==> WordOf(t, RSP) == WordOf(s, RSP)
    ensures Raises(ins) ==> WordOf(t, RSP) >= WordOf(s, RSP)
  {
  }

  lemma {:induction false} FallingMoves(env: Env, block: seq<Instr>, s: Cpu, t: Cpu)
    requires Falling(block) && ExecAll(env, block, s) == Some(t) && HasWord(s, RBP) && HasWord(s, RSP)
    ensures HasWord(t, RBP) && WordOf(t, RBP) == WordOf(s, RBP)
    ensures HasWord(t, RSP) && WordOf(t, RSP) <= WordOf(s, RSP)
    decreases |block|
  {
    hide Exec;
    if block != [] {
      var u := Exec(env, block[0], s).value;
      ExecMoves(env, block[0], s, u);
      FallingMoves(env, block[1..], u, t);
    }
  }

  /** Straight-line code that dips keeps within the bound if both its ends do. */
  lemma {:induction false} RunBlockIn(
    p: Program, env: Env, i: nat, block: seq<Instr>, s: Cpu, t: Cpu, bp: int, depth: nat)
    requires CodeAt(p.code, i, block) && ExecAll(env, block, s) == Some(t) && Valley(block)
    requires StackIn(s, bp, depth) && StackIn(t, bp, depth)
    ensures RunIn(p, env, State(At(i), s), |block|, bp, depth)
    decreases |block|
  {
    hide Exec, External, RunIn, Run;
    if block == [] {
      RunInNone(p, env, State(At(i), s), bp, depth);
    } else {
      var u := Exec(env, block[0], s).value;
      var rest := block[1..];
      ExecMoves(env, block[0], s, u);
      if Lowers(block[0]) { FallingMoves(env, rest, u, t); FallingIsValley(rest); }
      assert block == [block[0]] + rest;
      CodeAtSplit(p.code, i, [block[0]], rest);
      RunBlockIn(p, env, i + 1, rest, u, t, bp, depth);
      BlockStep(p, env, i, block, s, u);
      RunInStep(p, env, State(At(i), s), bp, depth);
      RunInCompose(p, env, State(At(i), s), 1, State(At(i + 1), u), |rest|, bp, depth);
    }
  }

  lemma BlockStep(p: Program, env: Env, i: nat, block: seq<Instr>, s: Cpu, u: Cpu)
    requires block != [] && CodeAt(p.code, i, block) && Exec(env, block[0], s) == Some(u)
    ensures i < |p.code| && p.code[i] == block[0] && Run(p, env, State(At(i), s), 1) == Some(State(At(i + 1), u))
  {
    assert p.code[i] == p.code[i..i + |block|][0];
    assert [block[0]] == p.code[i..i + 1];
    assert [block[0]][1..] == [];
    assert ExecAll(env, [], u) == Some(u);
    assert ExecAll(env, [block[0]], s) == Some(u);
    RunBlock(p, env, i, [block[0]], s, u);
  }

  lemma {:induction false} FallingIsValley(block: seq<Instr>)
    requires Falling(block)
    ensures Valley(block)
    decreases |block|
  {
    if block != [] { FallingIsValley(block[1..]); }
  }

  /** Nothing in the block lowers rsp. */
  predicate Rising(block: seq<Instr>) {
    forall i :: 0 <= i < |block| ==> Level(block[i]) || Raises(block[i])
  }

  lemma {:induction false} RisingMoves(env: Env, block: seq<Instr>, s: Cpu, t: Cpu)
    requires Rising(block) && ExecAll(env, block, s) == Some(t) && HasWord(s, RBP) && HasWord(s, RSP)
    ensures HasWord(t, RBP) && WordOf(t, RBP) == WordOf(s, RBP)
    ensures HasWord(t, RSP) && WordOf(t, RSP) >= WordOf(s, RSP)
    ensures Valley(block)
    decreases |block|
  {
    hide Exec;
    if block != [] {
      var u := Exec(env, block[0], s).value;
      ExecMoves(env, block[0], s, u);
      RisingMoves(env, block[1..], u, t);
    }
  }

  lemma {:induction false} ValleyConcat(a: seq<Instr>, b: seq<Instr>)
    requires Rising(a) && Valley(b)
    ensures Valley(a + b)
    decreases |a|
  {
    if a == [] {
      assert a + b == b;
    } else {
      assert (a + b)[1..] == a[1..] + b;
      ValleyConcat(a[1..], b);
    }
  }

  lemma {:induction false} ExecAllSplit(env: Env, a: seq<Instr>, b: seq<Instr>, s: Cpu, t: Cpu) returns (u: Cpu)
    requires ExecAll(env, a + b, s) == Some(t)
    ensures ExecAll(env, a, s) == Some(u) && ExecAll(env, b, u) == Some(t)
    decreases |a|
  {
    hide Exec;
    if a == [] {
      assert a + b == b;
      u := s;
    } else {
      assert (a + b)[1..] == a[1..] + b && (a + b)[0] == a[0];
      u := ExecAllSplit(env, a[1..], b, Exec(env, a[0], s).value, t);
    }
  }
}
