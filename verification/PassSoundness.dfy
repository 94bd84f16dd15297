/**
 One optimiser pass preserves behaviour.  A machine state is carried over to the optimised program
 by remapping its pc and every return address it holds; the optimised program then runs in step
 with the original, in no more steps.
 */
module PassSoundness {
  import opened Base
  import opened X86
  import opened Optimizer
  import opened Relocation
  import opened Shadowing

  // ----- carrying states over -----

  /** Where a pass moves code addresses of the module; addresses outside stay. */
  function Mover(c: seq<Instr>): Pc -> Pc {
    (pc: Pc) => if pc.At? then At(Remap(c, pc.i)) else pc
  }

  function MapState(c: seq<Instr>, s: State): State {
    Relocate(Mover(c), s)
  }

  function PassProgram(p: Program): Program {
    Program(Pass(p.code), map l | l in p.labels :: Remap(p.code, p.labels[l]))
  }

  // ----- the states and programs the law speaks about -----

  predicate PtrOk(c: seq<Instr>, v: Val) {
    v.Code? && v.ret.At? ==> Boundary(c, v.ret.i)
  }

  predicate PtrsOk(c: seq<Instr>, s: Cpu) {
    (forall r :: r in s.regs ==> PtrOk(c, s.regs[r])) && (forall a :: a in s.mem ==> PtrOk(c, s.mem[a]))
  }

  /** Nothing below rsp is defined. */
  predicate Trimmed(s: Cpu) {
    HasWord(s, RSP) && forall a :: a in s.mem ==> WordOf(s, RSP) <= a
  }

  predicate Ready(c: seq<Instr>, s: State) {
    (s.pc.At? ==> Boundary(c, s.pc.i)) && PtrsOk(c, s.cpu) && Trimmed(s.cpu)
  }

  /** A mutual move pair may go only where the register it stops writing is popped next. */
  predicate PairsAreDead(c: seq<Instr>) {
    forall i :: 0 <= i < |c| && IsMutualMove(c[i..]) && c[i].dst.reg != c[i].src ==>
      c[i].dst.reg != RSP && i + 2 < |c| && c[i + 2] == Pop(c[i].dst.reg)
  }

  predicate LabelsOk(p: Program) {
    forall l :: l in p.labels ==> Boundary(p.code, p.labels[l])
  }

  // ----- what every step keeps -----

  lemma ExecKeeps(c: seq<Instr>, env: Env, ins: Instr, s: Cpu)
    requires PtrsOk(c, s) && Trimmed(s) && Exec(env, ins, s).Some?
    ensures PtrsOk(c, Exec(env, ins, s).value) && Trimmed(Exec(env, ins, s).value)
  {
  }

  // ----- one turn of the pass, run -----

  /** Where an instruction the pass keeps ends up. */
  lemma KeptAt(c: seq<Instr>, i: nat)
    requires i < |c| && Boundary(c, i) && RuleAt(c[i..]) == Keep
    ensures Boundary(c, i + 1) && Remap(c, i + 1) == Remap(c, i) + 1
    ensures Remap(c, i) < |Pass(c)| && Pass(c)[Remap(c, i)] == c[i]
  {
    hide Pass, Remap, Boundary;
    BoundaryNext(c, i);
    assert Pass(c)[Remap(c, i)..Remap(c, i) + 1][0] == c[i];
  }

  /** The optimised program makes the same step. */
  predicate StepsAlike(p: Program, env: Env, s: State)
    requires Step(p, env, s).Some?
  {
    var t := Step(p, env, s).value;
    Ready(p.code, t) && Step(PassProgram(p), env, MapState(p.code, s)) == Some(MapState(p.code, t))
  }

  lemma KeepCall(p: Program, env: Env, s: State)
    requires Ready(p.code, s) && LabelsOk(p) && Step(p, env, s).Some? && p.code[s.pc.i].CallLabel?
    ensures StepsAlike(p, env, s)
  {
    hide Remap, Pass, Boundary, Exec, External;
    KeptAt(p.code, s.pc.i);
    PushCommutes(Mover(p.code), env, s.cpu, Code(At(s.pc.i + 1)));
  }

  lemma KeepRet(p: Program, env: Env, s: State)
    requires Ready(p.code, s) && Step(p, env, s).Some? && p.code[s.pc.i].Ret?
    ensures StepsAlike(p, env, s)
  {
    hide Remap, Pass, Boundary, Exec, External;
    KeptAt(p.code, s.pc.i);
    ReleaseCommutes(Mover(p.code), s.cpu, WordOf(s.cpu, RSP) + 8);
  }

  lemma KeepSlot(p: Program, env: Env, s: State)
    requires Ready(p.code, s) && LabelsOk(p) && Step(p, env, s).Some? && p.code[s.pc.i].MovRSlot?
    ensures StepsAlike(p, env, s)
  {
    hide Remap, Pass, Boundary, Exec, External;
    var ins := p.code[s.pc.i];
    KeptAt(p.code, s.pc.i);
    KeepsDq(p, ins.target);
    SetRegCommutes(Mover(p.code), s.cpu, ins.r, Import(ins.target.f));
  }

  lemma KeepExternal(p: Program, env: Env, s: State)
    requires Ready(p.code, s) && Step(p, env, s).Some? && p.code[s.pc.i].CallReg?
    ensures StepsAlike(p, env, s)
  {
    hide Remap, Pass, Boundary, Exec;
    KeptAt(p.code, s.pc.i);
    ExternalCommutes(Mover(p.code), env, s.cpu, s.cpu.regs[p.code[s.pc.i].r].f);
  }

  /** An instruction the pass keeps. */
  lemma KeepStep(p: Program, env: Env, s: State)
    requires Ready(p.code, s) && LabelsOk(p) && Step(p, env, s).Some?
    requires RuleAt(p.code[s.pc.i..]) == Keep
    ensures StepsAlike(p, env, s)
  {
    hide Remap, Pass, Boundary, Exec, External, StepsAlike;
    match p.code[s.pc.i]
    case CallLabel(_) => KeepCall(p, env, s);
    case Ret => KeepRet(p, env, s);
    case MovRSlot(_, _) => KeepSlot(p, env, s);
    case CallReg(_) => KeepExternal(p, env, s);
    case _ => KeepPlain(p, env, s);
  }

  /** Instructions that change the flow of control or look at labels. */
  predicate IsControl(ins: Instr) {
    ins.CallLabel? || ins.Ret? || ins.MovRSlot? || ins.CallReg?
  }

  lemma KeepPlain(p: Program, env: Env, s: State)
    requires Ready(p.code, s) && Step(p, env, s).Some?
    requires RuleAt(p.code[s.pc.i..]) == Keep && !IsControl(p.code[s.pc.i])
    ensures StepsAlike(p, env, s)
  {
    hide Remap, Pass, Boundary, Exec, External;
    KeptAt(p.code, s.pc.i);
    ExecCommutes(Mover(p.code), env, p.code[s.pc.i], s.cpu);
    ExecKeeps(p.code, env, p.code[s.pc.i], s.cpu);
  }

  lemma KeepsDq(p: Program, l: Label)
    requires LabelsOk(p) && SlotAt(p, l)
    ensures SlotAt(PassProgram(p), l)
  {
    KeepsData(p.code, p.labels[l]);
  }

  lemma {:induction false} KeepsData(c: seq<Instr>, i: nat)
    requires Boundary(c, i) && DataAt(c, i)
    ensures DataAt(Pass(c), Remap(c, i))
    decreases |c| - i
  {
    hide Remap, Pass, Boundary;
    KeptAt(c, i);
    if c[i].ZeroBytes? { KeepsData(c, i + 1); }
  }

  /** Straight-line instructions the original executes one after the other from its pc. */
  lemma StepExec(p: Program, env: Env, i: nat, s: Cpu)
    requires i < |p.code| && Step(p, env, State(At(i), s)).Some?
    requires p.code[i].Push? || p.code[i].Pop? || IsRegMove(p.code[i])
    ensures Exec(env, p.code[i], s).Some?
    ensures Step(p, env, State(At(i), s)) == Some(State(At(i + 1), Exec(env, p.code[i], s).value))
  {
  }

  /** push a ; pop b does what mov b, a does. */
  lemma PushPopIsMove(env: Env, a: Reg, b: Reg, s: Cpu)
    requires Trimmed(s) && Exec(env, Push(a), s).Some? && Exec(env, Pop(b), Exec(env, Push(a), s).value).Some?
    ensures Exec(env, MovRmR(R(b), a), s) == Exec(env, Pop(b), Exec(env, Push(a), s).value)
  {
    var sp, v := WordOf(s, RSP), s.regs[a];
    var pushed := Exec(env, Push(a), s).value;
    var popped := Release(pushed, sp);
    assert popped.mem == s.mem;
    assert popped.regs == s.regs;
    assert Exec(env, Pop(b), pushed) == SetReg(popped, b, v);
  }

  /** A self move changes nothing. */
  lemma SelfMoveIsIdle(env: Env, a: Reg, s: Cpu)
    requires Trimmed(s) && Exec(env, MovRmR(R(a), a), s).Some?
    ensures Exec(env, MovRmR(R(a), a), s) == Some(s)
  {
    assert s.regs[a := s.regs[a]] == s.regs;
    if a == RSP { assert Above(s.mem, WordOf(s, RSP)) == s.mem; }
  }

  /** mov a, b ; mov b, a ; pop a does what pop a does. */
  lemma DeadPairIsIdle(env: Env, a: Reg, b: Reg, s: Cpu)
    requires Trimmed(s) && a != b && a != RSP
    requires ExecAll(env, [MovRmR(R(a), b), MovRmR(R(b), a), Pop(a)], s).Some?
    ensures Exec(env, Pop(a), s) == ExecAll(env, [MovRmR(R(a), b), MovRmR(R(b), a), Pop(a)], s)
  {
    var block := [MovRmR(R(a), b), MovRmR(R(b), a), Pop(a)];
    var s1 := s.(regs := s.regs[a := s.regs[b]]);
    assert Exec(env, block[0], s) == Some(s1);
    assert s1.regs[b := s1.regs[a]] == s1.regs;
    assert Above(s1.mem, WordOf(s, RSP)) == s1.mem;
    assert Exec(env, block[1], s1) == Some(s1);
    assert block[1..][1..] == [Pop(a)] && block[1..][0] == block[1];
    assert ExecAll(env, [Pop(a)], s1) == Exec(env, Pop(a), s1);
    var sp := WordOf(s, RSP);
    assert s1.regs[RSP := Word(sp + 8)][a := s.mem[sp]] == s.regs[RSP := Word(sp + 8)][a := s.mem[sp]];
  }

  /** How many steps of the original one turn of the pass covers. */
  function TurnSteps(c: seq<Instr>, i: nat): (k: nat)
    requires i < |c|
    ensures 1 <= k <= 3
  {
    if RuleAt(c[i..]).DropPair? && c[i].dst.reg != c[i].src then 3 else Width(c[i..])
  }

  /** A fused pair: two steps become one. */
  lemma FuseTurn(p: Program, env: Env, s: State, t: State)
    requires Ready(p.code, s) && s.pc.At? && s.pc.i < |p.code|
    requires RuleAt(p.code[s.pc.i..]) == Fuse
    requires Run(p, env, s, 2) == Some(t)
    ensures Ready(p.code, t)
    ensures Step(PassProgram(p), env, MapState(p.code, s)) == Some(MapState(p.code, t))
  {
    hide Remap, Pass, Boundary;
    var c, i, q := p.code, s.pc.i, PassProgram(p);
    BoundaryNext(c, i);
    var a, b := c[i].r, c[i + 1].r;
    var mov := MovRmR(R(b), a);
    var j := Remap(c, i);
    assert q.code[j] == q.code[j..j + 1][0] == mov;
    StepExec(p, env, i, s.cpu);
    var u := Exec(env, c[i], s.cpu).value;
    assert Run(p, env, State(At(i + 1), u), 1) == Step(p, env, State(At(i + 1), u)) == Some(t);
    StepExec(p, env, i + 1, u);
    PushPopIsMove(env, a, b, s.cpu);
    ExecCommutes(Mover(c), env, mov, s.cpu);
    ExecKeeps(c, env, mov, s.cpu);
  }

  /** A self move: one step becomes none. */
  lemma SelfTurn(p: Program, env: Env, s: State, t: State)
    requires Ready(p.code, s) && s.pc.At? && s.pc.i < |p.code|
    requires RuleAt(p.code[s.pc.i..]) == DropSelf
    requires Step(p, env, s) == Some(t)
    ensures Ready(p.code, t) && MapState(p.code, s) == MapState(p.code, t)
  {
    BoundaryNext(p.code, s.pc.i);
    SelfMoveIsIdle(env, p.code[s.pc.i].src, s.cpu);
  }

  /** Two self moves in a row: two steps become none. */
  lemma SelfPairTurn(p: Program, env: Env, s: State, t: State)
    requires Ready(p.code, s) && s.pc.At? && s.pc.i < |p.code|
    requires RuleAt(p.code[s.pc.i..]) == DropPair && p.code[s.pc.i].dst.reg == p.code[s.pc.i].src
    requires Run(p, env, s, 2) == Some(t)
    ensures Ready(p.code, t) && MapState(p.code, s) == MapState(p.code, t)
  {
    hide Remap, Pass, Boundary, External;
    var c, i := p.code, s.pc.i;
    BoundaryNext(c, i);
    var a := c[i].src;
    assert c[i] == c[i + 1] == MovRmR(R(a), a);
    SelfMoveIsIdle(env, a, s.cpu);
    assert Step(p, env, s) == Some(State(At(i + 1), s.cpu));
    assert Run(p, env, State(At(i + 1), s.cpu), 1) == Step(p, env, State(At(i + 1), s.cpu)) == Some(t);
  }

  /** A dead mutual pair and the pop after it: three steps become one. */
  lemma DeadPairTurn(p: Program, env: Env, s: State, t: State)
    requires Ready(p.code, s) && s.pc.At? && s.pc.i < |p.code| && PairsAreDead(p.code)
    requires RuleAt(p.code[s.pc.i..]) == DropPair && p.code[s.pc.i].dst.reg != p.code[s.pc.i].src
    requires Run(p, env, s, 3) == Some(t)
    ensures Ready(p.code, t)
    ensures Step(PassProgram(p), env, MapState(p.code, s)) == Some(MapState(p.code, t))
  {
    hide Remap, Pass, Boundary, ExecAll, Run;
    var c, i, q := p.code, s.pc.i, PassProgram(p);
    var a, b := c[i].dst.reg, c[i].src;
    BoundaryNext(c, i);
    KeptAt(c, i + 2);
    assert q.code[Remap(c, i)] == Pop(a);
    var block := [MovRmR(R(a), b), MovRmR(R(b), a), Pop(a)];
    ThreeSteps(p, env, i, block, s.cpu, t);
    DeadPairIsIdle(env, a, b, s.cpu);
    ExecCommutes(Mover(c), env, Pop(a), s.cpu);
    ExecKeeps(c, env, Pop(a), s.cpu);
  }

  lemma ThreeSteps(p: Program, env: Env, i: nat, block: seq<Instr>, s: Cpu, t: State)
    requires |block| == 3 && i + 3 <= |p.code|
    requires p.code[i] == block[0] && p.code[i + 1] == block[1] && p.code[i + 2] == block[2]
    requires forall k :: 0 <= k < 3 ==> block[k].Pop? || IsRegMove(block[k])
    requires Run(p, env, State(At(i), s), 3) == Some(t)
    ensures ExecAll(env, block, s).Some? && t == State(At(i + 3), ExecAll(env, block, s).value)
  {
    StepExec(p, env, i, s);
    var s1 := Exec(env, block[0], s).value;
    assert Run(p, env, State(At(i + 1), s1), 2) == Some(t);
    StepExec(p, env, i + 1, s1);
    var s2 := Exec(env, block[1], s1).value;
    assert Run(p, env, State(At(i + 2), s2), 1) == Some(t);
    assert Step(p, env, State(At(i + 2), s2)) == Some(t);
    StepExec(p, env, i + 2, s2);
    assert block[1..][0] == block[1] && block[1..][1..] == [block[2]];
    assert ExecAll(env, [block[2]], s2) == Exec(env, block[2], s2);
  }

  // ----- frame edges through a pass -----

  /** A pop right after a push starts no turn. */
  lemma {:induction false} PopAfterPushIsInside(c: seq<Instr>, i: nat)
    requires 0 < i < |c| && c[i - 1].Push? && c[i].Pop?
    ensures !Boundary(c, i)
    decreases |c|
  {
    var w := Width(c);
    if w < i {
      assert c[w..][i - w - 1] == c[i - 1] && c[w..][i - w] == c[i];
      PopAfterPushIsInside(c[w..], i - w);
    }
  }

  /** A push before a turn's start starts a turn itself. */
  lemma {:induction false} PushStartsTurn(c: seq<Instr>, i: nat)
    requires 0 < i <= |c| && c[i - 1].Push? && Boundary(c, i)
    ensures Boundary(c, i - 1)
    decreases |c|
  {
    var w := Width(c);
    if w < i {
      assert c[w..][i - w - 1] == c[i - 1];
      PushStartsTurn(c[w..], i - w);
    }
  }

  /** The turn at `i` makes the optimised program take a step. */
  predicate Steps(c: seq<Instr>, i: nat)
    requires i < |c|
  {
    var rule := RuleAt(c[i..]);
    rule.Keep? || rule.Fuse? || (rule.DropPair? && c[i].dst.reg != c[i].src)
  }

  lemma KeptEdge(c: seq<Instr>, i: nat)
    requires i < |c| && Boundary(c, i) && RuleAt(c[i..]) == Keep && Edge(c, i)
    ensures Remap(c, i) < |Pass(c)| && Edge(Pass(c), Remap(c, i))
  {
    hide Pass, Remap, Boundary;
    KeptAt(c, i);
    if i > 0 && c[i - 1] == Push(RBP) && c[i] == Pop(RBP) { PopAfterPushIsInside(c, i); }
  }

  lemma FusedEdge(c: seq<Instr>, i: nat)
    requires i < |c| && Boundary(c, i) && RuleAt(c[i..]) == Fuse && Edge(c, i) && EdgeOk(c, i)
    ensures Remap(c, i) < |Pass(c)| && Edge(Pass(c), Remap(c, i))
  {
    hide Pass, Remap, Boundary;
    BoundaryNext(c, i);
    var j := Remap(c, i);
    assert Pass(c)[j] == Pass(c)[j..j + 1][0] == MovRmR(R(RBP), RBP);
  }

  lemma DroppedEdge(c: seq<Instr>, i: nat)
    requires i < |c| && Boundary(c, i) && RuleAt(c[i..]) == DropPair && c[i].dst.reg != c[i].src
    requires Edge(c, i) && EdgeOk(c, i) && PairsAreDead(c)
    ensures Remap(c, i) < |Pass(c)| && Edge(Pass(c), Remap(c, i))
  {
    hide Pass, Remap, Boundary;
    BoundaryNext(c, i);
    KeptAt(c, i + 2);
    PushStartsTurn(c, i);
    KeptAt(c, i - 1);
  }

  /** Where the optimised program stands away from the edges at a step it takes, the original does. */
  lemma TurnSteady(p: Program, s: State)
    requires Ready(p.code, s) && PairsAreDead(p.code) && s.pc.At? && s.pc.i < |p.code| && Steps(p.code, s.pc.i)
    ensures SteadyAlike(p, s.pc, PassProgram(p), MapState(p.code, s).pc)
  {
    hide Pass, Remap, Boundary, Edge, EdgeOk, PairsAreDead, PtrsOk, Trimmed;
    var c, i := p.code, s.pc.i;
    if EdgesOk(c) && Edge(c, i) {
      assert EdgeOk(c, i);
      match RuleAt(c[i..])
      case Keep => KeptEdge(c, i);
      case Fuse => FusedEdge(c, i);
      case DropPair => DroppedEdge(c, i);
    }
  }

  // ----- whole runs -----

  /**
   Every run is matched by the optimised program up to the turn it is in: after `k` of its `n` steps,
   in no more steps, in the same state up to remapped code addresses, with all external calls made.
   A run that leaves the module is matched to its end, through states the original passes through.
   */
  lemma {:induction false} PassPreservesRuns(p: Program, env: Env, s: State, n: nat) returns (k: nat, m: nat)
    requires Ready(p.code, s) && LabelsOk(p) && PairsAreDead(p.code)
    requires Run(p, env, s, n).Some?
    ensures m <= k <= n < k + 3 && Run(p, env, s, k).Some? && (Leaves(p, env, s, n) ==> k == n)
    ensures Run(PassProgram(p), env, MapState(p.code, s), m) == Some(MapState(p.code, Run(p, env, s, k).value))
    ensures Run(p, env, s, k).value.cpu.trace == Run(p, env, s, n).value.cpu.trace
    ensures Leaves(p, env, s, n) ==> Shadowed(p, env, s, n, PassProgram(p), MapState(p.code, s), m)
    decreases n
  {
    hide Step, Remap, Pass, Boundary, Shadowed, SameCpu, MapCpu, Steps, EdgesOk;
    k, m := 0, 0;
    MovedIsSame(p.code, s.cpu);
    if n == 0 || InsideTurn(p.code, s, n) {
      if n > 0 { TurnCut(p, env, s, n); }
      if Leaves(p, env, s, n) { ShadowStart(env, p, s, PassProgram(p), MapState(p.code, s)); }
    } else {
      OnCode(p, env, s, n);
      var turn := TurnSteps(p.code, s.pc.i);
      RunSplit(p, env, s, turn, n - turn);
      var t := Run(p, env, s, turn).value;
      var first := TurnRuns(p, env, s, t);
      var done, rest := PassPreservesRuns(p, env, t, n - turn);
      RunCompose(p, env, s, turn, t, done);
      RunCompose(PassProgram(p), env, MapState(p.code, s), first, MapState(p.code, t), rest);
      k, m := turn + done, first + rest;
      if first == 1 { TurnSteady(p, s); }
      if Leaves(p, env, s, n) {
        ShadowAfter(
          env, p, s, turn, t, n - turn, PassProgram(p), MapState(p.code, s), first, MapState(p.code, t), rest);
      }
    }
  }

  /** `n` steps from `s` do not complete the turn there. */
  predicate InsideTurn(c: seq<Instr>, s: State, n: nat) {
    s.pc.At? && s.pc.i < |c| && n < TurnSteps(c, s.pc.i)
  }

  lemma OnCode(p: Program, env: Env, s: State, n: nat)
    requires n > 0 && Run(p, env, s, n).Some?
    ensures s.pc.At? && s.pc.i < |p.code|
  {
  }

  lemma MovedIsSame(c: seq<Instr>, s: Cpu)
    ensures SameCpu(s, MapCpu(Mover(c), s))
  {
  }

  lemma TurnRuns(p: Program, env: Env, s: State, t: State) returns (m: nat)
    requires Ready(p.code, s) && LabelsOk(p) && PairsAreDead(p.code)
    requires s.pc.At? && s.pc.i < |p.code| && Run(p, env, s, TurnSteps(p.code, s.pc.i)) == Some(t)
    ensures m <= 1 && Ready(p.code, t) && (m == 1 ==> Steps(p.code, s.pc.i))
    ensures Run(PassProgram(p), env, MapState(p.code, s), m) == Some(MapState(p.code, t))
  {
    match RuleAt(p.code[s.pc.i..])
    case Keep =>
      OneStep(p, env, s, t);
      KeepStep(p, env, s);
      m := AsRun(PassProgram(p), env, MapState(p.code, s), MapState(p.code, t));
    case Fuse =>
      FuseTurn(p, env, s, t);
      m := AsRun(PassProgram(p), env, MapState(p.code, s), MapState(p.code, t));
    case DropSelf =>
      OneStep(p, env, s, t);
      SelfTurn(p, env, s, t);
      m := 0;
    case DropPair =>
      if TurnSteps(p.code, s.pc.i) == 2 {
        SelfPairTurn(p, env, s, t);
        m := 0;
      } else {
        DeadPairTurn(p, env, s, t);
        m := AsRun(PassProgram(p), env, MapState(p.code, s), MapState(p.code, t));
      }
  }

  lemma AsRun(p: Program, env: Env, s: State, t: State) returns (m: nat)
    requires Step(p, env, s) == Some(t)
    ensures m == 1 && Run(p, env, s, 1) == Some(t)
  {
    assert Run(p, env, t, 0) == Some(t);
    m := 1;
  }

  lemma OneStep(p: Program, env: Env, s: State, t: State)
    requires Run(p, env, s, 1) == Some(t)
    ensures Step(p, env, s) == Some(t)
  {
    assert Run(p, env, t, 0) == Some(t);
  }

  /** Inside a turn there are only pushes and register moves. */
  lemma TurnCut(p: Program, env: Env, s: State, n: nat)
    requires n > 0 && InsideTurn(p.code, s, n) && Run(p, env, s, n).Some?
    ensures Run(p, env, s, n).value.pc.At? && Run(p, env, s, n).value.cpu.trace == s.cpu.trace && n < 3
  {
    var c, i := p.code, s.pc.i;
    var t := Step(p, env, s).value;
    StepExec(p, env, i, s.cpu);
    assert Run(p, env, s, n) == Run(p, env, t, n - 1);
    if n == 2 {
      StepExec(p, env, i + 1, t.cpu);
      var u := Step(p, env, t).value;
      assert Run(p, env, t, 1) == Run(p, env, u, 0);
    }
  }
}
