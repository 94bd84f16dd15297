/**
 What holds of every instruction stream the code generator emits and of everything the optimiser
 turns it into, and the optimiser's correctness on those streams.
 */
module Streams {
  import opened Base
  import opened X86
  import opened Optimizer
  import opened Relocation
  import opened Shadowing
  import opened PassSoundness

  // ----- neighbours -----

  function Mov(d: Reg, s: Reg): Instr {
    MovRmR(R(d), s)
  }

  /** The only registers pushed, popped and moved between. */
  predicate Shape(x: Instr) {
    && (x.Push? ==> x.r == RAX || x.r == RDX || x.r == RBP)
    && (x.Pop? ==> x.r != RSP)
    && (IsRegMove(x) ==>
          || x == Mov(RBP, RSP) || x == Mov(RSP, RBP) || x == Mov(RBP, RBP)
          || ((x.src == RAX || x.src == RDX) && x.dst.reg != RSP && x.dst.reg != RBP))
  }

  /** What may come right after rax was popped. */
  predicate AfterRax(y: Instr) {
    y.Pop? || (y.MovRmR? && y.dst.M?) || y.AddRspImm? || y == Mov(RSP, RBP)
  }

  /** `y` may come right after `x`. */
  predicate Follows(x: Instr, y: Instr) {
    && (y == Push(RDX) || (IsRegMove(y) && y.src == RDX) ==> x == Push(RAX))
    && (x == Push(RBP) ==> y == Mov(RBP, RSP) || y == Pop(RBP))
    && (x == Mov(RSP, RBP) ==> y == Pop(RBP))
    && (y == Pop(RBP) ==> x == Mov(RSP, RBP) || x == Push(RBP))
    && (y == Mov(RBP, RSP) ==> x == Push(RBP))
    && (x == Pop(RAX) || (IsRegMove(x) && x.dst.reg == RAX) ==> AfterRax(y))
  }

  /** Every instruction has the shape, and every neighbour may follow, in `c` coming after `x`. */
  predicate Chain(x: Instr, c: seq<Instr>)
    decreases |c|
  {
    if c == [] then Follows(x, Nop)
    else Shape(c[0]) && Follows(x, c[0]) && Chain(c[0], c[1..])
  }

  lemma {:induction false} ChainAt(x: Instr, c: seq<Instr>, i: nat)
    requires Chain(x, c) && i < |c|
    ensures Shape(c[i])
    ensures Follows(c[i], if i + 1 < |c| then c[i + 1] else Nop)
    decreases |c|
  {
    if i > 0 { ChainAt(c[0], c[1..], i - 1); }
  }

  lemma {:induction false} ChainConcat(x: Instr, a: seq<Instr>, b: seq<Instr>)
    requires Chain(x, a) && a != [] && Chain(a[|a| - 1], b)
    ensures Chain(x, a + b)
    decreases |a|
  {
    assert (a + b)[1..] == a[1..] + b;
    if |a| > 1 { ChainConcat(a[0], a[1..], b); } else { assert a[1..] + b == b; }
  }

  lemma ChainCons(x: Instr, h: Instr, c: seq<Instr>)
    requires Shape(h) && Follows(x, h) && Chain(h, c)
    ensures Chain(x, [h] + c)
  {
    assert ([h] + c)[1..] == c;
  }

  lemma DropSelfMove(x: Instr, m: Instr, y: Instr)
    requires IsRegMove(m) && m.dst.reg == m.src && Follows(x, m) && Follows(m, y)
    ensures Follows(x, y)
  {
  }

  lemma {:induction false} ChainDrop(x: Instr, c: seq<Instr>)
    requires c != [] && IsSelfMove(c) && Chain(x, c)
    ensures Chain(x, c[1..])
  {
    DropSelfMove(x, c[0], if |c| > 1 then c[1] else Nop);
  }

  /** The neighbour conditions survive a pass. */
  lemma {:induction false} PassKeepsChain(x: Instr, c: seq<Instr>)
    requires Chain(x, c)
    ensures Chain(x, Pass(c))
    decreases |c|
  {
    if c != [] {
      var rest := c[Width(c)..];
      match RuleAt(c)
      case Keep =>
        PassKeepsChain(c[0], rest);
        assert Pass(c)[1..] == Pass(rest);
      case DropSelf =>
        ChainDrop(x, c);
        PassKeepsChain(x, rest);
        assert Pass(c) == Pass(rest);
      case DropPair =>
        PairGone(x, c);
        PassKeepsChain(x, rest);
        assert Pass(c) == Pass(rest);
      case Fuse =>
        var m := Mov(c[1].r, c[0].r);
        FusedFits(x, c);
        PassKeepsChain(m, rest);
        assert Pass(c) == [m] + Pass(rest) && Pass(c)[1..] == Pass(rest);
    }
  }

  lemma FusedFits(x: Instr, c: seq<Instr>)
    requires IsPushPop(c) && Chain(x, c)
    ensures Shape(Mov(c[1].r, c[0].r)) && Follows(x, Mov(c[1].r, c[0].r))
    ensures Chain(Mov(c[1].r, c[0].r), c[2..])
  {
    assert c[1..][1..] == c[2..];
    assert Chain(c[1], c[2..]);
  }

  /** A mutual pair is two self moves, or the frame pair of an empty body. */
  lemma MutualIsFramePair(x: Instr, c: seq<Instr>)
    requires IsMutualMove(c) && Chain(x, c) && c[0].dst.reg != c[0].src
    ensures c[0] == Mov(RBP, RSP) && c[1] == Mov(RSP, RBP) && x == Push(RBP)
    ensures |c| > 2 && c[2] == Pop(RBP)
  {
    ChainAt(x, c, 0);
    ChainAt(x, c, 1);
  }

  lemma PairGone(x: Instr, c: seq<Instr>)
    requires IsMutualMove(c) && Chain(x, c)
    ensures Chain(x, c[2..])
  {
    assert c[1..][1..] == c[2..];
    if c[0].dst.reg == c[0].src {
      ChainDrop(x, c);
      ChainDrop(x, c[1..]);
    } else {
      MutualIsFramePair(x, c);
      assert Chain(c[1], c[2..]);
    }
  }

  lemma {:induction false} ChainFrom(x: Instr, c: seq<Instr>, i: nat)
    requires Chain(x, c) && i <= |c|
    ensures Chain(if i == 0 then x else c[i - 1], c[i..])
    decreases |c|
  {
    if i == 0 {
      assert c[0..] == c;
    } else {
      ChainFrom(c[0], c[1..], i - 1);
      assert c[1..][i - 1..] == c[i..];
    }
  }

  /** So the rule that drops a pair only ever drops a dead write. */
  lemma ChainPairsAreDead(x: Instr, c: seq<Instr>)
    requires Chain(x, c)
    ensures PairsAreDead(c)
  {
    forall i | 0 <= i < |c| && IsMutualMove(c[i..]) && c[i].dst.reg != c[i].src
      ensures c[i].dst.reg != RSP && i + 2 < |c| && c[i + 2] == Pop(c[i].dst.reg) {
      ChainFrom(x, c, i);
      MutualIsFramePair(if i == 0 then x else c[i - 1], c[i..]);
    }
  }

  /** And what the passes leave of an edge is an edge. */
  lemma ChainEdgesOk(c: seq<Instr>)
    requires Chain(Nop, c)
    ensures EdgesOk(c)
  {
    forall i: nat | i < |c| ensures EdgeOk(c, i) {
      ChainAt(Nop, c, i);
      if i > 0 { ChainAt(Nop, c, i - 1); }
    }
  }

  // ----- labels -----

  /** Instructions no rule touches and control does not fall through, or data. */
  predicate Barrier(x: Instr) {
    x.Ret? || x.Dq? || x.ZeroBytes?
  }

  /** Labels are in order, in range, distinct, and each comes right after a barrier; so does the end. */
  predicate Anchored(c: seq<Instr>, labels: seq<LabelIndex>) {
    && (c != [] ==> Barrier(c[|c| - 1]))
    && (forall k :: 0 <= k < |labels| ==> labels[k].index < |c|)
    && (forall k :: 0 <= k < |labels| ==> labels[k].index == 0 || Barrier(c[labels[k].index - 1]))
    && (forall j, k :: 0 <= j < k < |labels| ==> labels[j].index < labels[k].index)
    && (forall j, k :: 0 <= j < k < |labels| ==> labels[j].name != labels[k].name)
  }

  /** A barrier is never the second half of a pair. */
  lemma {:induction false} BarrierIsKept(c: seq<Instr>, i: nat)
    requires i < |c| && Barrier(c[i])
    ensures Boundary(c, i) && RuleAt(c[i..]) == Keep
  {
    if i == 0 {
      assert c[0..] == c;
    } else {
      var w := Width(c);
      assert w <= i;
      BarrierIsKept(c[w..], i - w);
      assert c[w..][i - w..] == c[i..];
    }
  }

  /** Where a label after a barrier goes. */
  lemma AfterBarrier(c: seq<Instr>, i: nat)
    requires 0 < i <= |c| && Barrier(c[i - 1])
    ensures Boundary(c, i) && 0 < Remap(c, i) <= |Pass(c)|
    ensures Pass(c)[Remap(c, i) - 1] == c[i - 1] && Remap(c, i - 1) == Remap(c, i) - 1
  {
    BarrierIsKept(c, i - 1);
    KeptAt(c, i - 1);
  }

  lemma RemapMonotone(c: seq<Instr>, i: nat, j: nat)
    requires i < j <= |c| && Boundary(c, i) && Barrier(c[j - 1])
    ensures Boundary(c, j) && Remap(c, i) < Remap(c, j) <= |Pass(c)|
  {
    AfterBarrier(c, j);
    RemapFrom(c, i, j - 1);
  }

  lemma LabelBoundary(c: seq<Instr>, labels: seq<LabelIndex>, k: nat)
    requires Anchored(c, labels) && k < |labels|
    ensures Boundary(c, labels[k].index)
  {
    if labels[k].index > 0 { AfterBarrier(c, labels[k].index); }
  }

  /** Labels stay in order, in range, distinct and anchored through a pass. */
  lemma PassKeepsAnchors(c: seq<Instr>, labels: seq<LabelIndex>)
    requires Anchored(c, labels)
    ensures Anchored(Pass(c), RemapLabels(c, labels))
  {
    hide Remap, Pass, Boundary;
    var moved := RemapLabels(c, labels);
    if c != [] {
      AfterBarrier(c, |c|);
      SuffixCommutes(c, |c|);
      assert c[|c|..] == [];
      EndIsEnd(c);
    } else {
      PassShrinks(c);
    }
    forall k | 0 <= k < |labels| ensures moved[k].index < |Pass(c)| {
      LabelBoundary(c, labels, k);
      RemapMonotone(c, labels[k].index, |c|);
    }
    forall k | 0 <= k < |labels| ensures moved[k].index == 0 || Barrier(Pass(c)[moved[k].index - 1]) {
      if labels[k].index == 0 { RemapStart(c); } else { AfterBarrier(c, labels[k].index); }
    }
    forall j, k | 0 <= j < k < |labels| ensures moved[j].index < moved[k].index {
      LabelBoundary(c, labels, j);
      RemapMonotone(c, labels[j].index, labels[k].index);
    }
  }

  lemma EndIsEnd(c: seq<Instr>)
    requires Boundary(c, |c|)
    ensures Remap(c, |c|) == |Pass(c)|
  {
    SuffixCommutes(c, |c|);
    assert Pass(c)[Remap(c, |c|)..] == [];
  }

  // ----- programs -----

  /** The first entry with a name is its label. */
  function LabelMap(labels: seq<LabelIndex>): map<Label, nat> {
    if labels == [] then map[] else LabelMap(labels[1..])[labels[0].name := labels[0].index]
  }

  function ProgramOf(c: seq<Instr>, labels: seq<LabelIndex>): Program {
    Program(c, LabelMap(labels))
  }

  lemma {:induction false} LabelMapRemap(c: seq<Instr>, labels: seq<LabelIndex>)
    ensures LabelMap(RemapLabels(c, labels)) ==
            map l | l in LabelMap(labels) :: Remap(c, LabelMap(labels)[l])
  {
    hide Remap;
    if labels != [] {
      LabelMapRemap(c, labels[1..]);
      assert RemapLabels(c, labels)[1..] == RemapLabels(c, labels[1..]);
    }
  }

  lemma {:induction false} LabelMapEntries(labels: seq<LabelIndex>, l: Label)
    ensures l in LabelMap(labels) <==> exists k :: 0 <= k < |labels| && labels[k].name == l
    ensures l in LabelMap(labels) ==>
              exists k :: 0 <= k < |labels| && labels[k] == LabelIndex(LabelMap(labels)[l], l)
  {
    if labels != [] {
      var rest := labels[1..];
      LabelMapEntries(rest, l);
      if labels[0].name == l {
        assert labels[0] == LabelIndex(LabelMap(labels)[l], l);
      } else if l in LabelMap(rest) {
        var k :| 0 <= k < |rest| && rest[k] == LabelIndex(LabelMap(rest)[l], l);
        assert labels[k + 1] == rest[k];
      } else {
        forall k | 0 <= k < |labels| ensures labels[k].name != l {
          if k > 0 { assert rest[k - 1] == labels[k]; }
        }
      }
    }
  }

  lemma {:induction false} LabelMapOf(labels: seq<LabelIndex>, k: nat)
    requires k < |labels|
    requires forall i, j :: 0 <= i < j < |labels| ==> labels[i].name != labels[j].name
    ensures labels[k].name in LabelMap(labels) && LabelMap(labels)[labels[k].name] == labels[k].index
  {
    LabelMapEntries(labels, labels[k].name);
  }

  lemma AnchoredLabelsOk(c: seq<Instr>, labels: seq<LabelIndex>)
    requires Anchored(c, labels)
    ensures LabelsOk(ProgramOf(c, labels))
  {
    var p := ProgramOf(c, labels);
    forall l | l in p.labels ensures Boundary(c, p.labels[l]) {
      LabelMapEntries(labels, l);
      var k :| 0 <= k < |labels| && labels[k] == LabelIndex(p.labels[l], l);
      LabelBoundary(c, labels, k);
    }
  }

  // ----- the optimiser -----

  /** No register or stack word points back into the module: how it is entered from outside. */
  predicate Plain(s: Cpu) {
    && (forall r :: r in s.regs ==> !(s.regs[r].Code? && s.regs[r].ret.At?))
    && (forall a :: a in s.mem ==> !(s.mem[a].Code? && s.mem[a].ret.At?))
  }

  /** About to run from a label. */
  function EnterAt(p: Program, l: Label, s: Cpu): State
    requires l in p.labels
  {
    State(At(p.labels[l]), s)
  }

  /**
   Optimiser correctness.  On every stream with the neighbour conditions and anchored labels, for
   every run from a label the optimised code, from its own index for that label, makes the same
   external calls in no more steps.  If the run leaves the module, so does the optimised code, with the
   same registers and live stack, and on the way through no machine state that the original does not
   pass through.
   */
  lemma {:induction false} FixPreservesRuns(c: seq<Instr>, labels: seq<LabelIndex>, env: Env, l: Label, s: Cpu, n: nat)
    returns (m: nat, t: State)
    requires Chain(Nop, c) && Anchored(c, labels) && l in LabelMap(labels)
    requires Plain(s) && Trimmed(s)
    requires Run(ProgramOf(c, labels), env, EnterAt(ProgramOf(c, labels), l, s), n).Some?
    ensures var p, q := ProgramOf(c, labels), ProgramOf(Fix(c, labels).0, Fix(c, labels).1);
            l in q.labels && Matches(p, env, EnterAt(p, l, s), n, q, EnterAt(q, l, s), m, t)
    decreases |c|
  {
    hide Run, Remap, Pass, Boundary, Step, Chain, Anchored, LabelMap, Plain, Trimmed, RemapLabels, Matches;
    m, t := OnePassPreservesRuns(c, labels, env, l, s, n);
    PassShrinks(c);
    if Pass(c) != c {
      var p, q := ProgramOf(c, labels), ProgramOf(Pass(c), RemapLabels(c, labels));
      var k, once := m, t;
      PassKeepsChain(Nop, c);
      PassKeepsAnchors(c, labels);
      MatchedRuns(env, p, EnterAt(p, l, s), n, q, EnterAt(q, l, s), k, once);
      m, t := FixPreservesRuns(q.code, RemapLabels(c, labels), env, l, s, k);
      var r := ProgramOf(Fix(c, labels).0, Fix(c, labels).1);
      ChainEdgesOk(q.code);
      MatchTrans(env, p, EnterAt(p, l, s), n, q, EnterAt(q, l, s), k, once, r, EnterAt(r, l, s), m, t);
    }
  }

  /** `m` steps of q, to `to`, match `n` steps of p. */
  ghost predicate Matches(p: Program, env: Env, s: State, n: nat, q: Program, t: State, m: nat, to: State)
    requires Run(p, env, s, n).Some?
  {
    var end := Run(p, env, s, n).value;
    && m <= n && Run(q, env, t, m) == Some(to) && to.cpu.trace == end.cpu.trace
    && (end.pc.Exited? ==> to.pc == end.pc && SameCpu(end.cpu, to.cpu) && Shadowed(p, env, s, n, q, t, m))
  }

  lemma MatchedRuns(env: Env, p: Program, s: State, n: nat, q: Program, t: State, m: nat, to: State)
    requires Run(p, env, s, n).Some? && Matches(p, env, s, n, q, t, m, to)
    ensures Run(q, env, t, m).Some?
  {
  }

  lemma MatchTrans(
    env: Env, p: Program, s: State, n: nat, q: Program, t: State, m: nat, once: State, r: Program, u: State, k: nat,
    to: State)
    requires Run(p, env, s, n).Some? && Run(q, env, t, m).Some? && EdgesOk(q.code)
    requires Matches(p, env, s, n, q, t, m, once) && Matches(q, env, t, m, r, u, k, to)
    ensures Matches(p, env, s, n, r, u, k, to)
  {
    hide Run, SameCpu, Shadowed, EdgesOk;
    var end := Run(p, env, s, n).value;
    if end.pc.Exited? {
      SameCpuTrans(end.cpu, once.cpu, to.cpu);
      ShadowTrans(env, p, s, n, q, t, m, r, u, k);
    }
  }

  lemma OnePassPreservesRuns(c: seq<Instr>, labels: seq<LabelIndex>, env: Env, l: Label, s: Cpu, n: nat)
    returns (m: nat, t: State)
    requires Chain(Nop, c) && Anchored(c, labels) && l in LabelMap(labels)
    requires Plain(s) && Trimmed(s)
    requires Run(ProgramOf(c, labels), env, EnterAt(ProgramOf(c, labels), l, s), n).Some?
    ensures var p, q := ProgramOf(c, labels), ProgramOf(Pass(c), RemapLabels(c, labels));
            l in q.labels && Matches(p, env, EnterAt(p, l, s), n, q, EnterAt(q, l, s), m, t)
  {
    hide Run, Remap, Pass, Boundary, Step, Chain, Anchored, LabelMap, Shadowed, SameCpu, MapCpu;
    var p, start := ProgramOf(c, labels), EnterAt(ProgramOf(c, labels), l, s);
    ChainPairsAreDead(Nop, c);
    AnchoredLabelsOk(c, labels);
    LabelMapRemap(c, labels);
    PlainUnmoved(c, s);
    PlainPtrsOk(c, s);
    assert PassProgram(p) == ProgramOf(Pass(c), RemapLabels(c, labels));
    var k;
    k, m := PassPreservesRuns(p, env, start, n);
    var reached := Run(p, env, start, k).value;
    t := MapState(c, reached);
    MovedIsSame(c, reached.cpu);
    MovedTrace(c, reached.cpu);
  }

  lemma MovedTrace(c: seq<Instr>, s: Cpu)
    ensures MapCpu(Mover(c), s).trace == s.trace
  {
  }

  lemma PlainPtrsOk(c: seq<Instr>, s: Cpu)
    requires Plain(s)
    ensures PtrsOk(c, s)
  {
  }

  lemma PlainUnmoved(c: seq<Instr>, s: Cpu)
    requires Plain(s)
    ensures MapCpu(Mover(c), s) == s
  {
    var g := Mover(c);
    forall a | a in s.mem ensures MapVal(g, s.mem[a]) == s.mem[a] {}
    assert MapVals(g, s.mem) == s.mem;
    assert MapVals(g, s.regs) == s.regs;
  }

  /** The label table after the last pass is still anchored to the code, and holds the same labels. */
  lemma {:induction false} FixKeepsAnchors(c: seq<Instr>, labels: seq<LabelIndex>)
    requires Anchored(c, labels)
    ensures Anchored(Fix(c, labels).0, Fix(c, labels).1)
    ensures |Fix(c, labels).1| == |labels|
    ensures forall k :: 0 <= k < |labels| ==> Fix(c, labels).1[k].name == labels[k].name
    decreases |c|
  {
    PassKeepsAnchors(c, labels);
    PassShrinks(c);
    if Pass(c) != c { FixKeepsAnchors(Pass(c), RemapLabels(c, labels)); }
  }
}
