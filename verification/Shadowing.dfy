/**
 When one program's run goes only where another's goes: through the same machine states, and inside
 a function's frame only where the other is inside it too.
 */
module Shadowing {
  import opened Base
  import opened X86
  import opened Relocation

  // ----- frame edges -----

  /** The instructions around which rbp is not this function's frame base: first two, and ret. */
  predicate IsEdge(ins: Instr) {
    ins == Push(RBP) || ins == MovRmR(R(RBP), RSP) || ins == Ret
  }

  /**
   Edges while the optimiser is at work: of a frame set up and taken down with nothing in between it
   first leaves push rbp ; pop rbp, then mov rbp, rbp.
   */
  predicate Edge(code: seq<Instr>, i: nat)
    requires i < |code|
  {
    || IsEdge(code[i]) || code[i] == MovRmR(R(RBP), RBP)
    || (i > 0 && code[i] == Pop(RBP) && code[i - 1] == Push(RBP))
  }

  /** At an instruction away from the edges. */
  predicate Steady(code: seq<Instr>, pc: Pc) {
    pc.At? && pc.i < |code| && !Edge(code, pc.i)
  }

  /** What follows an edge is what the code generator puts there, or what a pass left of it. */
  predicate EdgeOk(code: seq<Instr>, i: nat) {
    i + 1 < |code| ==>
      && (code[i] == Push(RBP) && code[i + 1].Pop? ==> code[i + 1] == Pop(RBP))
      && (code[i] == MovRmR(R(RBP), RSP) && code[i + 1] == MovRmR(R(RSP), RBP) ==> i > 0 && code[i - 1] == Push(RBP))
  }

  predicate EdgesOk(code: seq<Instr>) {
    forall i: nat :: i < |code| ==> EdgeOk(code, i)
  }

  // ----- shadowing -----

  /** Where q is away from the edges, p is. */
  predicate SteadyAlike(p: Program, from: Pc, q: Program, to: Pc) {
    EdgesOk(p.code) && Steady(q.code, to) ==> Steady(p.code, from)
  }

  /** State `i` of q's run looks like some state of p's run of `n` steps. */
  ghost predicate Visited(p: Program, env: Env, s: State, n: nat, q: Program, t: State, i: nat) {
    Run(q, env, t, i).Some? && exists k: nat :: Looks(p, env, s, n, k, q, Run(q, env, t, i).value)
  }

  predicate Looks(p: Program, env: Env, s: State, n: nat, k: nat, q: Program, u: State) {
    && k <= n && Run(p, env, s, k).Some?
    && var v := Run(p, env, s, k).value;
       SameCpu(v.cpu, u.cpu) && SteadyAlike(p, v.pc, q, u.pc)
  }

  /** In `m` steps from `t`, q passes through no machine state that p does not pass through in `n` from `s`. */
  ghost predicate Shadowed(p: Program, env: Env, s: State, n: nat, q: Program, t: State, m: nat) {
    forall i: nat :: i <= m ==> Visited(p, env, s, n, q, t, i)
  }

  lemma ShadowTrans(env: Env, p: Program, s: State, n: nat, q: Program, t: State, m: nat, r: Program, u: State, k: nat)
    requires EdgesOk(q.code)
    requires Shadowed(p, env, s, n, q, t, m) && Shadowed(q, env, t, m, r, u, k)
    ensures Shadowed(p, env, s, n, r, u, k)
  {
    hide Run, SameCpu, EdgesOk, Steady;
    forall i: nat | i <= k ensures Visited(p, env, s, n, r, u, i) {
      assert Visited(q, env, t, m, r, u, i);
      var x := Run(r, env, u, i).value;
      var j: nat :| Looks(q, env, t, m, j, r, x);
      assert Visited(p, env, s, n, q, t, j);
      var y := Run(q, env, t, j).value;
      var o: nat :| Looks(p, env, s, n, o, q, y);
      SameCpuTrans(Run(p, env, s, o).value.cpu, y.cpu, x.cpu);
      assert Looks(p, env, s, n, o, r, x);
    }
  }

  /** Prefix both runs with a piece whose states are covered: at most one step of q. */
  lemma ShadowAfter(
    env: Env, p: Program, s: State, a: nat, s': State, n: nat, q: Program, t: State, b: nat, t': State, m: nat)
    requires Run(p, env, s, a) == Some(s') && Run(q, env, t, b) == Some(t') && b <= 1 && SameCpu(s.cpu, t.cpu)
    requires b == 1 ==> SteadyAlike(p, s.pc, q, t.pc)
    requires Shadowed(p, env, s', n, q, t', m)
    ensures Shadowed(p, env, s, a + n, q, t, b + m)
  {
    hide SameCpu, Step, SteadyAlike;
    var total, all := a + n, b + m;
    forall i: nat | i <= all ensures Visited(p, env, s, total, q, t, i) {
      if i < b {
        assert Run(q, env, t, 0) == Some(t) && Run(p, env, s, 0) == Some(s);
        assert Looks(p, env, s, total, 0, q, t);
      } else {
        assert Visited(p, env, s', n, q, t', i - b);
        RunCompose(q, env, t, b, t', i - b);
        var x := Run(q, env, t', i - b).value;
        var k: nat :| Looks(p, env, s', n, k, q, x);
        RunCompose(p, env, s, a, s', k);
        assert Looks(p, env, s, total, a + k, q, x);
      }
    }
  }

  lemma ShadowStart(env: Env, p: Program, s: State, q: Program, t: State)
    requires SameCpu(s.cpu, t.cpu) && SteadyAlike(p, s.pc, q, t.pc)
    ensures Shadowed(p, env, s, 0, q, t, 0)
  {
    hide SameCpu, Step, SteadyAlike;
    assert Run(q, env, t, 0) == Some(t) && Run(p, env, s, 0) == Some(s);
    assert Looks(p, env, s, 0, 0, q, t);
  }
}
