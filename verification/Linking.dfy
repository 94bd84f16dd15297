/**
 Compiled modules linked into one program.  Every import of a module is patched with the address of a
 function of the next one, and a call through a slot is an ordinary call: it pushes the return address
 and runs the next module's code on the same stack and registers.  The linked program does what the
 first module's semantics says when each module's external calls are answered by the semantics of the
 next; the last one's go outside.
 */
module Linking {
  import opened Base
  import opened X86
  import opened RawX86
  import opened Wasm
  import opened Relocation
  import opened PassSoundness
  import opened Streams
  import opened CodeGen
  import opened CodeSemantics
  import opened CallSimulation
  import opened Correctness
  import opened TypeLookup
  import opened EndToEnd
  import opened StackHeights
  import opened Hardware
  import opened Binder
  import opened Assembly
  import opened BoundCode
  import opened Linker
  import opened Serving

  // ----- link order -----

  /** Links one after the other: what is the library in one is the caller in the next, or the last module. */
  datatype Chain = Chain(links: seq<World>, last: Module, outside: Env)

  function ModuleAt(c: Chain, x: nat): Module
    requires x <= |c.links|
  {
    if x < |c.links| then c.links[x].caller else c.last
  }

  function EnvAt(c: Chain, x: nat): Env
    requires x <= |c.links|
  {
    if x < |c.links| then c.links[x].env else c.outside
  }

  predicate Compiles(c: Chain) {
    forall x :: 0 <= x <= |c.links| ==> Compilable(ModuleAt(c, x))
  }

  /** Link `x` and the next fit together. */
  ghost predicate Joined(c: Chain, x: nat)
    requires x < |c.links|
  {
    c.links[x].library == ModuleAt(c, x + 1) && c.links[x].outer == EnvAt(c, x + 1)
  }

  ghost predicate ChainOk(c: Chain) {
    && (forall x :: 0 <= x < |c.links| ==> WorldOk(c.links[x]) && Joined(c, x))
    && Compilable(c.last) && EnvOk(c.last, c.outside)
  }

  lemma ChainLink(c: Chain, x: nat)
    requires ChainOk(c) && x < |c.links|
    ensures WorldOk(c.links[x]) && c.links[x].caller == ModuleAt(c, x) && c.links[x].env == EnvAt(c, x)
    ensures c.links[x].library == ModuleAt(c, x + 1) && c.links[x].outer == EnvAt(c, x + 1)
  {
    assert Joined(c, x);
  }

  lemma ChainCompiles(c: Chain)
    requires ChainOk(c)
    ensures Compiles(c) && forall x :: 0 <= x <= |c.links| ==> EnvOk(ModuleAt(c, x), EnvAt(c, x))
  {
    forall x | 0 <= x <= |c.links| ensures Compilable(ModuleAt(c, x)) && EnvOk(ModuleAt(c, x), EnvAt(c, x)) {
      if x < |c.links| { WorldCompiles(c.links[x]); }
    }
  }

  function ProgramAt(c: Chain, x: nat): Program
    requires x <= |c.links| && Compiles(c)
  {
    ObjectProgram(ModuleAt(c, x))
  }

  /** All modules from `x` on can serve what follows from the calls that module makes. */
  predicate ServedFrom(c: Chain, x: nat, calls: seq<Event>)
    requires x <= |c.links|
    decreases |c.links| - x
  {
    x < |c.links| ==> Served(c.links[x], calls).Some? && ServedFrom(c, x + 1, Served(c.links[x], calls).value)
  }

  lemma {:induction false} ServedFromPrefix(c: Chain, x: nat, calls: seq<Event>, k: nat)
    requires x <= |c.links| && ServedFrom(c, x, calls) && k <= |calls|
    ensures ServedFrom(c, x, calls[..k])
    decreases |c.links| - x
  {
    if x < |c.links| {
      ServedPrefix(c.links[x], calls, k);
      var all, some := Served(c.links[x], calls).value, Served(c.links[x], calls[..k]).value;
      ServedGrows(c.links[x], calls, k);
      ServedFromPrefix(c, x + 1, all, |some|);
      assert all[..|some|] == some;
    }
  }

  /** Serving more calls only adds to the library's own. */
  lemma {:induction false} ServedGrows(w: World, calls: seq<Event>, k: nat)
    requires Served(w, calls).Some? && k <= |calls|
    ensures Served(w, calls[..k]).Some? && Served(w, calls[..k]).value <= Served(w, calls).value
    decreases |calls|
  {
    hide EvalFunc, Serve;
    if k == |calls| {
      assert calls[..k] == calls;
    } else {
      var init := calls[..|calls| - 1];
      ServedGrows(w, init, k);
      assert init[..k] == calls[..k];
      ServeGrows(w, Served(w, init).value, calls[|calls| - 1]);
    }
  }

  lemma ServeGrows(w: World, trace: seq<Event>, e: Event)
    requires Serve(w, trace, e).Some?
    ensures trace <= Serve(w, trace, e).value.trace
  {
    hide EvalFunc;
    TraceGrows(w.library, w.outer.oracle, w.target(e.f), e.args, trace, w.fuel);
  }

  lemma {:induction false} OpsTraceGrows(m: Module, oracle: Oracle, p: nat, ops: seq<Op>, c: Config, fuel: nat)
    requires EvalOps(m, oracle, p, ops, c, fuel).Done?
    ensures c.trace <= EvalOps(m, oracle, p, ops, c, fuel).value.trace
    decreases fuel, 0, |ops|
  {
    hide EvalFunc;
    if ops != [] {
      OpsTraceGrows(m, oracle, p, ops[..|ops| - 1], c, fuel);
      var d, op := EvalOps(m, oracle, p, ops[..|ops| - 1], c, fuel).value, ops[|ops| - 1];
      if op.Call? && ImportCount(m) <= op.f {
        var args := Arguments(d.stack, Resolved(m, op.f).value.params);
        TraceGrows(m, oracle, op.f - ImportCount(m), args, d.trace, fuel - 1);
      }
    }
  }

  lemma TraceGrows(m: Module, oracle: Oracle, j: nat, args: seq<int>, trace: seq<Event>, fuel: nat)
    requires EvalFunc(m, oracle, j, args, trace, fuel).Done?
    ensures trace <= EvalFunc(m, oracle, j, args, trace, fuel).value.trace
    decreases fuel, 1, 0
  {
    hide EvalOps;
    OpsTraceGrows(m, oracle, |args|, m.bodies[j].ops, Config(EntryFrame(args, |args|), [], trace, 0), fuel);
  }

  // ----- one address space -----

  /**
   In the linked program instruction i of module x is the address (x, i).  The module itself knows it as
   its instruction i; the change of view is its own inverse.
   */
  function Turn(x: nat): Pc -> Pc {
    (pc: Pc) => if pc.At? then Exited(x, pc.i) else if pc.unit == x then At(pc.to) else pc
  }

  lemma TurnTwice(x: nat, v: Val)
    ensures MapVal(Turn(x), MapVal(Turn(x), v)) == v
  {
  }

  lemma TurnInjective(x: nat, v: Val, u: Val)
    requires MapVal(Turn(x), v) == MapVal(Turn(x), u)
    ensures v == u
  {
    TurnTwice(x, v);
    TurnTwice(x, u);
  }

  /** The linked program's machine: one pc, one set of registers, one memory; `calls[x]` left module x. */
  datatype Joint = Joint(pc: Pc, regs: Reg -> Val, mem: int -> Val, calls: seq<seq<Event>>)

  /** As module `x` sees it. */
  function View(x: nat, j: Joint): Raw
    requires x < |j.calls|
  {
    Raw(Turn(x)(j.pc), (q: Reg) => MapVal(Turn(x), j.regs(q)), (a: int) => MapVal(Turn(x), j.mem(a)), j.calls[x])
  }

  /** What the machine is when module `x` sees `r`. */
  function Unview(x: nat, r: Raw, calls: seq<seq<Event>>): Joint
    requires x < |calls|
  {
    Joint(
      Turn(x)(r.pc), (q: Reg) => MapVal(Turn(x), r.regs(q)), (a: int) => MapVal(Turn(x), r.mem(a)),
      calls[x := r.trace])
  }

  lemma ViewUnview(x: nat, r: Raw, calls: seq<seq<Event>>)
    requires x < |calls|
    ensures SameLive(r, View(x, Unview(x, r, calls)))
  {
    var v := View(x, Unview(x, r, calls));
    forall q: Reg ensures v.regs(q) == r.regs(q) { TurnTwice(x, r.regs(q)); }
    forall a: int ensures v.mem(a) == r.mem(a) { TurnTwice(x, r.mem(a)); }
  }

  ghost predicate SameLive(e: Raw, t: Raw) {
    && t.pc == e.pc && t.trace == e.trace
    && (forall q: Reg :: t.regs(q) == e.regs(q))
    && (forall a: int :: Sp(e) <= a ==> t.mem(a) == e.mem(a))
  }

  /** Where a call through slot `f` of the link goes. */
  function LibraryEntry(w: World, f: nat): nat
    requires Compilable(w.library)
  {
    var p, l := ObjectProgram(w.library), BodyOf(ImportCount(w.library) + w.target(f));
    if l in p.labels then p.labels[l] else 0
  }

  predicate CallsOut(p: Program, r: Raw) {
    r.pc.At? && r.pc.i < |p.code| && p.code[r.pc.i].CallReg? && r.regs(p.code[r.pc.i].r).Import?
  }

  /** The call through a slot: push the return address, continue at the next module's function. */
  function Enter(c: Chain, x: nat, r: Raw): Raw
    requires x < |c.links| && Compiles(c) && Compilable(c.links[x].library) && CallsOut(ProgramAt(c, x), r)
  {
    var f := r.regs(ProgramAt(c, x).code[r.pc.i].r).f;
    PushRaw(r, Code(At(r.pc.i + 1))).(
      pc := Exited(x + 1, LibraryEntry(c.links[x], f)), trace := r.trace + [Event(f, RawArgs(r, EnvAt(c, x).arity(f)))])
  }

  ghost predicate Links(c: Chain) {
    Compiles(c) && forall x :: 0 <= x < |c.links| ==> Compilable(c.links[x].library)
  }

  lemma ChainLinks(c: Chain)
    requires ChainOk(c)
    ensures Links(c)
  {
    hide Compilable, EnvOk;
    ChainCompiles(c);
    forall x | 0 <= x < |c.links| ensures Compilable(c.links[x].library) { ChainLink(c, x); }
  }

  /** One step of the linked program, in the module where it is; memory below rsp may change at any time. */
  ghost predicate JointStep(c: Chain, junk: Reg -> Val, j: Joint, k: Joint)
    requires Links(c)
  {
    && |j.calls| == |k.calls| == |c.links| + 1 && j.pc.Exited? && j.pc.unit <= |c.links|
    && var x := j.pc.unit;
       && (forall y :: 0 <= y <= |c.links| && y != x ==> k.calls[y] == j.calls[y])
       && if x < |c.links| && CallsOut(ProgramAt(c, x), View(x, j))
          then SameLive(Enter(c, x, View(x, j)), View(x, k))
          else RawStep(ProgramAt(c, x), EnvAt(c, x), junk, View(x, j), View(x, k))
  }

  ghost predicate JointRun(c: Chain, path: seq<Joint>, junk: seq<Reg -> Val>)
    requires Links(c)
  {
    |path| == |junk| + 1 && forall i :: 0 <= i < |junk| ==> JointStep(c, junk[i], path[i], path[i + 1])
  }

  ghost predicate JointHasNext(c: Chain, junk: Reg -> Val, j: Joint)
    requires Links(c)
  {
    exists k :: JointStep(c, junk, j, k)
  }

  /** Not stuck, whatever external callees leave behind. */
  ghost predicate JointCanStep(c: Chain, j: Joint)
    requires Links(c)
  {
    forall junk: Reg -> Val :: JointHasNext(c, junk, j)
  }

  lemma JointSplit(c: Chain, path: seq<Joint>, junk: seq<Reg -> Val>, k: nat)
    requires Links(c) && JointRun(c, path, junk) && k <= |junk|
    ensures JointRun(c, path[..k + 1], junk[..k]) && JointRun(c, path[k..], junk[k..])
  {
    hide JointStep, Links;
    var rest, left := path[k..], junk[k..];
    forall i | 0 <= i < |left| ensures JointStep(c, left[i], rest[i], rest[i + 1]) {
      var at := k + i;
      assert JointStep(c, junk[at], path[at], path[at + 1]);
    }
    var front, first := path[..k + 1], junk[..k];
    forall i | 0 <= i < |first| ensures JointStep(c, first[i], front[i], front[i + 1]) {
      assert JointStep(c, junk[i], path[i], path[i + 1]);
    }
  }

  // ----- in step with one module -----

  /** Every module after `x` has made exactly the calls that serving the one before it takes. */
  predicate AllServed(c: Chain, x: nat, calls: seq<seq<Event>>) {
    |calls| == |c.links| + 1 && forall y :: x <= y < |c.links| ==> Served(c.links[y], calls[y]) == Some(calls[y + 1])
  }

  /** The linked program is in module `x`, agrees with its strict state, and all calls so far were served. */
  ghost predicate InStep(c: Chain, x: nat, s: State, j: Joint)
    requires x <= |c.links|
  {
    |j.calls| == |c.links| + 1 && Agree(s, View(x, j)) && AllServed(c, x, j.calls)
  }

  predicate SameBefore(x: nat, j: Joint, k: Joint) {
    |k.calls| == |j.calls| && forall y :: 0 <= y < x && y < |j.calls| ==> k.calls[y] == j.calls[y]
  }

  /** Every linked run from `s` goes on until it has made `n` steps, and then is at `t`. */
  ghost predicate LeadsTo(c: Chain, x: nat, s: State, n: nat, t: State)
    requires Links(c) && x <= |c.links|
  {
    forall path: seq<Joint>, junk: seq<Reg -> Val> {:trigger JointRun(c, path, junk)} ::
      JointRun(c, path, junk) && |junk| <= n && InStep(c, x, s, path[0]) ==>
        if |junk| < n then JointCanStep(c, path[|junk|])
        else InStep(c, x, t, path[n]) && SameBefore(x, path[0], path[n])
  }

  lemma LeadsOn(c: Chain, x: nat, s: State, k: nat, t: State, n: nat, u: State)
    requires Links(c) && x <= |c.links| && LeadsTo(c, x, s, k, t) && LeadsTo(c, x, t, n, u)
    ensures LeadsTo(c, x, s, k + n, u)
  {
    hide InStep, JointStep, JointCanStep, Links;
    forall path: seq<Joint>, junk: seq<Reg -> Val>
      | JointRun(c, path, junk) && |junk| <= k + n && InStep(c, x, s, path[0])
      ensures if |junk| < k + n then JointCanStep(c, path[|junk|])
              else InStep(c, x, u, path[k + n]) && SameBefore(x, path[0], path[k + n]) {
      if k <= |junk| {
        JointSplit(c, path, junk, k);
        assert path[..k + 1][k] == path[k] == path[k..][0] && path[..k + 1][0] == path[0];
        assert InStep(c, x, t, path[..k + 1][k]);
        assert path[k..][|junk| - k] == path[|junk|];
      }
    }
  }

  lemma StaysPut(c: Chain, x: nat, s: State)
    requires Links(c) && x <= |c.links|
    ensures LeadsTo(c, x, s, 0, s)
  {
    hide InStep, JointStep, Links;
  }

  lemma InModule(c: Chain, x: nat, s: State, j: Joint)
    requires x <= |c.links| && InStep(c, x, s, j) && s.pc.At?
    ensures j.pc == Exited(x, s.pc.i)
  {
    hide Served;
  }

  lemma StepIsInside(p: Program, env: Env, s: State)
    requires Step(p, env, s).Some?
    ensures s.pc.At? && s.pc.i < |p.code|
  {
  }

  lemma SameTrace(p: Program, env: Env, s: State)
    requires Step(p, env, s).Some? && !p.code[s.pc.i].CallReg?
    ensures Step(p, env, s).value.cpu.trace == s.cpu.trace
  {
  }

  /** Where the module's strict machine has a step, the linked machine has. */
  lemma ModuleCanStep(c: Chain, x: nat, s: State, j: Joint)
    requires Links(c) && x <= |c.links| && Step(ProgramAt(c, x), EnvAt(c, x), s).Some? && InStep(c, x, s, j)
    ensures JointCanStep(c, j)
  {
    hide ProgramAt, Compiles, Compilable, Step, NextRaw, View, Unview, Served;
    var p, v := ProgramAt(c, x), View(x, j);
    StepIsInside(p, EnvAt(c, x), s);
    InModule(c, x, s, j);
    forall junk: Reg -> Val ensures JointHasNext(c, junk, j) {
      if x < |c.links| && CallsOut(p, v) {
        var e := Enter(c, x, v);
        ViewUnview(x, e, j.calls);
        UnviewCalls(x, e, j.calls);
        assert JointStep(c, junk, j, Unview(x, e, j.calls));
      } else {
        NextAgrees(p, EnvAt(c, x), junk, s, v);
        var e := NextRaw(p, EnvAt(c, x), junk, v).value;
        ViewUnview(x, e, j.calls);
        UnviewCalls(x, e, j.calls);
        assert JointStep(c, junk, j, Unview(x, e, j.calls));
      }
    }
  }

  lemma UnviewCalls(x: nat, r: Raw, calls: seq<seq<Event>>)
    requires x < |calls|
    ensures Unview(x, r, calls).calls == calls[x := r.trace]
  {
  }

  /** Any instruction but a call into the next module. */
  lemma StepLeads(c: Chain, x: nat, s: State)
    requires Links(c) && x <= |c.links| && Step(ProgramAt(c, x), EnvAt(c, x), s).Some? && Trimmed(s.cpu)
    requires x == |c.links| || !ProgramAt(c, x).code[s.pc.i].CallReg?
    ensures LeadsTo(c, x, s, 1, Step(ProgramAt(c, x), EnvAt(c, x), s).value)
  {
    hide ProgramAt, Compiles, Compilable, RawStep, Step, Trimmed, View, Served, JointCanStep;
    var p, env := ProgramAt(c, x), EnvAt(c, x);
    var t := Step(p, env, s).value;
    StepIsInside(p, env, s);
    if !p.code[s.pc.i].CallReg? { SameTrace(p, env, s); }
    forall path: seq<Joint>, junk: seq<Reg -> Val> | JointRun(c, path, junk) && |junk| <= 1 && InStep(c, x, s, path[0])
      ensures if |junk| < 1 then JointCanStep(c, path[|junk|])
              else InStep(c, x, t, path[1]) && SameBefore(x, path[0], path[1]) {
      if junk == [] {
        ModuleCanStep(c, x, s, path[0]);
      } else {
        assert JointStep(c, junk[0], path[0], path[0 + 1]);
        InModule(c, x, s, path[0]);
        ViewCode(x, path[0]);
        ViewCode(x, path[1]);
        StepIsReal(p, env, junk[0], s, View(x, path[0]), View(x, path[1]));
      }
    }
  }

  lemma ViewCode(x: nat, j: Joint)
    requires x < |j.calls|
    ensures View(x, j).trace == j.calls[x]
  {
  }

  // ----- a call into the next module -----

  /** For a module and those before it, addresses of the modules after it are not to be had. */
  function Outer(c: Chain, x: nat): Pc -> Pc {
    (pc: Pc) => if pc.Exited? && x < pc.unit <= |c.links| then Exited(|c.links| + 1, 0) else pc
  }

  /** No register or stack word points into a module after `x`. */
  predicate Own(c: Chain, x: nat, s: Cpu) {
    MapCpu(Outer(c, x), s) == s
  }

  predicate OwnVal(c: Chain, x: nat, v: Val) {
    v.Code? && v.ret.Exited? ==> !(x < v.ret.unit <= |c.links|)
  }

  lemma OwnValues(c: Chain, x: nat, s: Cpu)
    ensures Own(c, x, s) <==>
            (forall r :: r in s.regs ==> OwnVal(c, x, s.regs[r])) && (forall a :: a in s.mem ==> OwnVal(c, x, s.mem[a]))
  {
    var g, t := Outer(c, x), MapCpu(Outer(c, x), s);
    if Own(c, x, s) {
      forall r | r in s.regs ensures OwnVal(c, x, s.regs[r]) { assert t.regs[r] == MapVal(g, s.regs[r]); }
      forall a | a in s.mem ensures OwnVal(c, x, s.mem[a]) { assert t.mem[a] == MapVal(g, s.mem[a]); }
    }
    if (forall r :: r in s.regs ==> OwnVal(c, x, s.regs[r])) && (forall a :: a in s.mem ==> OwnVal(c, x, s.mem[a])) {
      forall r | r in s.regs ensures MapVal(g, s.regs[r]) == s.regs[r] { assert OwnVal(c, x, s.regs[r]); }
      forall a | a in s.mem ensures MapVal(g, s.mem[a]) == s.mem[a] { assert OwnVal(c, x, s.mem[a]); }
      assert t.regs == s.regs && t.mem == s.mem;
    }
  }

  lemma StepKeepsOwn(c: Chain, x: nat, p: Program, env: Env, s: State)
    requires Step(p, env, s).Some? && Own(c, x, s.cpu)
    ensures Own(c, x, Step(p, env, s).value.cpu)
  {
    hide Step, MapCpu;
    StepFixed(Outer(c, x), p, env, s);
  }

  /** From module `x`'s view to the next one's. */
  function Hop(x: nat): Pc -> Pc {
    (pc: Pc) => Turn(x + 1)(Turn(x)(pc))
  }

  /** The strict state in which the next module is entered from a call at instruction `i` of module `x`. */
  function EnteredCpu(x: nat, s: Cpu, i: nat, calls: seq<Event>): Cpu
    requires HasWord(s, RSP)
  {
    var sp := WordOf(s, RSP) - 8;
    Cpu(MapVals(Hop(x), s.regs)[RSP := Word(sp)], MapVals(Hop(x), s.mem)[sp := Code(Exited(x, i + 1))], calls)
  }

  lemma EnteredOk(c: Chain, x: nat, env: Env, s: Cpu, i: nat, f: nat, calls: seq<Event>)
    requires x < |c.links| && Trimmed(s) && Own(c, x, s) && External(env, s, f).Some?
    ensures var t, sp, ret := EnteredCpu(x, s, i, calls), WordOf(s, RSP) - 8, Exited(x, i + 1);
            && Entered(t, sp, ret, ArgsOf(s, env.arity(f))) && Plain(t) && Trimmed(t) && t.trace == calls
            && Own(c, x + 1, t)
  {
    hide Hop;
    OwnValues(c, x, s);
    ArgRegsDistinct();
    WordsHop(x);
    var t := EnteredCpu(x, s, i, calls);
    forall k | 0 <= k < env.arity(f)
      ensures INTEGER_ORDER[k] in t.regs && t.regs[INTEGER_ORDER[k]] == Word(ArgsOf(s, env.arity(f))[k]) {
      assert HasWord(s, INTEGER_ORDER[k]);
    }
    forall r | r in t.regs ensures OwnVal(c, x + 1, t.regs[r]) && !(t.regs[r].Code? && t.regs[r].ret.At?) {
      if r != RSP { HopOwn(c, x, s.regs[r]); }
    }
    forall a | a in t.mem ensures OwnVal(c, x + 1, t.mem[a]) && !(t.mem[a].Code? && t.mem[a].ret.At?) {
      if a != WordOf(s, RSP) - 8 { HopOwn(c, x, s.mem[a]); }
    }
    OwnValues(c, x + 1, t);
  }

  lemma HopOwn(c: Chain, x: nat, v: Val)
    requires x < |c.links| && OwnVal(c, x, v)
    ensures var u := MapVal(Hop(x), v); OwnVal(c, x + 1, u) && !(u.Code? && u.ret.At?)
  {
    if v.Code? {
      var w := Turn(x)(v.ret);
      assert w.Exited? ==> w.unit != x + 1;
      assert Hop(x)(v.ret) == Turn(x + 1)(w);
    }
  }

  lemma Rehop(x: nat, v: Val, u: Val)
    requires MapVal(Turn(x), v) == u
    ensures MapVal(Turn(x + 1), v) == MapVal(Hop(x), u)
  {
    TurnTwice(x, v);
  }

  /** After the pushed call the next module sees a state that agrees with it. */
  lemma EntryAgrees(x: nat, s: Cpu, i: nat, j: Joint, k: Joint, entry: nat)
    requires x + 1 < |j.calls| == |k.calls| && k.calls[x + 1] == j.calls[x + 1]
    requires Agree(State(At(i), s), View(x, j)) && HasWord(s, RSP) && Trimmed(s)
    requires var pushed, v := PushRaw(View(x, j), Code(At(i + 1))), View(x, k);
             && v.pc == Exited(x + 1, entry) && (forall q: Reg :: v.regs(q) == pushed.regs(q))
             && (forall a: int :: WordOf(s, RSP) - 8 <= a ==> v.mem(a) == pushed.mem(a))
    ensures Agree(State(At(entry), EnteredCpu(x, s, i, j.calls[x + 1])), View(x + 1, k))
  {
    hide Turn, Hop;
    var t, v, u := EnteredCpu(x, s, i, j.calls[x + 1]), View(x, k), View(x + 1, k);
    PcHops(x, k.pc, entry);
    ReturnHops(x, i + 1);
    forall q | q in t.regs ensures u.regs(q) == t.regs[q] { Rehop(x, k.regs(q), v.regs(q)); }
    forall a | a in t.mem ensures u.mem(a) == t.mem[a] { Rehop(x, k.mem(a), v.mem(a)); }
  }

  lemma PcHops(x: nat, pc: Pc, entry: nat)
    requires Turn(x)(pc) == Exited(x + 1, entry)
    ensures Turn(x + 1)(pc) == At(entry)
  {
  }

  lemma ReturnHops(x: nat, i: nat)
    ensures MapVal(Hop(x), Code(At(i))) == Code(Exited(x, i))
    ensures forall w :: MapVal(Hop(x), Word(w)) == Word(w)
  {
    assert Turn(x)(At(i)) == Exited(x, i);
    assert Turn(x + 1)(Exited(x, i)) == Exited(x, i);
    assert Hop(x)(At(i)) == Exited(x, i);
  }

  /** And after the return the calling module sees what its semantics promised of an external call. */
  lemma ReturnAgrees(x: nat, env: Env, s: Cpu, i: nat, f: nat, t: Cpu, a: Answer, k: Joint, calls: seq<Event>)
    requires x + 1 < |k.calls| && Trimmed(s) && External(env, s, f).Some?
    requires Returned(EnteredCpu(x, s, i, calls), t, WordOf(s, RSP) - 8, a) && 0 !in a.frame
    requires |a.results| == Carried(env.answers(f))
    requires var (rax, rdx) := env.oracle(External(env, s, f).value.trace);
             (|a.results| >= 1 ==> rax == a.results[0]) && (|a.results| >= 2 ==> rdx == a.results[1])
    requires Agree(State(Exited(x, i + 1), t), View(x + 1, k)) && k.calls[x] == External(env, s, f).value.trace
    ensures Agree(State(At(i + 1), External(env, s, f).value), View(x, k)) && k.calls[x + 1] == a.trace
  {
    hide Hop, Answering;
    ReturnedRegs(x, env, s, i, f, t, a, k, calls);
    BackHops(x, k.pc, i + 1);
    var e := External(env, s, f).value;
    forall addr | addr in e.mem ensures View(x, k).mem(addr) == e.mem[addr] {
      assert addr in t.mem && t.mem[addr] == MapVal(Hop(x), s.mem[addr]);
      Unhop(x, k.mem(addr), s.mem[addr]);
    }
  }

  lemma BackHops(x: nat, pc: Pc, i: nat)
    requires Turn(x + 1)(pc) == Exited(x, i)
    ensures Turn(x)(pc) == At(i)
  {
  }

  lemma Unhop(x: nat, v: Val, u: Val)
    requires MapVal(Turn(x + 1), v) == MapVal(Hop(x), u)
    ensures MapVal(Turn(x), v) == u
  {
    var w := MapVal(Turn(x), u);
    assert MapVal(Hop(x), u) == MapVal(Turn(x + 1), w);
    TurnInjective(x + 1, v, w);
    TurnTwice(x, u);
  }

  lemma ReturnedRegs(x: nat, env: Env, s: Cpu, i: nat, f: nat, t: Cpu, a: Answer, k: Joint, calls: seq<Event>)
    requires x + 1 < |k.calls| && Trimmed(s) && External(env, s, f).Some?
    requires Returned(EnteredCpu(x, s, i, calls), t, WordOf(s, RSP) - 8, a) && 0 !in a.frame
    requires |a.results| == Carried(env.answers(f))
    requires var (rax, rdx) := env.oracle(External(env, s, f).value.trace);
             (|a.results| >= 1 ==> rax == a.results[0]) && (|a.results| >= 2 ==> rdx == a.results[1])
    requires Agree(State(Exited(x, i + 1), t), View(x + 1, k))
    ensures forall q :: q in External(env, s, f).value.regs ==> View(x, k).regs(q) == External(env, s, f).value.regs[q]
  {
    hide Hop, Turn;
    var e, v := External(env, s, f).value, View(x + 1, k);
    WordsHop(x);
    forall q | q in e.regs ensures View(x, k).regs(q) == e.regs[q] {
      assert v.regs(q) == MapVal(Turn(x + 1), k.regs(q)) && MapVal(Hop(x), e.regs[q]) == v.regs(q);
      Unhop(x, k.regs(q), e.regs[q]);
    }
  }

  lemma WordsHop(x: nat)
    ensures forall w :: MapVal(Hop(x), Word(w)) == Word(w)
  {
  }

  /** What serving one more call means. */
  ghost predicate ServesNow(w: World, s: Cpu, f: nat, library: seq<Event>, a: Answer)
    requires External(w.env, s, f).Some?
  {
    var e := External(w.env, s, f).value;
    && Served(w, s.trace) == Some(library) && Served(w, e.trace) == Some(a.trace)
    && EvalFunc(w.library, w.outer.oracle, w.target(f), ArgsOf(s, w.env.arity(f)), library, w.fuel) == Done(a)
    && 0 !in a.frame && a.need <= w.headroom && |a.results| == Carried(w.env.answers(f))
    && var (rax, rdx) := w.env.oracle(e.trace);
       (|a.results| >= 1 ==> rax == a.results[0]) && (|a.results| >= 2 ==> rdx == a.results[1])
  }

  lemma ExternalNeeds(env: Env, s: Cpu, f: nat)
    requires External(env, s, f).Some?
    ensures HasWord(s, RSP) && ArgsReady(s, env.arity(f)) && env.floor <= WordOf(s, RSP) - 8
  {
  }

  lemma CallServed(w: World, s: Cpu, f: nat) returns (a: Answer, library: seq<Event>)
    requires WorldOk(w) && External(w.env, s, f).Some? && Served(w, External(w.env, s, f).value.trace).Some?
    ensures ServesNow(w, s, f, library, a)
  {
    hide EvalFunc, Compilable, EnvOk;
    var e := External(w.env, s, f).value;
    assert e.trace[..|e.trace| - 1] == s.trace;
    library := Served(w, s.trace).value;
    a := Serve(w, library, e.trace[|e.trace| - 1]).value;
    assert AnsweredByLibrary(w, e.trace);
  }

  lemma CallEnters(c: Chain, x: nat, s: Cpu, i: nat, f: nat, junk: Reg -> Val, j: Joint, k: Joint)
    requires Links(c) && x < |c.links| && Trimmed(s)
    requires Step(ProgramAt(c, x), EnvAt(c, x), State(At(i), s)).Some?
    requires ProgramAt(c, x).code[i].CallReg? && s.regs[ProgramAt(c, x).code[i].r] == Import(f)
    requires InStep(c, x, State(At(i), s), j) && JointStep(c, junk, j, k)
    ensures k.calls == j.calls[x := External(EnvAt(c, x), s, f).value.trace]
    ensures Agree(State(At(LibraryEntry(c.links[x], f)), EnteredCpu(x, s, i, j.calls[x + 1])), View(x + 1, k))
  {
    hide ProgramAt, Compiles, Compilable, EnteredCpu, View, LibraryEntry, Served;
    InModule(c, x, State(At(i), s), j);
    ViewCode(x, j);
    ViewCode(x, k);
    assert RawArgs(View(x, j), EnvAt(c, x).arity(f)) == ArgsOf(s, EnvAt(c, x).arity(f));
    EntryAgrees(x, s, i, j, k, LibraryEntry(c.links[x], f));
  }

  /** A call that was served: the next module's code runs and comes back with the answer. */
  lemma CallReturns(
    c: Chain, x: nat, s: Cpu, i: nat, f: nat, a: Answer, calls: seq<Event>, n: nat, t: Cpu, path: seq<Joint>,
    junk: seq<Reg -> Val>)
    requires Links(c) && x < |c.links| && c.links[x].env == EnvAt(c, x) && Trimmed(s)
    requires JointRun(c, path, junk) && |junk| <= 1 + n
    requires Step(ProgramAt(c, x), EnvAt(c, x), State(At(i), s)).Some?
    requires ProgramAt(c, x).code[i].CallReg? && s.regs[ProgramAt(c, x).code[i].r] == Import(f)
    requires External(EnvAt(c, x), s, f).Some? && ServesNow(c.links[x], s, f, calls, a)
    requires var start := State(At(LibraryEntry(c.links[x], f)), EnteredCpu(x, s, i, calls));
             LeadsTo(c, x + 1, start, n, State(Exited(x, i + 1), t))
    requires Returned(EnteredCpu(x, s, i, calls), t, WordOf(s, RSP) - 8, a)
    requires InStep(c, x, State(At(i), s), path[0])
    ensures if |junk| < 1 + n then JointCanStep(c, path[|junk|])
            else InStep(c, x, State(At(i + 1), External(EnvAt(c, x), s, f).value), path[1 + n])
                 && SameBefore(x, path[0], path[1 + n])
  {
    hide ProgramAt, Compiles, Compilable, EnteredCpu, LibraryEntry, Returned, External, Step, Agree, JointStep,
         EvalFunc,
         Served, JointCanStep, View;
    if junk == [] {
      ModuleCanStep(c, x, State(At(i), s), path[0]);
    } else {
      var start := State(At(LibraryEntry(c.links[x], f)), EnteredCpu(x, s, i, calls));
      assert JointStep(c, junk[0], path[0], path[0 + 1]);
      ViewTrace(x, State(At(i), s), path[0]);
      CallEnters(c, x, s, i, f, junk[0], path[0], path[1]);
      JointSplit(c, path, junk, 1);
      assert InStep(c, x + 1, start, path[1..][0]);
      assert path[1..][|junk| - 1] == path[|junk|];
      if |junk| == 1 + n {
        var end := path[1 + n];
        assert InStep(c, x + 1, State(Exited(x, i + 1), t), end) && SameBefore(x + 1, path[1], end);
        ReturnAgrees(x, EnvAt(c, x), s, i, f, t, a, end, calls);
        StillServed(c, x, end.calls);
      }
    }
  }

  lemma ViewTrace(x: nat, s: State, j: Joint)
    requires x < |j.calls| && Agree(s, View(x, j))
    ensures j.calls[x] == s.cpu.trace
  {
  }

  lemma StillServed(c: Chain, x: nat, calls: seq<seq<Event>>)
    requires x < |c.links| && AllServed(c, x + 1, calls) && Served(c.links[x], calls[x]) == Some(calls[x + 1])
    ensures AllServed(c, x, calls)
  {
    hide Served;
  }

  /** A call through a slot. */
  lemma CallLeads(c: Chain, x: nat, size: Instr -> nat, s: State) returns (n: nat)
    requires ChainOk(c) && x < |c.links| && SizesOk(size) && Links(c)
    requires Step(ProgramAt(c, x), EnvAt(c, x), s).Some? && Trimmed(s.cpu) && Own(c, x, s.cpu)
    requires ProgramAt(c, x).code[s.pc.i].CallReg?
    requires ServedFrom(c, x, Step(ProgramAt(c, x), EnvAt(c, x), s).value.cpu.trace)
    ensures LeadsTo(c, x, s, n, Step(ProgramAt(c, x), EnvAt(c, x), s).value)
    decreases |c.links| - x, 1
  {
    hide ProgramAt, Compiles, Compilable, Returned, External, Trimmed, Own, EnteredCpu, EvalFunc, JointStep,
         JointCanStep,
         InStep, Served, Serve, SizesOk, ChainOk, LibraryEntry, ServedFrom, LeadsTo;
    var f, a, calls, k, t := CallRuns(c, x, size, s);
    n := 1 + k;
    CallComesBack(c, x, s, f, a, calls, k, t);
  }

  lemma CallComesBack(c: Chain, x: nat, s: State, f: nat, a: Answer, calls: seq<Event>, k: nat, t: Cpu)
    requires x < |c.links| && Links(c) && s.pc.At? && Trimmed(s.cpu)
    requires Step(ProgramAt(c, x), EnvAt(c, x), s).Some? && CallRan(c, x, s.cpu, s.pc.i, f, a, calls, k, t)
    ensures LeadsTo(c, x, s, 1 + k, Step(ProgramAt(c, x), EnvAt(c, x), s).value)
  {
    hide ProgramAt, Compiles, Compilable, Returned, External, Trimmed, EnteredCpu, JointStep, JointCanStep, InStep,
         LibraryEntry, ServesNow;
    var n, end := 1 + k, Step(ProgramAt(c, x), EnvAt(c, x), s).value;
    forall path: seq<Joint>, junk: seq<Reg -> Val> | JointRun(c, path, junk) && |junk| <= n && InStep(c, x, s, path[0])
      ensures if |junk| < n then JointCanStep(c, path[|junk|])
              else InStep(c, x, end, path[n]) && SameBefore(x, path[0], path[n]) {
      CallReturns(c, x, s.cpu, s.pc.i, f, a, calls, k, t, path, junk);
    }
  }

  /** What is known of the call at `i` once the next module's part has run. */
  ghost predicate CallRan(c: Chain, x: nat, s: Cpu, i: nat, f: nat, a: Answer, calls: seq<Event>, k: nat, t: Cpu)
    requires x < |c.links| && Links(c)
  {
    && i < |ProgramAt(c, x).code| && ProgramAt(c, x).code[i].CallReg?
    && ProgramAt(c, x).code[i].r in s.regs && s.regs[ProgramAt(c, x).code[i].r] == Import(f)
    && c.links[x].env == EnvAt(c, x) && External(EnvAt(c, x), s, f).Some? && ServesNow(c.links[x], s, f, calls, a)
    && HasWord(s, RSP)
    && var start := State(At(LibraryEntry(c.links[x], f)), EnteredCpu(x, s, i, calls));
       LeadsTo(c, x + 1, start, k, State(Exited(x, i + 1), t))
       && Returned(EnteredCpu(x, s, i, calls), t, WordOf(s, RSP) - 8, a)
  }

  lemma CallRuns(c: Chain, x: nat, size: Instr -> nat, s: State)
    returns (f: nat, a: Answer, calls: seq<Event>, k: nat, t: Cpu)
    requires ChainOk(c) && x < |c.links| && SizesOk(size) && Links(c)
    requires Step(ProgramAt(c, x), EnvAt(c, x), s).Some? && Trimmed(s.cpu) && Own(c, x, s.cpu)
    requires ProgramAt(c, x).code[s.pc.i].CallReg?
    requires ServedFrom(c, x, Step(ProgramAt(c, x), EnvAt(c, x), s).value.cpu.trace)
    ensures CallRan(c, x, s.cpu, s.pc.i, f, a, calls, k, t)
    decreases |c.links| - x, 0
  {
    hide ProgramAt, WorldOk, Compiles, Compilable, Returned, External, Trimmed, Own, EnteredCpu, EvalFunc, Run, Served,
         Serve, SizesOk, ChainOk, EnvOk, LeadsTo, LibraryEntry, ServesNow, ObjectProgram, ServedFrom, CallRan;
    ChainLink(c, x);
    var w, p, i, cpu := c.links[x], ProgramAt(c, x), s.pc.i, s.cpu;
    f := cpu.regs[p.code[i].r].f;
    ExternalNeeds(w.env, cpu, f);
    ServedHere(c, x, External(w.env, cpu, f).value.trace);
    a, calls := CallServed(w, cpu, f);
    ServedNext(c, x, cpu, f, calls, a);
    var steps;
    steps, t := CalleeRuns(c, x, size, cpu, i, f, a, calls);
    NextProgram(c, x);
    k := RunLeads(c, x + 1, size, State(At(LibraryEntry(w, f)), EnteredCpu(x, cpu, i, calls)), steps);
    CallRanIs(c, x, cpu, i, f, a, calls, k, t);
  }

  lemma CallRanIs(c: Chain, x: nat, s: Cpu, i: nat, f: nat, a: Answer, calls: seq<Event>, k: nat, t: Cpu)
    requires x < |c.links| && Links(c) && c.links[x].env == EnvAt(c, x) && HasWord(s, RSP)
    requires i < |ProgramAt(c, x).code| && ProgramAt(c, x).code[i].CallReg?
    requires ProgramAt(c, x).code[i].r in s.regs && s.regs[ProgramAt(c, x).code[i].r] == Import(f)
    requires External(EnvAt(c, x), s, f).Some? && ServesNow(c.links[x], s, f, calls, a)
    requires var start := State(At(LibraryEntry(c.links[x], f)), EnteredCpu(x, s, i, calls));
             LeadsTo(c, x + 1, start, k, State(Exited(x, i + 1), t))
    requires Returned(EnteredCpu(x, s, i, calls), t, WordOf(s, RSP) - 8, a)
    ensures CallRan(c, x, s, i, f, a, calls, k, t)
  {
    hide ProgramAt, Compiles, Compilable, EnvAt, External, ServesNow, LibraryEntry, EnteredCpu, LeadsTo, Returned;
  }

  lemma ServedHere(c: Chain, x: nat, calls: seq<Event>)
    requires x < |c.links| && ServedFrom(c, x, calls)
    ensures Served(c.links[x], calls).Some?
  {
    hide Served;
  }

  lemma ServedNext(c: Chain, x: nat, s: Cpu, f: nat, calls: seq<Event>, a: Answer)
    requires x < |c.links| && c.links[x].env == EnvAt(c, x) && External(EnvAt(c, x), s, f).Some?
    requires ServesNow(c.links[x], s, f, calls, a) && ServedFrom(c, x, External(EnvAt(c, x), s, f).value.trace)
    ensures ServedFrom(c, x + 1, a.trace)
  {
    hide Served, EvalFunc, External;
  }

  /** The function of the next module, on its strict machine. */
  lemma CalleeRuns(c: Chain, x: nat, size: Instr -> nat, s: Cpu, i: nat, f: nat, a: Answer, calls: seq<Event>)
    returns (steps: nat, t: Cpu)
    requires x < |c.links| && WorldOk(c.links[x]) && SizesOk(size) && Trimmed(s) && Own(c, x, s)
    requires External(c.links[x].env, s, f).Some? && ServesNow(c.links[x], s, f, calls, a)
    ensures Compilable(c.links[x].library) && HasWord(s, RSP)
    ensures var w, inner := c.links[x], EnteredCpu(x, s, i, calls);
            && Run(ObjectProgram(w.library), w.outer, State(At(LibraryEntry(w, f)), inner), steps)
                 == Some(State(Exited(x, i + 1), t))
            && Returned(inner, t, WordOf(s, RSP) - 8, a) && t.trace == a.trace
            && Trimmed(inner) && Own(c, x + 1, inner)
  {
    hide ObjectProgram, WorldOk, Compilable, EntryIsRecorded, Entered, Plain, Returned, External, Trimmed, Own,
         EnteredCpu,
         EvalFunc, Run, Served, SizesOk, EnvOk;
    var w := c.links[x];
    WorldCompiles(w);
    ExternalNeeds(w.env, s, f);
    EnteredOk(c, x, w.env, s, i, f, calls);
    var inner, sp := EnteredCpu(x, s, i, calls), WordOf(s, RSP) - 8;
    steps, t := ObjectCodeIsCorrect(
      w.library, size, w.outer, w.target(f), ArgsOf(s, w.env.arity(f)), inner, sp, Exited(x, i + 1), w.fuel);
    SameCalls(inner, t, sp, a);
  }

  lemma NextProgram(c: Chain, x: nat)
    requires ChainOk(c) && x < |c.links| && Links(c)
    ensures ProgramAt(c, x + 1) == ObjectProgram(c.links[x].library) && EnvAt(c, x + 1) == c.links[x].outer
  {
    ChainLink(c, x);
  }

  lemma {:induction false} CallsGrow(p: Program, env: Env, s: State, n: nat)
    requires Run(p, env, s, n).Some?
    ensures s.cpu.trace <= Run(p, env, s, n).value.cpu.trace
    decreases n
  {
    hide Step;
    if n > 0 {
      CallAdded(p, env, s);
      CallsGrow(p, env, Step(p, env, s).value, n - 1);
    }
  }

  lemma CallAdded(p: Program, env: Env, s: State)
    requires Step(p, env, s).Some?
    ensures s.cpu.trace <= Step(p, env, s).value.cpu.trace
  {
  }

  /** A strict run of module `x` whose external calls are served is every linked run. */
  lemma {:induction false} RunLeads(c: Chain, x: nat, size: Instr -> nat, s: State, steps: nat) returns (n: nat)
    requires ChainOk(c) && x <= |c.links| && SizesOk(size) && Links(c) && Trimmed(s.cpu) && Own(c, x, s.cpu)
    requires Run(ProgramAt(c, x), EnvAt(c, x), s, steps).Some?
    requires ServedFrom(c, x, Run(ProgramAt(c, x), EnvAt(c, x), s, steps).value.cpu.trace)
    ensures LeadsTo(c, x, s, n, Run(ProgramAt(c, x), EnvAt(c, x), s, steps).value)
    decreases |c.links| - x, 2 + steps
  {
    hide ProgramAt, ChainOk, Compiles, Compilable, SizesOk, Trimmed, Own, Step, LeadsTo, ServedFrom;
    var p, env := ProgramAt(c, x), EnvAt(c, x);
    n := 0;
    if steps == 0 {
      StaysPut(c, x, s);
    } else {
      var t, u := Step(p, env, s).value, Run(p, env, s, steps).value;
      StepIsInside(p, env, s);
      CallsGrow(p, env, t, steps - 1);
      ServedFromPrefix(c, x, u.cpu.trace, |t.cpu.trace|);
      assert u.cpu.trace[..|t.cpu.trace|] == t.cpu.trace;
      var k := 1;
      if x < |c.links| && p.code[s.pc.i].CallReg? { k := CallLeads(c, x, size, s); } else { StepLeads(c, x, s); }
      StepTrims(p, env, s);
      StepKeepsOwn(c, x, p, env, s);
      n := RunLeads(c, x, size, t, steps - 1);
      LeadsOn(c, x, s, k, t, n, u);
      n := k + n;
    }
  }

  // ----- linked programs -----

  /** Back outside with the answer, each module having made exactly its own semantics' calls. */
  ghost predicate Arrived(c: Chain, s: Cpu, sp: int, ret: Pc, a: Answer, j: Joint)
    requires RBP in s.regs
  {
    |j.calls| > 0 && SeesAnswer(s, sp, ret, a, View(0, j)) && AllServed(c, 0, j.calls)
  }

  /**
   Every linked run that enters the first module's function `j` in `s` goes on until it has made `n`
   steps, and then has returned with `a`.
   */
  ghost predicate LinkedAnswer(c: Chain, j: nat, s: Cpu, sp: int, ret: Pc, a: Answer, n: nat)
    requires Links(c) && RBP in s.regs
  {
    var p, l := ProgramAt(c, 0), BodyOf(ImportCount(ModuleAt(c, 0)) + j);
    && l in p.labels
    && forall path: seq<Joint>, junk: seq<Reg -> Val> {:trigger JointRun(c, path, junk)} ::
         JointRun(c, path, junk) && |junk| <= n && InStep(c, 0, EnterAt(p, l, s), path[0]) ==>
           if |junk| < n then JointCanStep(c, path[|junk|]) else Arrived(c, s, sp, ret, a, path[n])
  }

  /** What the first module's semantics makes of a call. */
  function FirstAnswer(c: Chain, j: nat, args: seq<int>, trace: seq<Event>, fuel: nat): Outcome<Answer> {
    EvalFunc(ModuleAt(c, 0), EnvAt(c, 0).oracle, j, args, trace, fuel)
  }

  /**
   Linking.  Whenever the first module's semantics, with the next module's answers to its external
   calls, and so on down the link order, gives an answer, there is a number of steps that every run of
   the linked program makes, and after them it has returned with that answer.
   */
  lemma LinkedProgramReturns(
    c: Chain, size: Instr -> nat, j: nat, args: seq<int>, s: Cpu, sp: int, ret: Pc, fuel: nat)
    returns (n: nat)
    requires ChainOk(c) && SizesOk(size) && FirstAnswer(c, j, args, s.trace, fuel).Done?
    requires ServedFrom(c, 0, FirstAnswer(c, j, args, s.trace, fuel).value.trace)
    requires Entered(s, sp, ret, args) && ret.Exited? && Plain(s) && Own(c, 0, s)
    requires EnvAt(c, 0).floor <= sp - FirstAnswer(c, j, args, s.trace, fuel).value.need
    ensures Links(c) && RBP in s.regs
    ensures LinkedAnswer(c, j, s, sp, ret, FirstAnswer(c, j, args, s.trace, fuel).value, n)
  {
    hide ProgramAt, SizesOk, Own, LeadsTo, ServedFrom, FirstAnswer, Run, Returned, Plain, LinkedAnswer, ChainOk,
         Compiles,
         Compilable, EnvAt;
    ChainLinks(c);
    var a := FirstAnswer(c, j, args, s.trace, fuel).value;
    var steps, t := FirstRuns(c, size, j, args, s, sp, ret, fuel);
    var start := EnterAt(ProgramAt(c, 0), BodyOf(ImportCount(ModuleAt(c, 0)) + j), s);
    n := RunLeads(c, 0, size, start, steps);
    AnswerArrives(c, j, s, t, sp, ret, a, n);
  }

  /** The first module on its strict machine. */
  lemma FirstRuns(c: Chain, size: Instr -> nat, j: nat, args: seq<int>, s: Cpu, sp: int, ret: Pc, fuel: nat)
    returns (steps: nat, t: Cpu)
    requires ChainOk(c) && SizesOk(size) && Links(c) && FirstAnswer(c, j, args, s.trace, fuel).Done?
    requires Entered(s, sp, ret, args) && ret.Exited? && Plain(s)
    requires EnvAt(c, 0).floor <= sp - FirstAnswer(c, j, args, s.trace, fuel).value.need
    ensures var p, l := ProgramAt(c, 0), BodyOf(ImportCount(ModuleAt(c, 0)) + j);
            l in p.labels && Run(p, EnvAt(c, 0), EnterAt(p, l, s), steps) == Some(State(ret, t))
    ensures var a := FirstAnswer(c, j, args, s.trace, fuel).value; Returned(s, t, sp, a) && t.trace == a.trace
  {
    hide ProgramAt, ObjectProgram, SizesOk, EvalFunc, Run, Returned, EntryIsRecorded, Plain, ChainOk, Links, ModuleAt,
         EnvAt, EnvOk, Entered;
    ChainCompiles(c);
    var m, env := ModuleAt(c, 0), EnvAt(c, 0);
    steps, t := ObjectCodeIsCorrect(m, size, env, j, args, s, sp, ret, fuel);
    SameCalls(s, t, sp, EvalFunc(m, env.oracle, j, args, s.trace, fuel).value);
    FirstProgram(c);
  }

  lemma FirstProgram(c: Chain)
    requires Links(c)
    ensures ProgramAt(c, 0) == ObjectProgram(ModuleAt(c, 0))
  {
  }

  lemma SameCalls(s: Cpu, t: Cpu, sp: int, a: Answer)
    requires Returned(s, t, sp, a)
    ensures t.trace == a.trace && RBP in s.regs
  {
  }

  lemma AnswerArrives(c: Chain, j: nat, s: Cpu, t: Cpu, sp: int, ret: Pc, a: Answer, n: nat)
    requires Links(c) && Returned(s, t, sp, a)
    requires BodyOf(ImportCount(ModuleAt(c, 0)) + j) in ProgramAt(c, 0).labels
    requires var start := EnterAt(ProgramAt(c, 0), BodyOf(ImportCount(ModuleAt(c, 0)) + j), s);
             LeadsTo(c, 0, start, n, State(ret, t))
    ensures RBP in s.regs && LinkedAnswer(c, j, s, sp, ret, a, n)
  {
    hide ProgramAt, Compiles, Compilable, AllServed, Agree, JointStep, SeesAnswer, JointCanStep, View;
    var p, l := ProgramAt(c, 0), BodyOf(ImportCount(ModuleAt(c, 0)) + j);
    forall path: seq<Joint>, junk: seq<Reg -> Val>
      | JointRun(c, path, junk) && |junk| <= n && InStep(c, 0, EnterAt(p, l, s), path[0])
      ensures if |junk| < n then JointCanStep(c, path[|junk|])
              else Arrived(c, s, sp, ret, a, path[n]) {
      if |junk| == n {
        assert InStep(c, 0, State(ret, t), path[n]);
        AnswerSeen(s, t, sp, ret, a, View(0, path[n]));
      }
    }
  }

  // ----- linked programs that always return -----

  /** The libraries of all links are safe, without recursion, and have a frame of stack per level of calls. */
  ghost predicate SafeLinks(c: Chain, ranks: seq<nat -> nat>, bytes: nat)
    requires |ranks| == |c.links|
  {
    forall x :: 0 <= x < |c.links| ==> SafeLink(c.links[x], ranks[x], bytes)
  }

  ghost predicate SafeLink(w: World, rank: nat -> nat, bytes: nat) {
    && Safe(w.library) && Ranked(w.library, rank) && TypesAgree(w.library) && FramesFit(w.library, bytes)
    && (forall j :: 0 <= j < |w.library.bodies| ==> rank(j) <= w.fuel) && (w.fuel + 1) * bytes <= w.headroom
    && LinkedByType(w) && w.start == []
  }

  /** What a library does for calls of the right types has the right types for the next. */
  lemma {:induction false} ServedFit(w: World, v: World, calls: seq<Event>)
    requires v.caller == w.library && v.env == w.outer && w.start == []
    requires Compilable(v.library) && LinkedByType(v) && EnvOk(v.caller, v.env)
    requires Served(w, calls).Some?
    ensures AllFit(v, Served(w, calls).value)
    decreases |calls|
  {
    hide EvalFunc, LinkedByType, EnvOk, Compilable;
    if calls != [] {
      var init, e := calls[..|calls| - 1], calls[|calls| - 1];
      ServedFit(w, v, init);
      FuncFits(v, w.target(e.f), e.args, Served(w, init).value, w.fuel);
    }
  }

  lemma {:induction false} SafeChainServes(c: Chain, ranks: seq<nat -> nat>, bytes: nat, x: nat, calls: seq<Event>)
    requires ChainOk(c) && |ranks| == |c.links| && SafeLinks(c, ranks, bytes) && x <= |c.links| && Links(c)
    requires x < |c.links| ==> AllFit(c.links[x], calls)
    ensures ServedFrom(c, x, calls)
    decreases |c.links| - x
  {
    hide Safe, Ranked, TypesAgree, FramesFit, Served, WorldOk, AllFit, LinkedByType, EnvOk, Compilable, Compiles,
         ChainOk;
    if x < |c.links| {
      var w := c.links[x];
      assert SafeLink(w, ranks[x], bytes);
      SafeLibraryServes(w, ranks[x], bytes, calls);
      if x + 1 < |c.links| {
        var v := c.links[x + 1];
        ChainLink(c, x);
        ChainLink(c, x + 1);
        WorldCompiles(v);
        assert SafeLink(v, ranks[x + 1], bytes);
        ServedFit(w, v, calls);
      }
      SafeChainServes(c, ranks, bytes, x + 1, Served(w, calls).value);
    }
  }

  /**
   Total correctness of linked programs: safe modules without recursion, imports linked to functions
   of their types, a frame of stack per level of calls.  Every call comes back, on every input.
   */
  lemma EveryLinkedCallReturns(
    c: Chain, size: Instr -> nat, rank: nat -> nat, ranks: seq<nat -> nat>, bytes: nat, j: nat, args: seq<int>, s: Cpu,
    sp: int, ret: Pc)
    returns (a: Answer, n: nat)
    requires ChainOk(c) && SizesOk(size) && |ranks| == |c.links| && SafeLinks(c, ranks, bytes)
    requires Safe(ModuleAt(c, 0)) && Ranked(ModuleAt(c, 0), rank)
    requires j < |ModuleAt(c, 0).bodies| && |args| == TypeOf(ModuleAt(c, 0), j).params
    requires Entered(s, sp, ret, args) && ret.Exited? && Plain(s) && Own(c, 0, s) && s.trace == []
    ensures Links(c) && RBP in s.regs
    ensures FirstAnswer(c, j, args, s.trace, rank(j)) == Done(a)
    ensures EnvAt(c, 0).floor <= sp - a.need ==> LinkedAnswer(c, j, s, sp, ret, a, n)
  {
    hide Safe, Ranked, TypesAgree, FramesFit, EvalFunc, WorldOk, LinkedAnswer, Served, Own, Plain, LinkedByType,
         SizesOk,
         Links, ChainOk, ServedFrom, Compilable, EnvOk;
    ChainLinks(c);
    var m, env := ModuleAt(c, 0), EnvAt(c, 0);
    FuncFinishes(m, rank, env.oracle, j, args, s.trace, rank(j));
    a := EvalFunc(m, env.oracle, j, args, s.trace, rank(j)).value;
    if |c.links| > 0 {
      ChainLink(c, 0);
      WorldCompiles(c.links[0]);
      assert SafeLink(c.links[0], ranks[0], bytes);
      FuncFits(c.links[0], j, args, s.trace, rank(j));
    }
    SafeChainServes(c, ranks, bytes, 0, a.trace);
    n := 0;
    if env.floor <= sp - a.need { n := LinkedProgramReturns(c, size, j, args, s, sp, ret, rank(j)); }
  }

  // ----- such environments exist -----

  /** From the last link up, each caller's environment made to answer as its library does. */
  function Answered(links: seq<World>, last: Env): seq<World> {
    if links == [] then []
    else
      var rest := Answered(links[1..], last);
      var w := links[0].(outer := if rest == [] then last else rest[0].env);
      [w.(env := LinkedEnv(w))] + rest
  }

  lemma {:induction false} AnsweredAnswer(links: seq<World>, last: Env)
    ensures |Answered(links, last)| == |links|
    ensures forall x :: 0 <= x < |links| ==> AnsweredAt(links, Answered(links, last), last, x)
  {
    hide Answers, LinkedEnv;
    if links != [] {
      var rest, all := Answered(links[1..], last), Answered(links, last);
      AnsweredAnswer(links[1..], last);
      var w := links[0].(outer := if rest == [] then last else rest[0].env);
      LinkedEnvAnswers(w);
      assert all == [w.(env := LinkedEnv(w))] + rest;
      forall x | 0 <= x < |links| ensures AnsweredAt(links, all, last, x) {
        if x > 0 {
          assert AnsweredAt(links[1..], rest, last, x - 1);
          assert all[x] == rest[x - 1];
        }
      }
    }
  }

  /** Link `x` has the same modules, answers as its library does, and lets the next environment answer below. */
  ghost predicate AnsweredAt(links: seq<World>, all: seq<World>, last: Env, x: nat)
    requires x < |links| == |all|
  {
    && Answers(all[x]) && all[x].caller == links[x].caller && all[x].library == links[x].library
    && all[x].outer == if x + 1 < |all| then all[x + 1].env else last
  }

  /** And a linked program in step with any strict state whose calls were served. */
  lemma JointExists(c: Chain, s: State, calls: seq<seq<Event>>) returns (j: Joint)
    requires AllServed(c, 0, calls) && calls[0] == s.cpu.trace
    ensures InStep(c, 0, s, j) && j.calls == calls
  {
    var r := RawExists(s);
    j := Unview(0, r, calls);
    ViewUnview(0, r, calls);
    assert j.calls == calls;
  }

  // ----- from addresses to instructions -----

  /** What `link_import` is given for import f: the library's base and the entry point of its function. */
  function AddressOf(w: World, size: Instr -> nat, base: nat, f: nat): nat
    requires Compilable(w.library)
  {
    var e := EntryPoint(ObjectOf(w.library, size), ImportCount(w.library) + w.target(f));
    base + if e.Some? then e.value else 0
  }

  function Addresses(w: World, size: Instr -> nat, base: nat): (r: seq<nat>)
    requires Compilable(w.library)
    ensures |r| == ImportCount(w.caller)
  {
    seq(ImportCount(w.caller), f requires 0 <= f < ImportCount(w.caller) => AddressOf(w, size, base, f))
  }

  /**
   After every import has been linked, the bytes of slot f, taken as an address, are where the
   linked program continues: the library's instruction at `LibraryEntry`.
   */
  lemma SlotsNameEntries(w: World, size: Instr -> nat, base: nat, binary: seq<Byte>, f: nat)
    requires Compilable(w.caller) && Compilable(w.library) && SizesOk(size)
    requires |binary| == SizeOf(size, ObjectOf(w.caller, size).code) && AllLinkable(ObjectOf(w.caller, size).imports)
    requires forall i :: 0 <= i < ImportCount(w.caller) ==>
               w.target(i) < |w.library.bodies| && Addresses(w, size, base)[i] < TWO64
    requires f < ImportCount(w.caller)
    ensures var imports, code := ObjectOf(w.caller, size).imports, ObjectOf(w.library, size).code;
            && WellPlaced(imports, |binary|) && |imports| == ImportCount(w.caller) && 8 * f + 8 <= |binary|
            && LibraryEntry(w, f) < |code|
            && SlotWord(LinkedAll(binary, imports, Addresses(w, size, base), |imports|), f) == base
               + SizeOf(size, code[..LibraryEntry(w, f)])
  {
    hide ObjectOf, ObjectProgram, SizeOf, SizesOk, Compilable, SlotWord, LinkedAll;
    var imports := ObjectOf(w.caller, size).imports;
    CompiledIsWellPlaced(w.caller, size);
    forall i: nat ensures i in imports <==> i < ImportCount(w.caller) { RecordedOffsetsAreFinal(w.caller, size, i); }
    KeysCount(imports, ImportCount(w.caller));
    LinkAllSetsAll(binary, imports, Addresses(w, size, base), |imports|, f);
    EntryPointIsLabel(w.library, size, ImportCount(w.library) + w.target(f));
  }
}
