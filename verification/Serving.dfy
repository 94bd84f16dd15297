/**
 A module's external calls answered by another module.  What the library's own semantics makes of the
 calls it gets, one after the other, is an environment for the caller.
 */
module Serving {
  import opened Base
  import opened X86
  import opened Wasm
  import opened CodeGen
  import opened CodeSemantics
  import opened Correctness
  import opened TypeLookup
  import opened EndToEnd
  import opened StackHeights

  /**
   `target` is the body of the library each import is linked to; `outer` is what surrounds the
   library, `start` the calls it had made before; `headroom` is the stack kept for it.
   */
  datatype World = World(
    caller: Module, library: Module, env: Env, outer: Env, target: nat -> nat, headroom: nat, fuel: nat,
    start: seq<Event>)

  // ----- the library answers -----

  /** The library's answer to one call: all results, within its stack, the caller's rbp kept. */
  function Serve(w: World, trace: seq<Event>, e: Event): Option<Answer> {
    var r := EvalFunc(w.library, w.outer.oracle, w.target(e.f), e.args, trace, w.fuel);
    if r.Done? && 0 !in r.value.frame && r.value.need <= w.headroom && |r.value.results| == Carried(w.env.answers(e.f))
    then Some(r.value) else None
  }

  /** The library's own external calls after it served `calls`, if it could. */
  function Served(w: World, calls: seq<Event>): Option<seq<Event>> {
    if calls == [] then Some(w.start)
    else
      match Served(w, calls[..|calls| - 1])
      case None => None
      case Some(trace) =>
        var a := Serve(w, trace, calls[|calls| - 1]);
        if a.Some? then Some(a.value.trace) else None
  }

  /** The caller's environment answers as the library does. */
  ghost predicate Answers(w: World) {
    forall calls :: calls != [] && Served(w, calls).Some? ==> AnsweredByLibrary(w, calls)
  }

  predicate AnsweredByLibrary(w: World, calls: seq<Event>)
    requires calls != [] && Served(w, calls).Some?
  {
    var r := Serve(w, Served(w, calls[..|calls| - 1]).value, calls[|calls| - 1]).value.results;
    var (a, d) := w.env.oracle(calls);
    (|r| >= 1 ==> a == r[0]) && (|r| >= 2 ==> d == r[1])
  }

  ghost predicate WorldOk(w: World) {
    && Compilable(w.caller) && Compilable(w.library) && EnvOk(w.caller, w.env) && EnvOk(w.library, w.outer)
    && w.outer.floor + w.headroom <= w.env.floor && Answers(w)
  }

  lemma {:induction false} ServedPrefix(w: World, calls: seq<Event>, k: nat)
    requires Served(w, calls).Some? && k <= |calls|
    ensures Served(w, calls[..k]).Some?
    decreases |calls|
  {
    if k == |calls| {
      assert calls[..k] == calls;
    } else {
      ServedPrefix(w, calls[..|calls| - 1], k);
      assert calls[..|calls| - 1][..k] == calls[..k];
    }
  }

  lemma WorldCompiles(w: World)
    requires WorldOk(w)
    ensures Compilable(w.caller) && Compilable(w.library) && EnvOk(w.caller, w.env) && EnvOk(w.library, w.outer)
    ensures w.outer.floor + w.headroom <= w.env.floor
  {
  }

  // ----- libraries that always answer -----

  /** The call has the type of the library's function. */
  predicate Fits(w: World, e: Event)
    requires Compilable(w.library)
  {
    var j := w.target(e.f);
    && j < |w.library.bodies| && |e.args| == TypeOf(w.library, j).params
    && Carried(w.env.answers(e.f)) == Carried(TypeOf(w.library, j).results)
  }

  ghost predicate AllFit(w: World, calls: seq<Event>)
    requires Compilable(w.library)
  {
    forall e :: e in calls ==> Fits(w, e)
  }

  /** Each import is linked to a function of its own type. */
  ghost predicate LinkedByType(w: World)
    requires Compilable(w.library)
  {
    forall f :: 0 <= f < ImportCount(w.caller) && Resolved(w.caller, f).Some? ==>
      w.target(f) < |w.library.bodies| && TypeOf(w.library, w.target(f)) == Resolved(w.caller, f).value
  }

  /** The caller's calls have the types of its imports. */
  lemma {:induction false} OpsFit(w: World, p: nat, ops: seq<Op>, c: Config, fuel: nat)
    requires Compilable(w.library) && LinkedByType(w) && EnvOk(w.caller, w.env) && AllFit(w, c.trace)
    requires EvalOps(w.caller, w.env.oracle, p, ops, c, fuel).Done?
    ensures AllFit(w, EvalOps(w.caller, w.env.oracle, p, ops, c, fuel).value.trace)
    decreases fuel, 0, |ops|
  {
    hide EvalFunc, Compilable, TypeOf;
    if ops != [] {
      OpsFit(w, p, ops[..|ops| - 1], c, fuel);
      var d, op := EvalOps(w.caller, w.env.oracle, p, ops[..|ops| - 1], c, fuel).value, ops[|ops| - 1];
      if op.Call? && ImportCount(w.caller) <= op.f {
        FuncFits(w, op.f - ImportCount(w.caller), Arguments(d.stack, Resolved(w.caller, op.f).value.params), d.trace,
          fuel - 1);
      }
    }
  }

  lemma FuncFits(w: World, j: nat, args: seq<int>, trace: seq<Event>, fuel: nat)
    requires Compilable(w.library) && LinkedByType(w) && EnvOk(w.caller, w.env) && AllFit(w, trace)
    requires EvalFunc(w.caller, w.env.oracle, j, args, trace, fuel).Done?
    ensures AllFit(w, EvalFunc(w.caller, w.env.oracle, j, args, trace, fuel).value.trace)
    decreases fuel, 1, 0
  {
    hide EvalOps, Compilable, LinkedByType, AllFit;
    OpsFit(w, |args|, w.caller.bodies[j].ops, Config(EntryFrame(args, |args|), [], trace, 0), fuel);
  }

  /** A safe library without recursion, given a frame per level of calls, serves every call of the right type. */
  lemma {:induction false} SafeLibraryServes(w: World, rank: nat -> nat, bytes: nat, calls: seq<Event>)
    requires Safe(w.library) && Ranked(w.library, rank) && TypesAgree(w.library) && FramesFit(w.library, bytes)
    requires (forall j :: 0 <= j < |w.library.bodies| ==> rank(j) <= w.fuel) && (w.fuel + 1) * bytes <= w.headroom
    requires AllFit(w, calls)
    ensures Served(w, calls).Some?
    decreases |calls|
  {
    hide Safe, Ranked, TypesAgree, FramesFit, Serve, Fits;
    if calls != [] {
      var init, e := calls[..|calls| - 1], calls[|calls| - 1];
      SafeCompiles(w.library);
      assert AllFit(w, init);
      SafeLibraryServes(w, rank, bytes, init);
      assert e in calls && Fits(w, e);
      SafeLibraryServesOne(w, rank, bytes, Served(w, init).value, e);
    }
  }

  lemma SafeLibraryServesOne(w: World, rank: nat -> nat, bytes: nat, trace: seq<Event>, e: Event)
    requires Safe(w.library) && Ranked(w.library, rank) && TypesAgree(w.library) && FramesFit(w.library, bytes)
    requires (forall j :: 0 <= j < |w.library.bodies| ==> rank(j) <= w.fuel) && (w.fuel + 1) * bytes <= w.headroom
    requires Fits(w, e)
    ensures Serve(w, trace, e).Some?
  {
    hide Safe, Ranked, TypesAgree, FramesFit, EvalFunc, Compilable, TypeOf;
    SafeCompiles(w.library);
    FuncFinishes(w.library, rank, w.outer.oracle, w.target(e.f), e.args, trace, w.fuel);
    StackSizedByHeights(w.library, w.outer.oracle, bytes, w.target(e.f), e.args, trace, w.fuel);
  }

  // ----- there is such an environment -----

  /** The environment in which imports answer as the library does. */
  function LinkedEnv(w: World): Env {
    w.env.(oracle := calls => if calls != [] && Served(w, calls).Some? then LastAnswer(w, calls) else (0, 0))
  }

  function LastAnswer(w: World, calls: seq<Event>): (int, int)
    requires calls != [] && Served(w, calls).Some?
  {
    var r := Serve(w, Served(w, calls[..|calls| - 1]).value, calls[|calls| - 1]).value.results;
    (if |r| >= 1 then r[0] else 0, if |r| >= 2 then r[1] else 0)
  }

  lemma {:induction false} SameServed(w: World, calls: seq<Event>)
    ensures Served(w.(env := LinkedEnv(w)), calls) == Served(w, calls)
  {
    hide EvalFunc;
    if calls != [] { SameServed(w, calls[..|calls| - 1]); }
  }

  lemma LinkedEnvAnswers(w: World)
    ensures Answers(w.(env := LinkedEnv(w)))
  {
    hide EvalFunc, Served;
    var v := w.(env := LinkedEnv(w));
    forall calls | calls != [] && Served(v, calls).Some? ensures AnsweredByLibrary(v, calls) {
      SameServed(w, calls);
      SameServed(w, calls[..|calls| - 1]);
      ServedLast(w, calls);
    }
  }

  lemma ServedLast(w: World, calls: seq<Event>)
    requires calls != [] && Served(w, calls).Some?
    ensures Served(w, calls[..|calls| - 1]).Some?
            && Serve(w, Served(w, calls[..|calls| - 1]).value, calls[|calls| - 1]).Some?
  {
    hide Serve;
  }
}
