/** Which modules compile, said of the modules themselves. */
module Acceptance {
  import opened Wasm
  import opened CodeGen

  /** Function `f` has a type as the compiler looks it up, and its parameters fit in the argument registers. */
  predicate Callable(m: Module, f: nat) {
    var types := FunctionTypes(m);
    && f < |types| && types[f] < |types| && types[types[f]] < |m.types|
    && m.types[types[types[f]]].params <= 6
  }

  /** An operator the compiler has code for: a callable function, a local there is. */
  predicate Emittable(m: Module, op: Op, locals: nat) {
    && (op.Call? ==> Callable(m, op.f))
    && (op.LocalGet? || op.LocalSet? ==> op.i < locals)
  }

  /** Code entry `j` has a callable function, and its operators name callable functions and its own locals. */
  predicate EntryAccepted(m: Module, j: nat)
    requires j < |m.bodies|
  {
    var types, f := FunctionTypes(m), ImportCount(m) + j;
    && Callable(m, f)
    && var locals := m.types[types[types[f]]].params + Sum(m.bodies[j].groups);
       forall k :: 0 <= k < |m.bodies[j].ops| ==> Emittable(m, m.bodies[j].ops[k], locals)
  }

  /** No step of the compiler panics. */
  predicate Accepted(m: Module) {
    |m.bodies| <= |m.funcs| && forall j :: 0 <= j < |m.bodies| ==> EntryAccepted(m, j)
  }

  lemma CallableIff(m: Module, f: nat)
    ensures Callable(m, f) <==> Resolved(m, f).Some? && Resolved(m, f).value.params <= 6
  {
  }

  lemma EmittableIff(m: Module, op: Op, locals: nat)
    ensures Emittable(m, op, locals) <==> OpOk(m, locals, op)
  {
  }

  lemma EntryIff(m: Module, j: nat)
    requires j < |m.bodies|
    ensures BodyOk(m, j) <==> j < |m.funcs| && EntryAccepted(m, j)
  {
    hide Emittable, OpOk, Sum;
    CallableIff(m, ImportCount(m) + j);
    forall op, locals: nat ensures Emittable(m, op, locals) == OpOk(m, locals, op) { EmittableIff(m, op, locals); }
  }

  /**
   Acceptance.  A module compiles if and only if it has no more code entries than function section
   entries, every code entry's function and every called function looks up to a type of at most six
   parameters, and every local named is a parameter or a declared local.
   */
  lemma CompilesIff(m: Module)
    ensures Compilable(m) <==> Accepted(m)
  {
    hide BodyOk, EntryAccepted;
    forall j | 0 <= j < |m.bodies| ensures BodyOk(m, j) <==> j < |m.funcs| && EntryAccepted(m, j) { EntryIff(m, j); }
    if |m.bodies| > 0 {
      var last := |m.bodies| - 1;
      assert BodyOk(m, last) ==> last < |m.funcs|;
    }
  }
}
