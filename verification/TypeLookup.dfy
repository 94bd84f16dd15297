/** The compiler's lookup of function types, which takes a type index for a function index. */
module TypeLookup {
  import opened Base
  import opened Wasm

  /** What validation declares, function by function. */
  function Declarer(m: Module): nat -> Option<FuncType> {
    (f: nat) => Declared(m, f)
  }

  /** The type looked up for every function is the one it was declared with. */
  ghost predicate TypesAgree(m: Module) {
    forall f: nat :: Resolved(m, f) == Declared(m, f)
  }

  /** Looking a function up gives the declared type of the function its type index happens to number. */
  lemma ResolvedIsDeclaredOfType(m: Module, f: nat)
    requires f < |FunctionTypes(m)|
    ensures Resolved(m, f) == Declared(m, FunctionTypes(m)[f])
  {
  }

  /**
   When the double lookup is harmless, exactly, in a validated module: every type index in use,
   taken as the number of a function, numbers a function declared with that very type.
   */
  lemma TypesAgreeIff(m: Module)
    requires forall t :: t in FunctionTypes(m) ==> t < |m.types|
    ensures TypesAgree(m) <==> forall t :: t in FunctionTypes(m) ==> Declared(m, t) == Some(m.types[t])
  {
    var types := FunctionTypes(m);
    if TypesAgree(m) {
      forall t | t in types ensures Declared(m, t) == Some(m.types[t]) {
        var f :| 0 <= f < |types| && types[f] == t;
        ResolvedIsDeclaredOfType(m, f);
        assert Resolved(m, f) == Declared(m, f);
      }
    }
    if forall t :: t in types ==> Declared(m, t) == Some(m.types[t]) {
      forall f: nat ensures Resolved(m, f) == Declared(m, f) {
        if f < |types| {
          assert types[f] in types;
          ResolvedIsDeclaredOfType(m, f);
        }
      }
    }
  }

  /** Peaks depend on signatures only. */
  lemma {:induction false} SameSignatures(a: nat -> Option<FuncType>, b: nat -> Option<FuncType>, ops: seq<Op>)
    requires forall f: nat :: a(f) == b(f)
    ensures Height(a, ops) == Height(b, ops) && Peak(a, ops) == Peak(b, ops)
  {
    if ops != [] { SameSignatures(a, b, ops[..|ops| - 1]); }
  }
}
