/** The recorded stack height against WebAssembly: what validation counts is what evaluation does. */
module ValidatedHeights {
  import opened Base
  import opened X86
  import opened Wasm
  import opened CodeGen
  import opened CodeSemantics
  import opened TypeLookup
  import opened StackHeights
  import opened WasmSemantics
  import opened Binder
  import opened Assembly
  import opened Departures

  lemma OpSpecHeight(m: Module, d: Dialect, oracle: Oracle, op: Op, c: SpecConfig, fuel: nat)
    requires SpecOp(m, d, oracle, op, c, fuel).Done?
    ensures |SpecOp(m, d, oracle, op, c, fuel).value.stack| == HeightAfter(Declarer(m), op, |c.stack|)
  {
    hide SpecFunc;
    if op.Call? && ImportCount(m) <= op.f {
      var t := Declared(m, op.f).value;
      ResultCount(m, d, oracle, op.f - ImportCount(m), Arguments(c.stack, t.params), c.trace, fuel - 1);
    }
  }

  lemma ResultCount(m: Module, d: Dialect, oracle: Oracle, j: nat, args: seq<int>, trace: seq<Event>, fuel: nat)
    requires SpecFunc(m, d, oracle, j, args, trace, fuel).Done?
    ensures Declared(m, ImportCount(m) + j).Some?
    ensures |SpecFunc(m, d, oracle, j, args, trace, fuel).value.results|
            == Declared(m, ImportCount(m) + j).value.results
  {
    hide SpecOps;
  }

  /** Evaluation from an empty operand stack is always as high as the declared types say. */
  lemma {:induction false} SpecHeight(m: Module, d: Dialect, oracle: Oracle, ops: seq<Op>, c: SpecConfig, fuel: nat)
    requires c.stack == [] && SpecOps(m, d, oracle, ops, c, fuel).Done?
    ensures |SpecOps(m, d, oracle, ops, c, fuel).value.stack| == Height(Declarer(m), ops)
    decreases |ops|
  {
    hide SpecOp, HeightAfter;
    if ops != [] {
      SpecHeight(m, d, oracle, ops[..|ops| - 1], c, fuel);
      OpSpecHeight(m, d, oracle, ops[|ops| - 1], SpecOps(m, d, oracle, ops[..|ops| - 1], c, fuel).value, fuel);
    }
  }

  lemma {:induction false} PeakBounds(sig: nat -> Option<FuncType>, ops: seq<Op>, k: nat)
    requires k <= |ops|
    ensures Height(sig, ops[..k]) <= Peak(sig, ops)
    decreases |ops|
  {
    hide HeightAfter;
    if k == |ops| {
      assert ops[..k] == ops;
    } else {
      PeakBounds(sig, ops[..|ops| - 1], k);
      assert ops[..|ops| - 1][..k] == ops[..k];
    }
  }

  /** Evaluating `ops` from an empty operand stack ends, if it does, with at most `h` operands. */
  predicate EvaluatesWithin(m: Module, d: Dialect, oracle: Oracle, ops: seq<Op>, c: SpecConfig, fuel: nat, h: nat) {
    var r := SpecOps(m, d, oracle, ops, c, fuel);
    c.stack == [] && r.Done? ==> |r.value.stack| <= h
  }

  /** After any number of operators of a body, in any dialect and environment. */
  ghost predicate BoundsEvaluation(m: Module, ops: seq<Op>, h: nat) {
    forall d: Dialect, oracle: Oracle, k: nat, c: SpecConfig, fuel: nat ::
      k <= |ops| ==> EvaluatesWithin(m, d, oracle, ops[..k], c, fuel, h)
  }

  /**
   The height found in the object for a defined function is the largest that validation counts, by
   declared types, after any number of its operators; whatever the module's types, no evaluation of
   the body after WebAssembly's rules has a higher operand stack at any of these points.
   */
  lemma ObjectHeight(m: Module, size: Instr -> nat, j: nat) returns (h: nat, peak: nat)
    requires Compilable(m) && SizesOk(size) && j < |m.bodies|
    ensures StackHeight(ObjectOf(m, size), ImportCount(m) + j) == Some(h)
    ensures forall k :: 0 <= k <= |m.bodies[j].ops| ==> Height(Declarer(m), m.bodies[j].ops[..k]) <= h
    ensures peak <= |m.bodies[j].ops| && Height(Declarer(m), m.bodies[j].ops[..peak]) == h
    ensures BoundsEvaluation(m, m.bodies[j].ops, h)
  {
    hide ObjectOf, SizesOk, Compilable, Peak, Height, BoundsEvaluation, EntryPoint, StackHeight, OffsetOf;
    LookupsAreExact(m, size, ImportCount(m) + j);
    var ops := m.bodies[j].ops;
    h := RecordedHeight(m, j);
    peak := PeakReached(Declarer(m), ops);
    forall k | 0 <= k <= |ops| ensures Height(Declarer(m), ops[..k]) <= h { PeakBounds(Declarer(m), ops, k); }
    PrefixesWithin(m, ops, h);
  }

  lemma PrefixesWithin(m: Module, ops: seq<Op>, h: nat)
    requires forall k :: 0 <= k <= |ops| ==> Height(Declarer(m), ops[..k]) <= h
    ensures BoundsEvaluation(m, ops, h)
  {
    hide EvaluatesWithin, Height;
    forall d: Dialect, oracle: Oracle, k: nat, c: SpecConfig, fuel: nat | k <= |ops|
      ensures EvaluatesWithin(m, d, oracle, ops[..k], c, fuel, h) {
      PrefixWithin(m, d, oracle, ops[..k], c, fuel, h);
    }
  }

  lemma PrefixWithin(m: Module, d: Dialect, oracle: Oracle, ops: seq<Op>, c: SpecConfig, fuel: nat, h: nat)
    requires Height(Declarer(m), ops) <= h
    ensures EvaluatesWithin(m, d, oracle, ops, c, fuel, h)
  {
    hide SpecOps, Height;
    if c.stack == [] && SpecOps(m, d, oracle, ops, c, fuel).Done? { SpecHeight(m, d, oracle, ops, c, fuel); }
  }

  /** Function 0 is declared with one result and looked up with none; function 1 calls it. */
  function Misread(): Module {
    Module(
      [FuncType(0, 0), FuncType(0, 1)], [], [1, 0], [],
      [Ended([], [I64Const(7)]), Ended([1], [Call(0), LocalSet(0)])])
  }

  lemma MisreadLookups()
    ensures ImportCount(Misread()) == 0 && Declared(Misread(), 0) == Some(FuncType(0, 1))
    ensures Resolved(Misread(), 0) == Some(FuncType(0, 0)) && Resolved(Misread(), 1) == Some(FuncType(0, 1))
  {
    assert ImportTypes(Misread(), 0) == [];
    assert FunctionTypes(Misread()) == [1, 0];
  }

  lemma MisreadCompiles()
    ensures Compilable(Misread())
  {
    hide Resolved, Sum;
    var m := Misread();
    MisreadLookups();
    SumOne(1);
    assert BodyOk(m, 0) && BodyOk(m, 1);
  }

  /** By declared types and not by looked-up ones, where the two differ: one word against none. */
  lemma HeightIsDeclared(size: Instr -> nat)
    requires SizesOk(size)
    ensures Compilable(Misread()) && StackHeight(ObjectOf(Misread(), size), 1) == Some(1)
  {
    hide ObjectOf, SizesOk, Peak, Compilable, Declared, StackHeight, EntryPoint, OffsetOf;
    MisreadLookups();
    MisreadCompiles();
    LookupsAreExact(Misread(), size, 1);
    CalledPeak(Declarer(Misread()), [Call(0), LocalSet(0)] + [End]);
    MisreadHeight();
  }

  lemma MisreadHeight()
    requires Peak(Declarer(Misread()), [Call(0), LocalSet(0)] + [End]) == 1
    ensures RecordedHeight(Misread(), 1) == 1 && |Misread().bodies| == 2
  {
    hide Peak;
  }

  lemma CalledPeak(sig: nat -> Option<FuncType>, ops: seq<Op>)
    requires sig(0) == Some(FuncType(0, 1)) && ops == [Call(0), LocalSet(0)] + [End]
    ensures Peak(sig, ops) == 1
  {
    assert ops[..2] == [Call(0), LocalSet(0)] && ops[..2][..1] == [Call(0)] && ops[..2][..1][..0] == [];
    assert Height(sig, [Call(0)]) == 1 && Peak(sig, [Call(0)]) == 1;
    assert Height(sig, [Call(0), LocalSet(0)]) == 0 && Peak(sig, [Call(0), LocalSet(0)]) == 1;
  }
}
