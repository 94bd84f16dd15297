/** Where the emitted code does what WebAssembly says: examples on all values of their constants. */
module Agreements {
  import opened Base
  import opened X86
  import opened Wasm
  import opened CodeGen
  import opened CodeSemantics
  import opened WasmSemantics
  import opened Departures

  /** Wrap-around gives the one value below 2^64 that differs by a multiple of it. */
  lemma WrapIs(x: int, r: int, q: int)
    requires 0 <= r < 0x1_0000_0000_0000_0000 && x == q * 0x1_0000_0000_0000_0000 + r
    ensures Wrap(x) == r
  {
  }

  lemma WrapAdds(a: int, b: int)
    ensures Wrap(Wrap(a) + Wrap(b)) == Wrap(a + b)
  {
    var q, x := (Wrap(a) + Wrap(b)) / TWO64, Wrap(Wrap(a) + Wrap(b));
    assert a == (a / TWO64) * TWO64 + Wrap(a) && b == (b / TWO64) * TWO64 + Wrap(b);
    assert a + b == (a / TWO64 + b / TWO64 + q) * TWO64 + x;
    WrapIs(a + b, x, a / TWO64 + b / TWO64 + q);
  }

  /** Adding two constants adds them modulo 2^64. */
  lemma AdditionAgrees(oracle: Oracle, a: int, b: int)
    ensures var m := One(FuncType(0, 1), [], [I64Const(a), I64Const(b), I64Add]);
            && CodeResults(m, oracle, 0, [], 0) == Some([Wrap(a + b)])
            && SpecResults(m, oracle, 0, [], 0) == Some([Wrap(a + b)])
  {
    hide CodeResults, SpecResults, EntryFrame, Resolved, Declared, Wrap, Zeros, Sum;
    var t, ops := FuncType(0, 1), [I64Const(a), I64Const(b), I64Add];
    var m, x, y, z := One(t, [], ops), Wrap(a), Wrap(b), Wrap(a + b);
    OneType(t, [], ops);
    WrapAdds(a, b);
    assert y + x == x + y;
    assert [x] + [] == [x] && [y] + [x] == [y, x] && [z] + [y, x][2..] == [z];
    var c := Start([]);
    CodeAnswers(m, oracle, 0, [], ops, [c, c.(stack := [x]), c.(stack := [y, x]), c.(stack := [z])], 0);
    AdditionSpecified(oracle, a, b);
  }

  lemma AdditionSpecified(oracle: Oracle, a: int, b: int)
    ensures var m := One(FuncType(0, 1), [], [I64Const(a), I64Const(b), I64Add]);
            SpecResults(m, oracle, 0, [], 0) == Some([Wrap(a + b)])
  {
    hide SpecResults, Resolved, Declared, Wrap, Zeros, Sum;
    var t, ops := FuncType(0, 1), [I64Const(a), I64Const(b), I64Add];
    var m, x, y, z := One(t, [], ops), Wrap(a), Wrap(b), Wrap(a + b);
    OneType(t, [], ops);
    WrapAdds(a, b);
    var s := SpecStart(m, 0, []);
    assert [x] + [] == [x] && [y] + [x] == [y, x] && [z] + [y, x][2..] == [z];
    SpecAnswers(m, oracle, 0, [], t, ops, [s, s.(stack := [x]), s.(stack := [y, x]), s.(stack := [z])], 0);
  }

  /** A function that calls its one import with two constants and returns what it answers. */
  function Calling(a: int, b: int): Module {
    Module([FuncType(2, 1), FuncType(0, 1)], [FuncImport("env", Some("f"), 0)], [1], [],
           [Ended([], [I64Const(a), I64Const(b), Call(0)])])
  }

  lemma CallingTypes(a: int, b: int)
    ensures var m := Calling(a, b);
            && ImportCount(m) == 1 && BodyOk(m, 0)
            && Resolved(m, 0) == Declared(m, 0) == Some(FuncType(2, 1))
            && Resolved(m, 1) == Declared(m, 1) == Some(FuncType(0, 1))
  {
    var m := Calling(a, b);
    assert ImportTypes(m, 0) == [] && ImportTypes(m, 1) == [0];
    assert FunctionTypes(m) == [0, 1];
  }

  /** Arguments go to the import in order, and its first answer comes back. */
  lemma ImportCallAgrees(oracle: Oracle, a: int, b: int)
    ensures var m, calls := Calling(a, b), [Event(0, [Wrap(a), Wrap(b)])];
            && CodeResults(m, oracle, 0, [], 0) == Some([oracle(calls).0])
            && EvalFunc(m, oracle, 0, [], [], 0).value.trace == calls
            && SpecResults(m, oracle, 0, [], 0) == Some([oracle(calls).0])
            && SpecFunc(m, Standard, oracle, 0, [], [], 0).value.trace == calls
  {
    hide CodeResults, SpecResults, EvalFunc, SpecFunc, EntryFrame, Resolved, Declared, Wrap, Zeros, Sum, BodyOk;
    var m, x, y, calls := Calling(a, b), Wrap(a), Wrap(b), [Event(0, [Wrap(a), Wrap(b)])];
    var ops := [I64Const(a), I64Const(b), Call(0)];
    CallingTypes(a, b);
    assert m.bodies[0].ops == ops + [End];
    var c, s, z := Start([]), SpecStart(m, 0, []), oracle(calls).0;
    assert [x] + [] == [x] && [y] + [x] == [y, x] && [z] + [y, x][2..] == [z];
    assert Arguments([y, x], 2) == [x, y] && [] + calls == calls;
    assert [z, oracle(calls).1][..1] == [z];
    var c2, s2 := c.(stack := [y, x]), s.(stack := [y, x]);
    var c3, s3 := Config(c.frame, [z], calls, 8), SpecConfig(s.locals, [z], calls);
    assert EvalOp(m, oracle, 0, Call(0), c2, 0) == Done(c3);
    assert SpecOp(m, Standard, oracle, Call(0), s2, 0) == Done(s3);
    CodeAnswers(m, oracle, 0, [], ops, [c, c.(stack := [x]), c2, c3], 0);
    SpecAnswers(m, oracle, 0, [], FuncType(0, 1), ops, [s, s.(stack := [x]), s2, s3], 0);
  }
}
