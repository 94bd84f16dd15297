/** The source: a parsed and validated module whose functions work on i64 values. */
module Wasm {
  import opened Base

  datatype FuncType = FuncType(params: nat, results: nat)

  datatype ImportEntry =
    | FuncImport(from: string, field: Option<string>, ty: nat)
    | OtherImport(from: string, field: Option<string>)

  /** The operators the code generator implements for i64. */
  datatype Op =
    | I64Const(value: int)
    | I64Add
    | I64Sub
    | Call(f: nat)
    | Nop
    | End
    | LocalGet(i: nat)
    | LocalSet(i: nat)

  /** A code section entry: the sizes of its groups of declared locals, and its operators. */
  datatype Body = Body(groups: seq<nat>, ops: seq<Op>)

  datatype ExportKind = FunctionExport | OtherExport

  /** An exported function, or a memory, table or global; each kind has indices of its own. */
  datatype Export = Export(field: string, kind: ExportKind, index: nat)

  datatype Module = Module(
    types: seq<FuncType>, imports: seq<ImportEntry>, funcs: seq<nat>, exports: seq<Export>, bodies: seq<Body>)

  /** Type indices of the function imports among the first `k` imports, in order. */
  function ImportTypes(m: Module, k: nat): seq<nat>
    requires k <= |m.imports|
  {
    if k == 0 then []
    else ImportTypes(m, k - 1) + (if m.imports[k - 1].FuncImport? then [m.imports[k - 1].ty] else [])
  }

  /**
   The imported functions' index space: import `k`, if it is a function, has as many function imports
   before it as its index says, and the type index it was imported with; other imports take no index.
   */
  lemma {:induction false} ImportIndex(m: Module, n: nat, k: nat)
    requires k < n <= |m.imports|
    ensures |ImportTypes(m, k)| == |set i | 0 <= i < k && m.imports[i].FuncImport?|
    ensures m.imports[k].FuncImport? ==>
              |ImportTypes(m, k)| < |ImportTypes(m, n)| && ImportTypes(m, n)[|ImportTypes(m, k)|] == m.imports[k].ty
    decreases n
  {
    if k < n - 1 { ImportIndex(m, n - 1, k); } else { CountedImports(m, k); }
  }

  lemma {:induction false} CountedImports(m: Module, k: nat)
    requires k <= |m.imports|
    ensures |ImportTypes(m, k)| == |set i | 0 <= i < k && m.imports[i].FuncImport?|
  {
    var all := set i | 0 <= i < k && m.imports[i].FuncImport?;
    if k > 0 {
      CountedImports(m, k - 1);
      var before := set i | 0 <= i < k - 1 && m.imports[i].FuncImport?;
      assert all == if m.imports[k - 1].FuncImport? then before + {k - 1} else before;
    }
  }

  /** How many functions are imported: the first index of a defined function. */
  function ImportCount(m: Module): nat {
    |ImportTypes(m, |m.imports|)|
  }

  /** Function index to type index: imports first, then the function section. */
  function FunctionTypes(m: Module): seq<nat> {
    ImportTypes(m, |m.imports|) + m.funcs
  }

  /** The type a function was declared with. */
  function Declared(m: Module, f: nat): Option<FuncType> {
    var types := FunctionTypes(m);
    if f < |types| && types[f] < |m.types| then Some(m.types[types[f]]) else None
  }

  /**
   The type the compiler looks up, for a body and at a call alike: it takes the function's type
   index and looks that up as a function again.
   */
  function Resolved(m: Module, f: nat): Option<FuncType> {
    var types := FunctionTypes(m);
    if f < |types| && types[f] < |types| && types[types[f]] < |m.types| then Some(m.types[types[types[f]]])
    else None
  }

  function Sum(groups: seq<nat>): nat {
    if groups == [] then 0 else Sum(groups[..|groups| - 1]) + groups[|groups| - 1]
  }

  /** Groups of locals add up, one by one. */
  lemma {:induction false} SumAdds(a: seq<nat>, b: seq<nat>)
    ensures Sum(a + b) == Sum(a) + Sum(b) && forall n: nat :: Sum([n]) == n
    decreases |b|
  {
    forall n: nat ensures Sum([n]) == n { assert [n][..0] == []; }
    if b == [] {
      assert a + b == a;
    } else {
      SumAdds(a, b[..|b| - 1]);
      assert (a + b)[..|a + b| - 1] == a + b[..|b| - 1];
    }
  }

  /** Parameters and declared locals. */
  function LocalCount(t: FuncType, b: Body): nat {
    t.params + Sum(b.groups)
  }

  function Max(a: int, b: int): int {
    if a >= b then a else b
  }

  /** Operand stack height after an operator, by the signatures `sig`. */
  function HeightAfter(sig: nat -> Option<FuncType>, op: Op, h: int): int {
    match op
    case I64Const(_) => h + 1
    case I64Add => h - 1
    case I64Sub => h - 1
    case Call(f) => if sig(f).Some? then h - sig(f).value.params + sig(f).value.results else h
    case Nop => h
    case End => h
    case LocalGet(_) => h + 1
    case LocalSet(_) => h - 1
  }

  /** Height after a sequence of operators on an empty stack. */
  function Height(sig: nat -> Option<FuncType>, ops: seq<Op>): int {
    if ops == [] then 0 else HeightAfter(sig, ops[|ops| - 1], Height(sig, ops[..|ops| - 1]))
  }

  /** The largest height reached: what the compiler records per function. */
  function Peak(sig: nat -> Option<FuncType>, ops: seq<Op>): (r: nat)
    ensures r >= Height(sig, ops)
  {
    if ops == [] then 0 else Max(Peak(sig, ops[..|ops| - 1]), Height(sig, ops))
  }
}
