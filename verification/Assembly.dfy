/** `compile`: the sections of a module in order, then optimisation, label binding and the finished object. */
module Assembly {
  import opened Base
  import opened X86
  import opened Wasm
  import opened Optimizer
  import opened Streams
  import opened CodeGen
  import opened Placement
  import opened Acceptance
  import opened StackHeights
  import opened Compiler
  import opened Binder

  /** An import's name and where its slot is in the binary. */
  datatype ImportRef = ImportRef(from: string, field: Option<string>, offset: nat)

  /** The compiled module: bound code and what the compiler records about it. */
  datatype Object = Object(
    code: seq<Instr>, functions: map<nat, nat>, bodies: map<nat, nat>, heights: map<nat, nat>,
    exports: map<string, nat>, imports: map<nat, ImportRef>)

  function ImportRefs(m: Module, size: Instr -> nat, k: nat): map<nat, ImportRef>
    requires k <= |m.imports|
  {
    if k == 0 then map[]
    else
      var before, i := ImportRefs(m, size, k - 1), m.imports[k - 1];
      if i.FuncImport? then
        before[|ImportTypes(m, k - 1)| := ImportRef(i.from, i.field, SizeOf(size, ImportCode(m, k - 1)))]
      else before
  }

  /** Recorded heights of the first `k` bodies, by function index. */
  function Heights(m: Module, k: nat): map<nat, nat>
    requires k <= |m.bodies|
  {
    if k == 0 then map[] else Heights(m, k - 1)[ImportCount(m) + k - 1 := RecordedHeight(m, k - 1)]
  }

  /** Instruction index of the table word of the first `k` defined functions. */
  function TableWords(m: Module, k: nat): map<nat, nat> {
    if k == 0 then map[] else TableWords(m, k - 1)[ImportCount(m) + k - 1 := |HeadCode(m, k - 1)|]
  }

  /** A later export of the same name replaces an earlier one. */
  function ExportMap(exports: seq<Export>, k: nat): map<string, nat>
    requires k <= |exports|
  {
    if k == 0 then map[] else ExportMap(exports, k - 1)[exports[k - 1].field := exports[k - 1].index]
  }

  /** The object compilation gives. */
  function ObjectOf(m: Module, size: Instr -> nat): Object
    requires Compilable(m)
  {
    var code, labels := OptimizedCode(m), OptimizedLabels(m);
    Object(
      Bound(code, labels, |code|),
      TableWords(m, |m.funcs|),
      Entries(size, code, labels, |code|),
      Heights(m, |m.bodies|),
      ExportMap(m.exports, |m.exports|),
      ImportRefs(m, size, |m.imports|))
  }

  /** Import section: a marker for every import, a slot for every imported function. */
  method EmitImports(m: Module, size: Instr -> nat, asm: Assembler)
    returns (labels: seq<LabelIndex>, refs: map<nat, ImportRef>, ils: map<nat, Label>, types: map<nat, nat>, count: nat)
    requires asm.instructions == []
    modifies asm
    ensures asm.instructions == ImportCode(m, |m.imports|) && labels == ImportLabels(m, |m.imports|)
    ensures refs == ImportRefs(m, size, |m.imports|) && count == ImportCount(m)
    ensures ils == SlotsUpTo(count) && types == TypesUpTo(m, count)
  {
    hide SlotsUpTo, ImportTypesMap, TypesUpTo, SizeOf, ImportTypes;
    NoImportsYet(m);
    labels, refs, ils, types, count := [], map[], map[], map[], 0;
    for k := 0 to |m.imports|
      invariant asm.instructions == ImportCode(m, k) && labels == ImportLabels(m, k)
      invariant refs == ImportRefs(m, size, k) && count == |ImportTypes(m, k)|
      invariant ils == SlotsUpTo(count) && types == ImportTypesMap(m, k)
    {
      ImportMapsNext(m, k);
      var i, offset := m.imports[k], SizeOf(size, asm.instructions);
      asm.Add(ZeroBytes);
      if i.FuncImport? {
        refs := refs[count := ImportRef(i.from, i.field, offset)];
        labels := labels + [LabelIndex(|asm.instructions|, ImportSlot(count))];
        asm.Add(Dq(UNLINKED));
        ils := ils[count := ImportSlot(count)];
        types := types[count := i.ty];
        count := count + 1;
        assert asm.instructions == ImportCode(m, k + 1);
      }
    }
    ImportTypesAll(m);
  }

  /** Import labels, and type indices of the functions among the first `k` imports. */
  function SlotsUpTo(n: nat): map<nat, Label> {
    map f: nat | f < n :: ImportSlot(f)
  }

  function ImportTypesMap(m: Module, k: nat): map<nat, nat>
    requires k <= |m.imports|
  {
    map f: nat | f < |ImportTypes(m, k)| :: ImportTypes(m, k)[f]
  }

  lemma NoImportsYet(m: Module)
    ensures SlotsUpTo(0) == map[] && ImportTypesMap(m, 0) == map[] && ImportTypes(m, 0) == []
  {
  }

  lemma ImportMapsNext(m: Module, k: nat)
    requires k < |m.imports|
    ensures var n, i := |ImportTypes(m, k)|, m.imports[k];
            && |ImportTypes(m, k + 1)| == (if i.FuncImport? then n + 1 else n)
            && SlotsUpTo(n + 1) == SlotsUpTo(n)[n := ImportSlot(n)]
            && ImportTypesMap(m, k + 1) == if i.FuncImport? then ImportTypesMap(m, k)[n := i.ty]
               else ImportTypesMap(m, k)
  {
  }

  lemma ImportTypesAll(m: Module)
    ensures ImportTypesMap(m, |m.imports|) == TypesUpTo(m, ImportCount(m))
  {
  }

  /** The function index maps, up to an index. */
  function TypesUpTo(m: Module, n: nat): map<nat, nat>
    requires n <= |FunctionTypes(m)|
  {
    map f: nat | f < n :: FunctionTypes(m)[f]
  }

  function BodiesUpTo(m: Module, n: nat): map<nat, Label> {
    map f: nat | ImportCount(m) <= f < n :: BodyOf(f)
  }

  lemma NoBodiesYet(m: Module)
    ensures BodiesUpTo(m, ImportCount(m)) == map[]
  {
  }

  lemma MapsNext(m: Module, k: nat)
    requires k < |m.funcs|
    ensures var f := ImportCount(m) + k;
            && BodiesUpTo(m, f + 1) == BodiesUpTo(m, f)[f := BodyOf(f)]
            && TypesUpTo(m, f + 1) == TypesUpTo(m, f)[f := m.funcs[k]]
  {
  }

  lemma HeadStart(m: Module)
    ensures HeadCode(m, 0) == ImportCode(m, |m.imports|) && HeadLabels(m, 0) == ImportLabels(m, |m.imports|)
  {
  }

  lemma HeadNext(m: Module, k: nat)
    ensures HeadCode(m, k + 1) == HeadCode(m, k) + [Dq(0)]
    ensures HeadLabels(m, k + 1) == HeadLabels(m, k) + [LabelIndex(|HeadCode(m, k)|, TableEntry(ImportCount(m) + k))]
  {
  }

  /** Function section: a table word, a type and a body label for every defined function. */
  method EmitTable(m: Module, asm: Assembler, labels0: seq<LabelIndex>, types0: map<nat, nat>)
    returns (labels: seq<LabelIndex>, functions: map<nat, nat>, got: map<nat, Label>, types: map<nat, nat>)
    requires asm.instructions == ImportCode(m, |m.imports|) && labels0 == ImportLabels(m, |m.imports|)
    requires types0 == TypesUpTo(m, ImportCount(m))
    modifies asm
    ensures asm.instructions == HeadCode(m, |m.funcs|) && labels == HeadLabels(m, |m.funcs|)
    ensures functions == TableWords(m, |m.funcs|)
    ensures got == BodiesUpTo(m, |FunctionTypes(m)|) && types == TypesUpTo(m, |FunctionTypes(m)|)
  {
    hide HeadCode, HeadLabels, ImportTypes, BodiesUpTo, TypesUpTo;
    HeadStart(m);
    NoBodiesYet(m);
    var first := ImportCount(m);
    labels, functions, got, types := labels0, map[], map[], types0;
    for k := 0 to |m.funcs|
      invariant asm.instructions == HeadCode(m, k) && labels == HeadLabels(m, k)
      invariant functions == TableWords(m, k)
      invariant got == BodiesUpTo(m, first + k) && types == TypesUpTo(m, first + k)
    {
      HeadNext(m, k);
      MapsNext(m, k);
      labels := labels + [LabelIndex(|asm.instructions|, TableEntry(first + k))];
      functions := functions[first + k := |asm.instructions|];
      asm.Add(Dq(0));
      got := got[first + k := BodyOf(first + k)];
      types := types[first + k := m.funcs[k]];
    }
  }

  /** Code section. */
  method EmitBodies(m: Module, asm: Assembler, t: Tables, labels0: seq<LabelIndex>)
    returns (ok: bool, labels: seq<LabelIndex>, heights: map<nat, nat>)
    requires TablesOf(m, t) && asm.instructions == HeadCode(m, |m.funcs|) && labels0 == HeadLabels(m, |m.funcs|)
    modifies asm
    ensures ok <==> Compilable(m)
    ensures ok ==> asm.instructions == StreamOf(m, |m.bodies|) && labels == LabelsOf(m, |m.bodies|)
    ensures ok ==> heights == Heights(m, |m.bodies|)
  {
    hide TablesOf, BodyOk, FuncCode, HeadCode, HeadLabels, RecordedHeight, ImportCount;
    labels, heights := labels0, map[];
    for k := 0 to |m.bodies|
      invariant BodiesOk(m, k) && asm.instructions == StreamOf(m, k) && labels == LabelsOf(m, k)
      invariant heights == Heights(m, k)
    {
      var f := ImportCount(m) + k;
      labels := labels + [LabelIndex(|asm.instructions|, BodyOf(f))];
      var height;
      ok, height := EmitFunction(m, asm, t, k);
      if !ok { return; }
      heights := heights[f := height];
    }
    ok := true;
  }

  /** The first label at an index, as the binder searches for it. */
  method Search(labels: seq<LabelIndex>, i: nat) returns (r: Option<Label>)
    ensures r == FindLabel(labels, i)
  {
    for e := 0 to |labels|
      invariant FindLabel(labels, i) == FindLabel(labels[e..], i)
    {
      if labels[e].index == i { return Some(labels[e].name); }
    }
    r := None;
  }

  /** Bind labels, recording where function bodies start. */
  method BindLabels(size: Instr -> nat, code: seq<Instr>, labels: seq<LabelIndex>)
    returns (bound: seq<Instr>, bodies: map<nat, nat>)
    ensures bound == Bound(code, labels, |code|) && bodies == Entries(size, code, labels, |code|)
  {
    bound, bodies := [], map[];
    for k := 0 to |code|
      invariant bound == Bound(code, labels, k) && bodies == Entries(size, code, labels, k)
    {
      var found := Search(labels, k);
      if found.Some? {
        if found.value.BodyOf? { bodies := bodies[found.value.f := SizeOf(size, bound)]; }
        bound := bound + [ZeroBytes];
      }
      bound := bound + [code[k]];
    }
  }

  method CollectExports(exports: seq<Export>) returns (r: map<string, nat>)
    ensures r == ExportMap(exports, |exports|)
  {
    r := map[];
    for k := 0 to |exports|
      invariant r == ExportMap(exports, k)
    {
      r := r[exports[k].field := exports[k].index];
    }
  }

  method CollectTypes(m: Module) returns (r: map<nat, FuncType>)
    ensures r == map i: nat | i < |m.types| :: m.types[i]
  {
    r := map[];
    for k := 0 to |m.types|
      invariant r == map i: nat | i < k :: m.types[i]
    {
      r := r[k := m.types[k]];
    }
  }

  /** `compile`: an object exactly for the accepted modules, on which no step panics, and the object they call for. */
  method Compile(m: Module, size: Instr -> nat) returns (r: Option<Object>)
    ensures r.Some? <==> Accepted(m)
    ensures r.Some? ==> Compilable(m) && r.value == ObjectOf(m, size)
  {
    hide HeadCode, HeadLabels, ImportCode, ImportLabels, ImportTypes, Bound, Entries, TableWords, Heights, ExportMap,
         ImportRefs, StreamOf, LabelsOf, Fix, Compilable, Accepted;
    CompilesIff(m);
    var asm := new Assembler();
    var typedefs := CollectTypes(m);
    var labels0, refs, ils, types0, count := EmitImports(m, size, asm);
    var labels1, functions, got, types := EmitTable(m, asm, labels0, types0);
    var exports := CollectExports(m.exports);
    var ok, labels2, heights := EmitBodies(m, asm, Tables(typedefs, types, ils, got), labels1);
    if !ok { return None; }
    var table := new LabelIndex[|labels2|](k requires 0 <= k < |labels2| => labels2[k]);
    assert table[..] == labels2;
    var code := Optimize(asm.instructions, table);
    var bound, bodies := BindLabels(size, code, table[..]);
    r := Some(Object(bound, functions, bodies, heights, exports, refs));
  }

  // ----- lookups -----

  /** `find_function` and `function_entry_point`, by index. */
  function EntryPoint(o: Object, f: nat): Option<nat> {
    if f in o.bodies then Some(o.bodies[f]) else None
  }

  /** By exported name: imports that are re-exported have no body here. */
  function EntryPointNamed(o: Object, name: string): Option<nat> {
    if name in o.exports then EntryPoint(o, o.exports[name]) else None
  }

  /** `function_stack_height`: only for functions that have a body. */
  function StackHeight(o: Object, f: nat): Option<nat> {
    if f in o.bodies && f in o.heights then Some(o.heights[f]) else None
  }

  function StackHeightNamed(o: Object, name: string): Option<nat> {
    if name in o.exports then StackHeight(o, o.exports[name]) else None
  }

  lemma {:induction false} HeightsAt(m: Module, k: nat, f: nat)
    requires k <= |m.bodies|
    ensures f in Heights(m, k) <==> ImportCount(m) <= f < ImportCount(m) + k
    ensures f in Heights(m, k) ==> Heights(m, k)[f] == RecordedHeight(m, f - ImportCount(m))
  {
    if k > 0 { HeightsAt(m, k - 1, f); }
  }

  /** The export map holds exactly the exported names, each with the index of its last export. */
  lemma {:induction false} ExportsAt(exports: seq<Export>, k: nat, name: string)
    requires k <= |exports|
    ensures name in ExportMap(exports, k) <==> exists i :: 0 <= i < k && exports[i].field == name
    ensures forall i ::
              0 <= i < k && exports[i].field == name && (forall j :: i < j < k ==> exports[j].field != name) ==>
              name in ExportMap(exports, k) && ExportMap(exports, k)[name] == exports[i].index
  {
    if k > 0 { ExportsAt(exports, k - 1, name); }
  }

  /** A name that is not exported leads nowhere; one exported several times leads where its last export does. */
  lemma NamedLookups(m: Module, size: Instr -> nat, name: string)
    requires Compilable(m)
    ensures (forall i :: 0 <= i < |m.exports| ==> m.exports[i].field != name) ==>
              EntryPointNamed(ObjectOf(m, size), name) == None && StackHeightNamed(ObjectOf(m, size), name) == None
    ensures forall i :: 0 <= i < |m.exports| && IsLastExport(m, i, name) ==>
              && EntryPointNamed(ObjectOf(m, size), name) == EntryPoint(ObjectOf(m, size), m.exports[i].index)
              && StackHeightNamed(ObjectOf(m, size), name) == StackHeight(ObjectOf(m, size), m.exports[i].index)
  {
    hide Entries, Heights, Fix, ImportRefs, TableWords, Bound, ExportMap;
    ExportsAt(m.exports, |m.exports|, name);
    assert ObjectOf(m, size).exports == ExportMap(m.exports, |m.exports|);
  }

  predicate IsLastExport(m: Module, i: nat, name: string)
    requires i < |m.exports|
  {
    m.exports[i].field == name && forall j :: i < j < |m.exports| ==> m.exports[j].field != name
  }

  /** Looking a function up by its exported name or by its index is the same. */
  lemma NamedEntryPoint(m: Module, size: Instr -> nat, i: nat)
    requires Compilable(m) && i < |m.exports|
    requires forall j :: 0 <= j < |m.exports| && j != i ==> m.exports[j].field != m.exports[i].field
    ensures EntryPointNamed(ObjectOf(m, size), m.exports[i].field) == EntryPoint(ObjectOf(m, size), m.exports[i].index)
  {
    hide Entries, Heights, Fix, ImportRefs, TableWords, Bound, ExportMap;
    ExportsAt(m.exports, |m.exports|, m.exports[i].field);
  }

  /**
   The export map does not record what kind of thing is exported: looking up an exported memory, table
   or global by name finds the function of the same number, so the lookup is right if and only if the
   export is a function, or no function of the module has its number.
   */
  lemma NamedLookupRightIff(m: Module, size: Instr -> nat, i: nat)
    requires Compilable(m) && SizesOk(size) && i < |m.exports|
    requires forall j :: 0 <= j < |m.exports| && j != i ==> m.exports[j].field != m.exports[i].field
    ensures var o, e := ObjectOf(m, size), m.exports[i];
            EntryPointNamed(o, e.field) == (if e.kind.FunctionExport? then EntryPoint(o, e.index) else None) <==>
            e.kind.FunctionExport? || !(ImportCount(m) <= e.index < ImportCount(m) + |m.bodies|)
  {
    hide ObjectOf, BodiesOk, SizesOk;
    NamedEntryPoint(m, size, i);
    LookupsAreExact(m, size, m.exports[i].index);
  }

  /** Byte offset of a label: the encoded size of everything before it. */
  function OffsetOf(size: Instr -> nat, p: Program, l: Label): Option<nat> {
    if l in p.labels && p.labels[l] <= |p.code| then Some(SizeOf(size, p.code[..p.labels[l]])) else None
  }

  /** Every index of a defined function, and no other, has an entry point and a height; both are its own. */
  lemma LookupsAreExact(m: Module, size: Instr -> nat, f: nat)
    requires Compilable(m) && SizesOk(size)
    ensures var o := ObjectOf(m, size);
            && (EntryPoint(o, f).Some? <==> ImportCount(m) <= f < ImportCount(m) + |m.bodies|)
            && (StackHeight(o, f).Some? <==> EntryPoint(o, f).Some?)
            && (EntryPoint(o, f).Some? ==> EntryPoint(o, f) == OffsetOf(size, Optimized(m), BodyOf(f)))
            && (EntryPoint(o, f).Some? ==> StackHeight(o, f) == Some(RecordedHeight(m, f - ImportCount(m))))
  {
    hide Entries, Heights, Fix, LabelMap, SizesOk, ImportRefs, TableWords, Bound, ExportMap, StreamOf, LabelsOf,
         BodiesOk;
    EntryPoints(m, size, f);
    HeightsAt(m, |m.bodies|, f);
  }

  lemma {:induction false} ImportRefsAt(m: Module, size: Instr -> nat, k: nat, f: nat)
    requires SizesOk(size) && k <= |m.imports|
    ensures f in ImportRefs(m, size, k) <==> f < |ImportTypes(m, k)|
    ensures f in ImportRefs(m, size, k) ==> ImportRefs(m, size, k)[f].offset == 8 * f
  {
    hide SizeOf, SizesOk, ImportCode;
    if k > 0 {
      ImportRefsAt(m, size, k - 1, f);
      ImportSizes(m, size, k - 1);
    }
  }

  /** Import `k`, if it is a function, is recorded under its function index with the module and field it names. */
  lemma {:induction false} ImportRefsNamed(m: Module, size: Instr -> nat, n: nat, k: nat)
    requires k < n <= |m.imports| && m.imports[k].FuncImport?
    ensures var f, refs := |ImportTypes(m, k)|, ImportRefs(m, size, n);
            f in refs && refs[f].from == m.imports[k].from && refs[f].field == m.imports[k].field
    decreases n
  {
    hide SizeOf, ImportCode;
    if k < n - 1 {
      ImportIndex(m, n - 1, k);
      ImportRefsNamed(m, size, n - 1, k);
    }
  }

  /** So it is in the object. */
  lemma RecordedNames(m: Module, size: Instr -> nat, k: nat)
    requires Compilable(m) && k < |m.imports| && m.imports[k].FuncImport?
    ensures var f, refs := |ImportTypes(m, k)|, ObjectOf(m, size).imports;
            f in refs && refs[f].from == m.imports[k].from && refs[f].field == m.imports[k].field
  {
    hide ImportRefs, Entries, Heights, TableWords, ExportMap, OptimizedCode, OptimizedLabels;
    ImportRefsNamed(m, size, |m.imports|, k);
  }

  /** Every defined function, and no other, has a table word: a zero quadword right behind the import slots. */
  lemma {:induction false} TableWordAt(m: Module, k: nat, f: nat)
    ensures f in TableWords(m, k) <==> ImportCount(m) <= f < ImportCount(m) + k
    ensures f in TableWords(m, k) ==>
              TableWords(m, k)[f] < |HeadCode(m, k)| && HeadCode(m, k)[TableWords(m, k)[f]] == Dq(0)
  {
    if k > 0 {
      TableWordAt(m, k - 1, f);
      HeadNext(m, k - 1);
    }
  }

  /** The offset recorded for import f before optimisation is where its slot is in the finished code. */
  lemma RecordedOffsetsAreFinal(m: Module, size: Instr -> nat, f: nat)
    requires Compilable(m) && SizesOk(size)
    ensures var o := ObjectOf(m, size);
            && (f in o.imports <==> f < ImportCount(m))
            && (f in o.imports ==> o.imports[f].offset == 8 * f)
            && (f in o.imports ==> OffsetOf(size, Optimized(m), ImportSlot(f)) == Some(o.imports[f].offset))
            && (f in o.imports ==> o.imports[f].offset + 8 <= SizeOf(size, o.code))
  {
    hide Entries, Heights, Fix, LabelMap, ImportRefs, SizeOf, SizesOk, TableWords, Bound, ExportMap, StreamOf,
         LabelsOf, BodiesOk;
    ImportRefsAt(m, size, |m.imports|, f);
    var code := OptimizedCode(m);
    if f < ImportCount(m) {
      SlotOffsets(m, size, f);
      BoundSize(size, code, OptimizedLabels(m), |code|);
      assert code[..|code|] == code;
    }
  }
}
