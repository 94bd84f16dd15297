/** Where the compiler's labels point: every function's body and every import's slot is found by its label. */
module Placement {
  import opened X86
  import opened Wasm
  import opened Optimizer
  import opened Streams
  import opened CodeGen

  lemma AppendPlain(c: seq<Instr>, labels: seq<LabelIndex>, block: seq<Instr>)
    requires Anchored(c, labels) && block != [] && Barrier(block[|block| - 1])
    ensures Anchored(c + block, labels)
  {
  }

  lemma AppendLabelled(c: seq<Instr>, labels: seq<LabelIndex>, block: seq<Instr>, name: Label)
    requires Anchored(c, labels) && block != [] && Barrier(block[|block| - 1])
    requires forall k :: 0 <= k < |labels| ==> labels[k].name != name
    ensures Anchored(c + block, labels + [LabelIndex(|c|, name)])
  {
  }

  lemma NothingAnchored()
    ensures Anchored([], [])
  {
  }

  // ----- names -----

  lemma {:induction false} ImportNames(m: Module, k: nat)
    requires k <= |m.imports|
    ensures forall e :: 0 <= e < |ImportLabels(m, k)| ==>
              ImportLabels(m, k)[e].name.ImportSlot? && ImportLabels(m, k)[e].name.f < |ImportTypes(m, k)|
  {
    if k > 0 { ImportNames(m, k - 1); }
  }

  lemma {:induction false} Names(m: Module, k: nat)
    requires k <= |m.bodies| && Compilable(m)
    ensures forall e :: 0 <= e < |LabelsOf(m, k)| ==>
              LabelsOf(m, k)[e].name.BodyOf? ==> LabelsOf(m, k)[e].name.f < ImportCount(m) + k
  {
    hide FuncCode, BodyOk;
    if k > 0 { Names(m, k - 1); } else { ImportNames(m, |m.imports|); }
  }

  // ----- anchoring -----

  lemma {:induction false} ImportsAnchored(m: Module, k: nat)
    requires k <= |m.imports|
    ensures Anchored(ImportCode(m, k), ImportLabels(m, k))
  {
    hide Anchored;
    if k == 0 {
      NothingAnchored();
    } else {
      var c, labels := ImportCode(m, k - 1), ImportLabels(m, k - 1);
      ImportsAnchored(m, k - 1);
      AppendPlain(c, labels, [ZeroBytes]);
      if m.imports[k - 1].FuncImport? {
        ImportNames(m, k - 1);
        AppendLabelled(c + [ZeroBytes], labels, [Dq(UNLINKED)], ImportSlot(|ImportTypes(m, k - 1)|));
        assert c + [ZeroBytes] + [Dq(UNLINKED)] == ImportCode(m, k);
      } else {
        assert labels == ImportLabels(m, k);
      }
    }
  }

  lemma {:induction false} HeadAnchored(m: Module, k: nat)
    ensures Anchored(HeadCode(m, k), HeadLabels(m, k))
  {
    hide Anchored, ImportCode;
    if k == 0 {
      ImportsAnchored(m, |m.imports|);
      assert HeadCode(m, 0) == ImportCode(m, |m.imports|) && HeadLabels(m, 0) == ImportLabels(m, |m.imports|);
    } else {
      HeadAnchored(m, k - 1);
      ImportNames(m, |m.imports|);
      AppendLabelled(HeadCode(m, k - 1), HeadLabels(m, k - 1), [Dq(0)], TableEntry(ImportCount(m) + k - 1));
      assert HeadCode(m, k) == HeadCode(m, k - 1) + [Dq(0)];
      assert HeadLabels(m, k) ==
             HeadLabels(m, k - 1) + [LabelIndex(|HeadCode(m, k - 1)|, TableEntry(ImportCount(m) + k - 1))];
    }
  }

  /** The compiler's label table is in order, distinct and anchored to the stream. */
  lemma {:induction false} StreamAnchored(m: Module, k: nat)
    requires k <= |m.bodies| && Compilable(m)
    ensures Anchored(StreamOf(m, k), LabelsOf(m, k))
  {
    hide FuncCode, Anchored, BodyOk, HeadCode, HeadLabels;
    if k == 0 {
      HeadAnchored(m, |m.funcs|);
    } else {
      StreamAnchored(m, k - 1);
      Names(m, k - 1);
      CalmFunc(m, k - 1);
      AppendLabelled(StreamOf(m, k - 1), LabelsOf(m, k - 1), FuncCode(m, k - 1), BodyOf(ImportCount(m) + k - 1));
    }
  }

  // ----- finding bodies and slots -----

  function Unoptimized(m: Module): Program
    requires Compilable(m)
  {
    ProgramOf(StreamOf(m, |m.bodies|), LabelsOf(m, |m.bodies|))
  }

  /** The optimised stream and its label table. */
  function OptimizedCode(m: Module): seq<Instr>
    requires Compilable(m)
  {
    Fix(StreamOf(m, |m.bodies|), LabelsOf(m, |m.bodies|)).0
  }

  function OptimizedLabels(m: Module): seq<LabelIndex>
    requires Compilable(m)
  {
    Fix(StreamOf(m, |m.bodies|), LabelsOf(m, |m.bodies|)).1
  }

  /** What the compiler hands to the label binder. */
  function Optimized(m: Module): Program
    requires Compilable(m)
  {
    ProgramOf(OptimizedCode(m), OptimizedLabels(m))
  }

  predicate BodyAt(m: Module, p: Program, j: nat)
    requires j < |m.bodies| && BodyOk(m, j)
  {
    var l := BodyOf(ImportCount(m) + j);
    l in p.labels && CodeAt(p.code, p.labels[l], FuncCode(m, j))
  }

  /** Each defined function's label marks its own code; each import's label marks a quadword. */
  predicate Loaded(m: Module, p: Program)
    requires Compilable(m)
  {
    && (forall j :: 0 <= j < |m.bodies| ==> BodyAt(m, p, j))
    && (forall f :: 0 <= f < ImportCount(m) ==> SlotAt(p, ImportSlot(f)))
  }

  lemma {:induction false} BodyEntry(m: Module, k: nat, j: nat) returns (e: nat)
    requires j < k <= |m.bodies| && Compilable(m)
    ensures e < |LabelsOf(m, k)| && LabelsOf(m, k)[e] == LabelIndex(|StreamOf(m, j)|, BodyOf(ImportCount(m) + j))
    ensures CodeAt(StreamOf(m, k), |StreamOf(m, j)|, FuncCode(m, j))
    decreases k
  {
    hide FuncCode, BodyOk, HeadCode, HeadLabels;
    var c, d := StreamOf(m, k - 1), FuncCode(m, k - 1);
    assert StreamOf(m, k) == c + d;
    if j == k - 1 {
      e := |LabelsOf(m, k - 1)|;
      assert (c + d)[|c|..|c| + |d|] == d;
    } else {
      e := BodyEntry(m, k - 1, j);
      CodeAtAppend(c, |StreamOf(m, j)|, FuncCode(m, j), d);
    }
  }

  lemma {:induction false} SlotEntry(m: Module, k: nat, f: nat) returns (e: nat)
    requires k <= |m.imports| && f < |ImportTypes(m, k)|
    ensures e < |ImportLabels(m, k)| && ImportLabels(m, k)[e].name == ImportSlot(f)
    ensures ImportLabels(m, k)[e].index < |ImportCode(m, k)|
    ensures ImportCode(m, k)[ImportLabels(m, k)[e].index] == Dq(UNLINKED)
    decreases k
  {
    if f < |ImportTypes(m, k - 1)| {
      e := SlotEntry(m, k - 1, f);
    } else {
      e := |ImportLabels(m, k - 1)|;
    }
  }

  lemma {:induction false} HeadKept(m: Module, k: nat)
    requires k <= |m.bodies| && Compilable(m)
    ensures |HeadCode(m, |m.funcs|)| <= |StreamOf(m, k)| && HeadCode(m, |m.funcs|) <= StreamOf(m, k)
    ensures HeadLabels(m, |m.funcs|) <= LabelsOf(m, k)
  {
    hide FuncCode, BodyOk, HeadCode, HeadLabels;
    if k > 0 { HeadKept(m, k - 1); }
  }

  /** The emitted stream with its labels has every body and slot where calls look for them. */
  lemma UnoptimizedIsLoaded(m: Module)
    requires Compilable(m)
    ensures Loaded(m, Unoptimized(m))
  {
    hide LabelMap, LabelsOf, StreamOf, FuncCode, ImportCode, ImportLabels;
    var n := |m.bodies|;
    var p, labels := Unoptimized(m), LabelsOf(m, n);
    StreamAnchored(m, n);
    forall j | 0 <= j < n ensures BodyAt(m, p, j) {
      var e := BodyEntry(m, n, j);
      LabelMapOf(labels, e);
    }
    HeadKept(m, n);
    forall f | 0 <= f < ImportCount(m) ensures SlotAt(p, ImportSlot(f)) {
      var e := SlotEntry(m, |m.imports|, f);
      var entry := ImportLabels(m, |m.imports|)[e];
      assert HeadLabels(m, |m.funcs|)[e] == entry;
      assert HeadCode(m, |m.funcs|)[entry.index] == ImportCode(m, |m.imports|)[entry.index];
      LabelMapOf(labels, e);
    }
  }
}
