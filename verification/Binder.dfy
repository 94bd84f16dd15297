/** Label binding and byte offsets: where functions start and import slots lie in the finished binary. */
module Binder {
  import opened Base
  import opened X86
  import opened Wasm
  import opened Optimizer
  import opened PassSoundness
  import opened Streams
  import opened CodeGen
  import opened Placement

  /** Encoded sizes: a quadword is eight bytes, a label marker none. */
  ghost predicate SizesOk(size: Instr -> nat) {
    (forall w :: size(Dq(w)) == 8) && size(ZeroBytes) == 0
  }

  function SizeOf(size: Instr -> nat, code: seq<Instr>): nat {
    if code == [] then 0 else SizeOf(size, code[..|code| - 1]) + size(code[|code| - 1])
  }

  lemma {:induction false} SizeConcat(size: Instr -> nat, a: seq<Instr>, b: seq<Instr>)
    ensures SizeOf(size, a + b) == SizeOf(size, a) + SizeOf(size, b)
    decreases |b|
  {
    if b == [] {
      assert a + b == a;
    } else {
      assert (a + b)[..|a + b| - 1] == a + b[..|b| - 1];
      SizeConcat(size, a, b[..|b| - 1]);
    }
  }

  /** The first label at an index. */
  function FindLabel(labels: seq<LabelIndex>, i: nat): Option<Label> {
    if labels == [] then None
    else if labels[0].index == i then Some(labels[0].name)
    else FindLabel(labels[1..], i)
  }

  /** The stream with a zero-size marker before each labelled instruction, after `k` instructions. */
  function Bound(code: seq<Instr>, labels: seq<LabelIndex>, k: nat): seq<Instr>
    requires k <= |code|
  {
    if k == 0 then []
    else Bound(code, labels, k - 1) + (if FindLabel(labels, k - 1).Some? then [ZeroBytes] else []) + [code[k - 1]]
  }

  /** Entry points recorded while binding the first `k` instructions. */
  function Entries(size: Instr -> nat, code: seq<Instr>, labels: seq<LabelIndex>, k: nat): map<nat, nat>
    requires k <= |code|
  {
    if k == 0 then map[]
    else
      var before, found := Entries(size, code, labels, k - 1), FindLabel(labels, k - 1);
      if found.Some? && found.value.BodyOf? then before[found.value.f := SizeOf(size, Bound(code, labels, k - 1))]
      else before
  }

  /** Markers take no room: bound code has the encoded size of the code itself. */
  lemma {:induction false} BoundSize(size: Instr -> nat, code: seq<Instr>, labels: seq<LabelIndex>, k: nat)
    requires SizesOk(size) && k <= |code|
    ensures SizeOf(size, Bound(code, labels, k)) == SizeOf(size, code[..k])
    decreases k
  {
    hide SizeOf, SizesOk, FindLabel;
    SizeNothing(size);
    if k > 0 {
      BoundSize(size, code, labels, k - 1);
      var mark := if FindLabel(labels, k - 1).Some? then [ZeroBytes] else [];
      MarkerSize(size);
      SizeConcat(size, Bound(code, labels, k - 1), mark);
      SizeConcat(size, Bound(code, labels, k - 1) + mark, [code[k - 1]]);
      SizeConcat(size, code[..k - 1], [code[k - 1]]);
      assert code[..k] == code[..k - 1] + [code[k - 1]];
      assert Bound(code, labels, k) == Bound(code, labels, k - 1) + mark + [code[k - 1]];
    }
  }

  lemma {:induction false} FindLabelIs(labels: seq<LabelIndex>, e: nat)
    requires e < |labels| && forall j, k :: 0 <= j < k < |labels| ==> labels[j].index != labels[k].index
    ensures FindLabel(labels, labels[e].index) == Some(labels[e].name)
  {
    if e > 0 { FindLabelIs(labels[1..], e - 1); }
  }

  lemma {:induction false} FindLabelFrom(labels: seq<LabelIndex>, i: nat) returns (e: nat)
    requires FindLabel(labels, i).Some?
    ensures e < |labels| && labels[e] == LabelIndex(i, FindLabel(labels, i).value)
  {
    if labels[0].index == i {
      e := 0;
    } else {
      e := FindLabelFrom(labels[1..], i);
      e := e + 1;
    }
  }

  /** What is recorded after `k` instructions: the bodies labelled so far, each at the size before it. */
  lemma {:induction false} EntriesUpTo(size: Instr -> nat, code: seq<Instr>, labels: seq<LabelIndex>, k: nat, f: nat)
    requires SizesOk(size) && Anchored(code, labels) && k <= |code|
    ensures f in Entries(size, code, labels, k) <==>
            BodyOf(f) in LabelMap(labels) && LabelMap(labels)[BodyOf(f)] < k
    ensures f in Entries(size, code, labels, k) ==>
            Entries(size, code, labels, k)[f] == SizeOf(size, code[..LabelMap(labels)[BodyOf(f)]])
    decreases k
  {
    hide LabelMap, SizeOf, Bound, FindLabel, SizesOk;
    if k > 0 {
      EntriesUpTo(size, code, labels, k - 1, f);
      BoundSize(size, code, labels, k - 1);
      if FindLabel(labels, k - 1).Some? {
        var e := FindLabelFrom(labels, k - 1);
        LabelMapOf(labels, e);
      }
      if BodyOf(f) in LabelMap(labels) && LabelMap(labels)[BodyOf(f)] == k - 1 {
        LabelMapEntries(labels, BodyOf(f));
        var e :| 0 <= e < |labels| && labels[e] == LabelIndex(k - 1, BodyOf(f));
        FindLabelIs(labels, e);
      }
    }
  }

  // ----- finished modules -----

  lemma OptimizedAnchored(m: Module)
    requires Compilable(m)
    ensures Anchored(OptimizedCode(m), OptimizedLabels(m))
    ensures |OptimizedLabels(m)| == |LabelsOf(m, |m.bodies|)|
    ensures forall e :: 0 <= e < |OptimizedLabels(m)| ==> OptimizedLabels(m)[e].name == LabelsOf(m, |m.bodies|)[e].name
  {
    StreamAnchored(m, |m.bodies|);
    FixKeepsAnchors(StreamOf(m, |m.bodies|), LabelsOf(m, |m.bodies|));
  }

  ghost predicate HasLabel(labels: seq<LabelIndex>, l: Label) {
    exists e :: 0 <= e < |labels| && labels[e].name == l
  }

  lemma HasLabelAppend(labels: seq<LabelIndex>, last: LabelIndex, l: Label)
    ensures HasLabel(labels + [last], l) <==> HasLabel(labels, l) || last.name == l
  {
    var all := labels + [last];
    assert all[|labels|] == last;
    if HasLabel(labels, l) {
      var e :| 0 <= e < |labels| && labels[e].name == l;
      assert all[e].name == l;
    }
  }

  lemma HeadHasNoBody(m: Module, f: nat)
    ensures !HasLabel(HeadLabels(m, |m.funcs|), BodyOf(f))
  {
    ImportNames(m, |m.imports|);
  }

  lemma {:induction false} BodyLabelIff(m: Module, k: nat, f: nat)
    requires Compilable(m) && k <= |m.bodies|
    ensures HasLabel(LabelsOf(m, k), BodyOf(f)) <==> ImportCount(m) <= f < ImportCount(m) + k
  {
    hide HasLabel, StreamOf, HeadLabels;
    if k == 0 {
      HeadHasNoBody(m, f);
    } else {
      BodyLabelIff(m, k - 1, f);
      HasLabelAppend(LabelsOf(m, k - 1), LabelIndex(|StreamOf(m, k - 1)|, BodyOf(ImportCount(m) + k - 1)), BodyOf(f));
    }
  }

  /**
   Every defined function, and nothing else, gets an entry point, and it is the encoded size of
   everything before the function's optimised code.
   */
  lemma EntryPoints(m: Module, size: Instr -> nat, f: nat)
    requires Compilable(m) && SizesOk(size)
    ensures var code, labels := OptimizedCode(m), OptimizedLabels(m);
            var entries := Entries(size, code, labels, |code|);
            && (f in entries <==> ImportCount(m) <= f < ImportCount(m) + |m.bodies|)
            && (f in entries ==>
                  && BodyOf(f) in LabelMap(labels) && LabelMap(labels)[BodyOf(f)] < |code|
                  && entries[f] == SizeOf(size, code[..LabelMap(labels)[BodyOf(f)]]))
  {
    hide LabelMap, Fix, Entries, SizesOk, LabelsOf, StreamOf;
    var code, labels, source := OptimizedCode(m), OptimizedLabels(m), LabelsOf(m, |m.bodies|);
    OptimizedAnchored(m);
    EntriesUpTo(size, code, labels, |code|, f);
    BodyLabelIff(m, |m.bodies|, f);
    LabelMapEntries(labels, BodyOf(f));
    if BodyOf(f) in LabelMap(labels) {
      var e :| 0 <= e < |labels| && labels[e] == LabelIndex(LabelMap(labels)[BodyOf(f)], BodyOf(f));
      assert source[e].name == BodyOf(f);
    }
    if e :| 0 <= e < |source| && source[e].name == BodyOf(f) {
      assert labels[e].name == BodyOf(f);
      LabelMapOf(labels, e);
    }
  }

  // ----- import slots -----

  /** A run of barriers at the start of the code stays put through a pass, labels and all. */
  lemma {:induction false} BarrierPrefix(c: seq<Instr>, k: nat)
    requires k <= |c| && forall i :: 0 <= i < k ==> Barrier(c[i])
    ensures Boundary(c, k) && Remap(c, k) == k && k <= |Pass(c)| && Pass(c)[..k] == c[..k]
    decreases k
  {
    if k == 0 {
      RemapStart(c);
    } else {
      BarrierPrefix(c, k - 1);
      BarrierIsKept(c, k - 1);
      KeptAt(c, k - 1);
      assert Pass(c)[..k] == Pass(c)[..k - 1] + [Pass(c)[k - 1]];
      assert c[..k] == c[..k - 1] + [c[k - 1]];
    }
  }

  lemma {:induction false} FixKeepsPrefix(c: seq<Instr>, labels: seq<LabelIndex>, k: nat, e: nat)
    requires k <= |c| && (forall i :: 0 <= i < k ==> Barrier(c[i])) && e < |labels| && labels[e].index < k
    ensures |Fix(c, labels).1| == |labels| && Fix(c, labels).1[e] == labels[e]
    ensures k <= |Fix(c, labels).0| && Fix(c, labels).0[..k] == c[..k]
    decreases |c|
  {
    hide Remap, Pass, Boundary;
    BarrierPrefix(c, k);
    BarrierPrefix(c, labels[e].index);
    PassShrinks(c);
    assert RemapLabels(c, labels)[e] == labels[e];
    if Pass(c) != c {
      forall i | 0 <= i < k ensures Barrier(Pass(c)[i]) { assert Pass(c)[..k][i] == c[..k][i]; }
      FixKeepsPrefix(Pass(c), RemapLabels(c, labels), k, e);
    }
  }

  lemma {:induction false} ImportSizes(m: Module, size: Instr -> nat, k: nat)
    requires SizesOk(size) && k <= |m.imports|
    ensures SizeOf(size, ImportCode(m, k)) == 8 * |ImportTypes(m, k)|
    ensures forall i :: 0 <= i < |ImportCode(m, k)| ==> Barrier(ImportCode(m, k)[i])
  {
    hide SizeOf, SizesOk;
    SizeNothing(size);
    SlotSizes(size);
    if k > 0 {
      ImportSizes(m, size, k - 1);
      var slot := if m.imports[k - 1].FuncImport? then [ZeroBytes, Dq(UNLINKED)] else [ZeroBytes];
      SizeConcat(size, ImportCode(m, k - 1), slot);
    }
  }

  lemma SlotSizes(size: Instr -> nat)
    requires SizesOk(size)
    ensures SizeOf(size, [ZeroBytes, Dq(UNLINKED)]) == 8 && SizeOf(size, [ZeroBytes]) == 0
  {
    assert [ZeroBytes, Dq(UNLINKED)][..1] == [ZeroBytes] && [ZeroBytes][..0] == [];
  }

  lemma {:induction false} SlotPosition(m: Module, size: Instr -> nat, k: nat, f: nat) returns (e: nat)
    requires SizesOk(size) && k <= |m.imports| && f < |ImportTypes(m, k)|
    ensures e < |ImportLabels(m, k)| && ImportLabels(m, k)[e].name == ImportSlot(f)
    ensures ImportLabels(m, k)[e].index < |ImportCode(m, k)|
    ensures SizeOf(size, ImportCode(m, k)[..ImportLabels(m, k)[e].index]) == 8 * f
    decreases k
  {
    hide SizesOk, SizeOf;
    var c := ImportCode(m, k - 1);
    if f < |ImportTypes(m, k - 1)| {
      e := SlotPosition(m, size, k - 1, f);
      var i := ImportLabels(m, k - 1)[e].index;
      assert c <= ImportCode(m, k);
      assert ImportCode(m, k)[..i] == c[..i];
    } else {
      e := |ImportLabels(m, k - 1)|;
      ImportSizes(m, size, k - 1);
      MarkerSize(size);
      SizeConcat(size, c, [ZeroBytes]);
      assert ImportCode(m, k)[..|c| + 1] == c + [ZeroBytes];
    }
  }

  /** Sizes add up instruction by instruction, whatever the instructions. */
  lemma SizeAdds(size: Instr -> nat, code: seq<Instr>, ins: Instr)
    ensures SizeOf(size, []) == 0 && SizeOf(size, code + [ins]) == SizeOf(size, code) + size(ins)
  {
    assert (code + [ins])[..|code|] == code;
  }

  lemma SizeNothing(size: Instr -> nat)
    ensures SizeOf(size, []) == 0
  {
  }

  lemma MarkerSize(size: Instr -> nat)
    requires SizesOk(size)
    ensures SizeOf(size, [ZeroBytes]) == 0
  {
    assert [ZeroBytes][..0] == [];
  }

  /**
   Import slots survive optimisation: the slot label of function import f marks a quadword at byte
   8f of the finished code, so slots are disjoint, in order and at the front; until it is linked it
   holds the placeholder.
   */
  lemma SlotOffsets(m: Module, size: Instr -> nat, f: nat)
    requires Compilable(m) && SizesOk(size) && f < ImportCount(m)
    ensures var code, labels := OptimizedCode(m), LabelMap(OptimizedLabels(m));
            && ImportSlot(f) in labels && labels[ImportSlot(f)] < |code|
            && code[labels[ImportSlot(f)]] == Dq(0xBADC0FFEE0DDF00D)
            && SizeOf(size, code[..labels[ImportSlot(f)]]) == 8 * f
            && 8 * f + 8 <= SizeOf(size, code)
  {
    hide LabelMap, Fix, SizesOk, SizeOf, StreamOf, LabelsOf;
    var n := |m.imports|;
    var imports, k := ImportCode(m, n), |ImportCode(m, n)|;
    var e := SlotPosition(m, size, n, f);
    var e2 := SlotEntry(m, n, f);
    var i := ImportLabels(m, n)[e].index;
    var source, labels := StreamOf(m, |m.bodies|), LabelsOf(m, |m.bodies|);
    HeadKept(m, |m.bodies|);
    assert source[..k] == imports && labels[e] == ImportLabels(m, n)[e];
    assert labels[e2] == ImportLabels(m, n)[e2];
    StreamAnchored(m, |m.bodies|);
    LabelMapOf(labels, e);
    LabelMapOf(labels, e2);
    ImportSizes(m, size, n);
    forall x | 0 <= x < k ensures Barrier(source[x]) { assert source[..k][x] == imports[x]; }
    FixKeepsPrefix(source, labels, k, e);
    OptimizedAnchored(m);
    LabelMapOf(OptimizedLabels(m), e);
    var code := OptimizedCode(m);
    assert code[..i] == code[..k][..i] == imports[..i];
    assert code[i] == code[..k][i] == imports[i];
    SlotFits(size, code, i);
  }

  lemma {:induction false} TableSizes(size: Instr -> nat, k: nat)
    requires SizesOk(size)
    ensures SizeOf(size, TableCode(k)) == 8 * k
  {
    if k > 0 {
      TableSizes(size, k - 1);
      assert TableCode(k)[..k - 1] == TableCode(k - 1);
    }
  }

  /** The function table, too, stays where it was emitted: a zero word per defined function behind the slots. */
  lemma TableOffsets(m: Module, size: Instr -> nat, i: nat)
    requires Compilable(m) && SizesOk(size) && i < |m.funcs|
    ensures var code, labels, l := OptimizedCode(m), LabelMap(OptimizedLabels(m)), TableEntry(ImportCount(m) + i);
            && l in labels && labels[l] < |code| && code[labels[l]] == Dq(0)
            && SizeOf(size, code[..labels[l]]) == 8 * (ImportCount(m) + i)
  {
    hide LabelMap, Fix, SizesOk, SizeOf, StreamOf, LabelsOf, ImportCode, ImportLabels, Bound;
    var head, n := HeadCode(m, |m.funcs|), |m.imports|;
    var k, at, e := |head|, |ImportCode(m, n)| + i, |ImportLabels(m, n)| + i;
    var source, labels := StreamOf(m, |m.bodies|), LabelsOf(m, |m.bodies|);
    HeadKept(m, |m.bodies|);
    assert source[..k] == head && labels[e] == HeadLabels(m, |m.funcs|)[e];
    StreamAnchored(m, |m.bodies|);
    ImportSizes(m, size, n);
    forall x | 0 <= x < k ensures Barrier(source[x]) { assert source[..k][x] == head[x]; }
    FixKeepsPrefix(source, labels, k, e);
    OptimizedAnchored(m);
    LabelMapOf(OptimizedLabels(m), e);
    var code := OptimizedCode(m);
    assert code[..at] == code[..k][..at] == head[..at];
    assert code[at] == code[..k][at] == head[at];
    assert head[..at] == ImportCode(m, n) + TableCode(i);
    SizeConcat(size, ImportCode(m, n), TableCode(i));
    TableSizes(size, i);
  }

  lemma SlotFits(size: Instr -> nat, code: seq<Instr>, i: nat)
    requires SizesOk(size) && i < |code| && code[i].Dq?
    ensures SizeOf(size, code[..i]) + 8 <= SizeOf(size, code)
  {
    SizeConcat(size, code[..i + 1], code[i + 1..]);
    assert code[..i + 1] + code[i + 1..] == code;
    assert code[..i + 1][..i] == code[..i];
  }
}
