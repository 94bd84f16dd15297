/** The peephole optimiser: one left-to-right pass, the label remapping it does, and the fixed point. */
module Optimizer {
  import opened X86

  datatype LabelIndex = LabelIndex(index: nat, name: Label)

  /** A label being tracked through a pass: where it was, and where it is now. */
  datatype Tracked = Tracked(original: nat, index: nat, name: Label)

  predicate IsRegMove(ins: Instr) {
    ins.MovRmR? && ins.dst.R?
  }

  predicate IsPushPop(c: seq<Instr>) {
    |c| >= 2 && c[0].Push? && c[1].Pop?
  }

  predicate IsMutualMove(c: seq<Instr>) {
    |c| >= 2 && IsRegMove(c[0]) && IsRegMove(c[1]) && c[0].dst.reg == c[1].src && c[1].dst.reg == c[0].src
  }

  predicate IsSelfMove(c: seq<Instr>) {
    |c| >= 1 && IsRegMove(c[0]) && c[0].dst.reg == c[0].src
  }

  /** What one turn of the pass does at the head of the remaining instructions. */
  datatype Rule = Keep | Fuse | DropPair | DropSelf

  function RuleAt(c: seq<Instr>): Rule
    requires c != []
  {
    if IsPushPop(c) then Fuse else if IsMutualMove(c) then DropPair else if IsSelfMove(c) then DropSelf else Keep
  }

  /** How many instructions that turn consumes. */
  function Width(c: seq<Instr>): (w: nat)
    requires c != []
    ensures 1 <= w <= 2 && w <= |c|
  {
    if RuleAt(c).Fuse? || RuleAt(c).DropPair? then 2 else 1
  }

  /** What it emits. */
  function Output(c: seq<Instr>): (r: seq<Instr>)
    requires c != []
    ensures |r| <= Width(c)
    ensures RuleAt(c).Keep? <==> |r| == Width(c)
  {
    match RuleAt(c)
    case Keep => [c[0]]
    case Fuse => [MovRmR(R(c[1].r), c[0].r)]
    case DropPair => []
    case DropSelf => []
  }

  /** One pass over the instructions. */
  function Pass(c: seq<Instr>): seq<Instr> {
    if c == [] then [] else Output(c) + Pass(c[Width(c)..])
  }

  /** Where a pass moves a label that was at index `i`. */
  function Remap(c: seq<Instr>, i: nat): nat {
    if c == [] || i < Width(c) then i else |Output(c)| + Remap(c[Width(c)..], i - Width(c))
  }

  /** Index `i` is where some turn of the pass starts, or the end of the code. */
  predicate Boundary(c: seq<Instr>, i: nat) {
    i == 0 || (c != [] && Width(c) <= i && Boundary(c[Width(c)..], i - Width(c)))
  }

  function RemapLabels(c: seq<Instr>, labels: seq<LabelIndex>): (r: seq<LabelIndex>)
    ensures |r| == |labels|
  {
    seq(|labels|, k requires 0 <= k < |labels| => labels[k].(index := Remap(c, labels[k].index)))
  }

  /** Passes until nothing changes. */
  function Fix(c: seq<Instr>, labels: seq<LabelIndex>): (seq<Instr>, seq<LabelIndex>)
    decreases |c|
  {
    PassShrinks(c);
    if Pass(c) == c then (c, RemapLabels(c, labels)) else Fix(Pass(c), RemapLabels(c, labels))
  }

  /** A pass either changes nothing or makes the code strictly shorter. */
  lemma {:induction false} PassShrinks(c: seq<Instr>)
    ensures |Pass(c)| <= |c|
    ensures |Pass(c)| == |c| <==> Pass(c) == c
  {
    hide RuleAt;
    if c != [] {
      var w, out := Width(c), Output(c);
      var rest := c[w..];
      var tail := Pass(rest);
      PassShrinks(rest);
      assert Pass(c) == out + tail;
      if |out + tail| == |c| {
        assert out == c[..1] && tail == rest;
        assert c == c[..1] + rest;
      }
    }
  }

  /**
   No push with a pop right behind it, no two moves between the same registers in turn, no move of
   a register to itself.
   */
  ghost predicate NormalForm(c: seq<Instr>) {
    && (forall i :: 0 <= i < |c| - 1 ==> !(c[i].Push? && c[i + 1].Pop?))
    && (forall i, a, b :: 0 <= i < |c| - 1 && c[i] == MovRmR(R(a), b) ==> c[i + 1] != MovRmR(R(b), a))
    && (forall i, a :: 0 <= i < |c| ==> c[i] != MovRmR(R(a), a))
  }

  /** No rule applies anywhere. */
  ghost predicate NothingApplies(c: seq<Instr>) {
    forall i :: 0 <= i < |c| ==> RuleAt(c[i..]) == Keep
  }

  lemma KeptIff(c: seq<Instr>, i: nat)
    requires i < |c|
    ensures RuleAt(c[i..]) == Keep <==>
            && !(i + 1 < |c| && c[i].Push? && c[i + 1].Pop?)
            && !(i + 1 < |c| && c[i].MovRmR? && c[i].dst.R? && c[i + 1] == MovRmR(R(c[i].src), c[i].dst.reg))
            && !(c[i].MovRmR? && c[i].dst == R(c[i].src))
  {
    var d := c[i..];
    assert d[0] == c[i] && (i + 1 < |c| ==> d[1] == c[i + 1]);
  }

  /** The rules apply nowhere exactly to the streams in normal form. */
  lemma NormalIffNothingApplies(c: seq<Instr>)
    ensures NormalForm(c) <==> NothingApplies(c)
  {
    hide RuleAt;
    if NormalForm(c) {
      forall i | 0 <= i < |c| ensures RuleAt(c[i..]) == Keep {
        KeptIff(c, i);
        if i + 1 < |c| && c[i].MovRmR? && c[i].dst.R? { assert c[i] == MovRmR(R(c[i].dst.reg), c[i].src); }
      }
    }
    if NothingApplies(c) {
      forall i | 0 <= i < |c| ensures RuleAt(c[i..]) == Keep {}
      forall i | 0 <= i < |c| - 1 ensures !(c[i].Push? && c[i + 1].Pop?) { KeptIff(c, i); }
      forall i, a, b | 0 <= i < |c| - 1 && c[i] == MovRmR(R(a), b)
        ensures c[i + 1] != MovRmR(R(b), a) { KeptIff(c, i); }
      forall i, a | 0 <= i < |c| ensures c[i] != MovRmR(R(a), a) { KeptIff(c, i); }
    }
  }

  /** The passes stop exactly at the streams in normal form. */
  lemma UnchangedIffNormal(c: seq<Instr>)
    ensures Pass(c) == c <==> NormalForm(c)
  {
    hide Pass, RuleAt;
    NormalIffNothingApplies(c);
    UnchangedIffNothingApplies(c);
  }

  lemma {:induction false} UnchangedIffNothingApplies(c: seq<Instr>)
    ensures Pass(c) == c <==> NothingApplies(c)
  {
    if c != [] {
      var w := Width(c);
      PassShrinks(c[w..]);
      assert c == c[..w] + c[w..];
      assert c[0..] == c;
      if RuleAt(c) == Keep {
        assert c[..1] == [c[0]];
        assert Pass(c)[1..] == Pass(c[1..]);
        UnchangedIffNothingApplies(c[1..]);
        forall i | 1 <= i < |c| ensures c[i..] == c[1..][i - 1..] {}
        if NothingApplies(c[1..]) {
          forall i | 0 <= i < |c| ensures RuleAt(c[i..]) == Keep {
            if i > 0 { assert RuleAt(c[1..][i - 1..]) == Keep; }
          }
        }
        if NothingApplies(c) {
          forall i | 0 <= i < |c[1..]| ensures RuleAt(c[1..][i..]) == Keep {
            assert c[1..][i..] == c[i + 1..];
          }
        }
      } else {
        assert RuleAt(c[0..]) != Keep;
        assert |Pass(c)| < |c|;
      }
    }
  }

  /** `k` passes. */
  function Passes(c: seq<Instr>, k: nat): seq<Instr>
    decreases k
  {
    if k == 0 then c else Passes(Pass(c), k - 1)
  }

  /**
   The result of the fixed point is in normal form, and it is what the passes give at every count
   from |c| on: the loop needs no more passes than there are instructions, plus the one that finds
   nothing to do.
   */
  lemma {:induction false} FixIsNormal(c: seq<Instr>, labels: seq<LabelIndex>, k: nat)
    ensures NormalForm(Fix(c, labels).0)
    ensures |Fix(c, labels).0| <= |c|
    ensures k >= |c| ==> Passes(c, k) == Fix(c, labels).0
    decreases |c|, k
  {
    PassShrinks(c);
    UnchangedIffNormal(c);
    if Pass(c) == c {
      if k > |c| {
        FixIsNormal(c, labels, k - 1);
      } else if k == |c| && k > 0 {
        Idle(c, k);
      }
    } else {
      FixIsNormal(Pass(c), RemapLabels(c, labels), if k > 0 then k - 1 else 0);
    }
  }

  lemma {:induction false} Idle(c: seq<Instr>, k: nat)
    requires Pass(c) == c
    ensures Passes(c, k) == c
    decreases k
  {
    if k > 0 { Idle(c, k - 1); }
  }

  // ----- the suffix law -----

  /** From a turn's start onward, the output is the pass of the original suffix, label map included. */
  lemma {:induction false} SuffixCommutes(c: seq<Instr>, i: nat)
    requires Boundary(c, i)
    ensures i <= |c| && Remap(c, i) <= |Pass(c)|
    ensures Pass(c)[Remap(c, i)..] == Pass(c[i..])
  {
    hide Pass, Remap, Boundary, Width, Output;
    if i > 0 {
      var w := TurnStep(c, i);
      FirstTurn(c);
      var out, tail, k := Output(c), Pass(c[w..]), Remap(c[w..], i - w);
      SuffixCommutes(c[w..], i - w);
      SliceSlice(c, w, i);
      assert (out + tail)[|out| + k..] == tail[k..];
    } else {
      RemapStart(c);
      assert c[0..] == c;
    }
  }

  lemma {:induction false} RemapFrom(c: seq<Instr>, i: nat, j: nat)
    requires Boundary(c, i) && i <= |c| && i <= j
    ensures Remap(c, j) == Remap(c, i) + Remap(c[i..], j - i)
  {
    hide Remap, Boundary, Width, Output;
    if i == 0 {
      assert c[0..] == c;
      RemapStart(c);
    } else {
      var w := TurnStep(c, i);
      TurnRemaps(c, j);
      SliceSlice(c, w, i);
      RemapFrom(c[w..], i - w, j - w);
    }
  }

  lemma SliceSlice(c: seq<Instr>, w: nat, i: nat)
    requires w <= i <= |c|
    ensures c[w..][i - w..] == c[i..]
  {
  }

  lemma RemapStart(c: seq<Instr>)
    ensures Remap(c, 0) == 0 && Boundary(c, 0)
  {
  }

  lemma TurnStep(c: seq<Instr>, i: nat) returns (w: nat)
    requires Boundary(c, i) && i > 0
    ensures c != [] && w == Width(c) && 1 <= w <= |c| && w <= i && Boundary(c[w..], i - w)
    ensures Remap(c, i) == |Output(c)| + Remap(c[w..], i - w)
  {
    w := Width(c);
  }

  lemma TurnRemaps(c: seq<Instr>, j: nat)
    requires c != [] && Width(c) <= j
    ensures Remap(c, j) == |Output(c)| + Remap(c[Width(c)..], j - Width(c))
  {
  }

  lemma FirstTurn(d: seq<Instr>)
    requires d != []
    ensures 1 <= Width(d) <= |d| && Pass(d) == Output(d) + Pass(d[Width(d)..])
    ensures Remap(d, Width(d)) == |Output(d)| && Boundary(d, Width(d))
  {
    RemapStart(d[Width(d)..]);
    TurnRemaps(d, Width(d));
  }

  /** Turns follow one another. */
  lemma {:induction false} BoundaryNext(c: seq<Instr>, i: nat)
    requires Boundary(c, i) && i < |c|
    ensures Boundary(c, i + Width(c[i..]))
    ensures Remap(c, i + Width(c[i..])) == Remap(c, i) + |Output(c[i..])|
    ensures Remap(c, i) + |Output(c[i..])| <= |Pass(c)|
    ensures Pass(c)[Remap(c, i)..Remap(c, i) + |Output(c[i..])|] == Output(c[i..])
  {
    hide Pass, Remap, Boundary, Width, Output;
    var d := c[i..];
    var out, k := Output(d), Remap(c, i);
    SuffixCommutes(c, i);
    FirstTurn(d);
    assert Pass(c)[k..k + |out|] == Pass(c)[k..][..|out|];
    RemapFrom(c, i, i + Width(d));
    BoundaryShift(c, i, Width(d));
  }

  lemma {:induction false} BoundaryShift(c: seq<Instr>, i: nat, j: nat)
    requires Boundary(c, i) && i <= |c| && Boundary(c[i..], j)
    ensures Boundary(c, i + j)
  {
    if i == 0 {
      assert c[0..] == c;
    } else {
      var w := Width(c);
      var rest := c[w..];
      assert rest[i - w..] == c[i..];
      BoundaryShift(rest, i - w, j);
      assert Boundary(rest, i + j - w);
    }
  }

  // ----- the algorithm as the source runs it -----

  /** A shift that would not take any label below zero. */
  predicate Shiftable(labels: seq<Tracked>, head: nat, count: int) {
    forall k :: 0 <= k < |labels| && labels[k].original >= head ==> labels[k].index + count >= 0
  }

  /** Every label that was at or past `head`, moved by `count`. */
  function Shifted(labels: seq<Tracked>, head: nat, count: int): (r: seq<Tracked>)
    requires Shiftable(labels, head, count)
    ensures |r| == |labels|
  {
    seq(|labels|, k requires 0 <= k < |labels| =>
      if labels[k].original >= head then labels[k].(index := labels[k].index + count) else labels[k])
  }

  /** `update_labels`, in place. */
  method UpdateLabels(labels: array<Tracked>, head: nat, count: int)
    requires Shiftable(labels[..], head, count)
    modifies labels
    ensures labels[..] == Shifted(old(labels[..]), head, count)
  {
    ghost var was := labels[..];
    ghost var goal := Shifted(was, head, count);
    for k := 0 to labels.Length
      invariant forall j :: 0 <= j < k ==> labels[j] == goal[j]
      invariant forall j :: k <= j < labels.Length ==> labels[j] == was[j]
    {
      if labels[k].original >= head {
        labels[k] := labels[k].(index := labels[k].index + count);
      }
    }
  }

  /** Where a label at original index `i` has been moved to, once the turns before `head` are done. */
  ghost function Moved(c: seq<Instr>, head: nat, i: nat): nat {
    if i < head then Remap(c, i) else i - head + Remap(c, head)
  }

  /** The tracked labels once the turns before `head` are done. */
  ghost function TrackedAt(c: seq<Instr>, head: nat, labels: seq<LabelIndex>): (r: seq<Tracked>)
    ensures |r| == |labels|
  {
    seq(|labels|, k requires 0 <= k < |labels| =>
      Tracked(labels[k].index, Moved(c, head, labels[k].index), labels[k].name))
  }

  lemma MovedStep(c: seq<Instr>, head: nat, i: nat)
    requires Boundary(c, head) && head < |c|
    ensures var w := Width(c[head..]);
            Moved(c, head + w, i) ==
            if i >= head + w then Moved(c, head, i) + |Output(c[head..])| - w else Moved(c, head, i)
  {
    BoundaryNext(c, head);
    if head <= i < head + Width(c[head..]) {
      RemapFrom(c, head, i);
    }
  }

  /** One turn of the loop, seen from the invariant. */
  lemma Turn(c: seq<Instr>, head: nat, done: seq<Instr>, labels: seq<LabelIndex>)
    requires head < |c| && Boundary(c, head) && done + Pass(c[head..]) == Pass(c)
    ensures var d := c[head..];
            var w, out := Width(d), Output(d);
            && head + w <= |c| && d[w..] == c[head + w..] && Boundary(c, head + w)
            && done + out + Pass(d[w..]) == Pass(c)
            && Shiftable(TrackedAt(c, head, labels), head + w, |out| - w)
            && TrackedAt(c, head + w, labels) == Shifted(TrackedAt(c, head, labels), head + w, |out| - w)
            && (|out| == w ==> TrackedAt(c, head + w, labels) == TrackedAt(c, head, labels))
  {
    hide Pass, Remap, Boundary, Width, Output, Moved;
    var d := c[head..];
    FirstTurn(d);
    BoundaryNext(c, head);
    assert done + (Output(d) + Pass(d[Width(d)..])) == done + Output(d) + Pass(d[Width(d)..]);
    forall k | 0 <= k < |labels| { MovedStep(c, head, labels[k].index); }
  }

  /** Before the first turn every label is where it was. */
  method Track(ghost c: seq<Instr>, labels: array<LabelIndex>) returns (tracked: array<Tracked>)
    ensures fresh(tracked) && tracked[..] == TrackedAt(c, 0, labels[..])
  {
    tracked := new Tracked[labels.Length](k requires 0 <= k < labels.Length reads labels =>
      Tracked(labels[k].index, labels[k].index, labels[k].name));
  }

  /** After the last turn the moved indices replace the old ones. */
  method WriteBack(ghost c: seq<Instr>, tracked: array<Tracked>, ghost was: seq<LabelIndex>, labels: array<LabelIndex>)
    requires tracked.Length == labels.Length == |was| && Boundary(c, |c|)
    requires tracked[..] == TrackedAt(c, |c|, was)
    modifies labels
    ensures labels[..] == RemapLabels(c, was)
  {
    ghost var goal := RemapLabels(c, was);
    for k := 0 to labels.Length
      invariant forall j :: 0 <= j < k ==> labels[j] == goal[j]
      invariant tracked[..] == TrackedAt(c, |c|, was)
    {
      RemapPastEnd(c, was[k].index);
      assert tracked[k] == tracked[..][k];
      labels[k] := LabelIndex(tracked[k].index, tracked[k].name);
    }
  }

  lemma PassNothing()
    ensures Pass([]) == []
  {
  }

  /** The rule that applies to the first instructions left: what it emits, how many it consumes. */
  method RewriteHead(head: seq<Instr>) returns (emitted: seq<Instr>, taken: nat)
    requires |head| > 0
    ensures emitted == Output(head) && taken == Width(head)
  {
    if |head| >= 2 {
      if head[0].Push? && head[1].Pop? {
        return [MovRmR(R(head[1].r), head[0].r)], 2;
      }
      if head[0].MovRmR? && head[1].MovRmR? && head[0].dst.R? && head[1].dst.R?
         && head[0].dst.reg == head[1].src && head[1].dst.reg == head[0].src {
        return [], 2;
      }
    }
    if head[0].MovRmR? && head[0].dst.R? && head[0].dst.reg == head[0].src {
      return [], 1;
    }
    return [head[0]], 1;
  }

  /** `optimize_loop`: one pass, updating the label table in place. */
  method OptimizeLoop(instructions: seq<Instr>, labels: array<LabelIndex>) returns (r: seq<Instr>)
    modifies labels
    ensures r == Pass(instructions)
    ensures labels[..] == RemapLabels(instructions, old(labels[..]))
  {
    hide Pass, Boundary, Remap, TrackedAt, Shifted, Shiftable, RemapLabels, Output, Width;
    ghost var was := labels[..];
    var tracked := Track(instructions, labels);
    RemapStart(instructions);
    r := [];
    var head, headIdx := instructions, 0;
    assert instructions[0..] == instructions && [] + Pass(head) == Pass(head);
    while |head| > 0
      invariant headIdx <= |instructions| && head == instructions[headIdx..]
      invariant Boundary(instructions, headIdx)
      invariant r + Pass(head) == Pass(instructions)
      invariant labels[..] == was && tracked[..] == TrackedAt(instructions, headIdx, was)
    {
      Turn(instructions, headIdx, r, was);
      var emitted, taken := RewriteHead(head);
      ghost var goal := TrackedAt(instructions, headIdx + taken, was);
      if |emitted| != taken {
        assert goal == Shifted(tracked[..], headIdx + taken, |emitted| - taken);
        UpdateLabels(tracked, headIdx + taken, |emitted| - taken);
      }
      assert tracked[..] == goal;
      r := r + emitted;
      head := head[taken..];
      headIdx := headIdx + taken;
    }
    PassNothing();
    assert r == r + Pass(head);
    WriteBack(instructions, tracked, was, labels);
  }

  lemma {:induction false} RemapPastEnd(c: seq<Instr>, i: nat)
    requires Boundary(c, |c|)
    ensures Moved(c, |c|, i) == Remap(c, i)
  {
    SuffixCommutes(c, |c|);
    if i >= |c| {
      RemapFrom(c, |c|, i);
    }
  }

  /** `optimize`: passes to the fixed point. */
  method Optimize(instructions: seq<Instr>, labels: array<LabelIndex>) returns (r: seq<Instr>)
    modifies labels
    ensures (r, labels[..]) == Fix(instructions, old(labels[..]))
    ensures NormalForm(r)
  {
    var current := instructions;
    ghost var was := labels[..];
    while true
      invariant Fix(current, labels[..]) == Fix(instructions, was)
      decreases |current|
    {
      ghost var before := labels[..];
      var opt := OptimizeLoop(current, labels);
      PassShrinks(current);
      if opt == current {
        FixIsNormal(current, before, 0);
        return current;
      }
      current := opt;
    }
  }
}
