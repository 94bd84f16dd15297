/** The spinning barrier the kernel's cores share, and counting over cores. */
module SpinBarrier {

  /** `count` cores have arrived since the last release; `generation` counts releases. */
  datatype Barrier = Barrier(size: nat, count: nat, generation: nat)

  /** The part of `wait` done under the lock on arrival: the last one in releases the others and leads. */
  function Arrive(b: Barrier): (Barrier, bool) {
    if b.count + 1 < b.size then (b.(count := b.count + 1), false)
    else (b.(count := 0, generation := b.generation + 1), true)
  }

  /** How many of the flags are set. */
  function Count(flags: seq<bool>): (r: nat)
    ensures r <= |flags|
  {
    if flags == [] then 0 else Count(flags[..|flags| - 1]) + if flags[|flags| - 1] then 1 else 0
  }

  lemma {:induction false} CountAll(flags: seq<bool>)
    ensures Count(flags) == |flags| <==> forall i :: 0 <= i < |flags| ==> flags[i]
  {
    if flags != [] { CountAll(flags[..|flags| - 1]); }
  }

  lemma {:induction false} CountNone(flags: seq<bool>)
    ensures Count(flags) == 0 <==> forall i :: 0 <= i < |flags| ==> !flags[i]
  {
    if flags != [] { CountNone(flags[..|flags| - 1]); }
  }

  lemma {:induction false} CountSet(flags: seq<bool>, i: nat)
    requires i < |flags| && !flags[i]
    ensures Count(flags[i := true]) == Count(flags) + 1
  {
    var n := |flags| - 1;
    if i == n {
      assert flags[i := true][..n] == flags[..n];
    } else {
      CountSet(flags[..n], i);
      assert flags[i := true][..n] == flags[..n][i := true];
    }
  }

  /** All flags but one are set: setting that one sets them all. */
  lemma CountLast(flags: seq<bool>, i: nat)
    requires i < |flags| && !flags[i] && Count(flags) + 1 == |flags|
    ensures forall k :: 0 <= k < |flags| && k != i ==> flags[k]
  {
    CountSet(flags, i);
    CountAll(flags[i := true]);
    forall k | 0 <= k < |flags| && k != i ensures flags[k] { assert flags[i := true][k]; }
  }

  /** A sum over cores. */
  function Total(work: seq<nat>): nat {
    if work == [] then 0 else Total(work[..|work| - 1]) + work[|work| - 1]
  }

  lemma {:induction false} TotalDrops(work: seq<nat>, i: nat, w: nat)
    requires i < |work| && w < work[i]
    ensures Total(work[i := w]) < Total(work)
  {
    var n := |work| - 1;
    if i == n {
      assert work[i := w][..n] == work[..n];
    } else {
      TotalDrops(work[..n], i, w);
      assert work[i := w][..n] == work[..n][i := w];
    }
  }

  lemma {:induction false} TotalBound(work: seq<nat>, most: nat)
    requires forall i :: 0 <= i < |work| ==> work[i] <= most
    ensures Total(work) <= |work| * most
  {
    if work != [] { TotalBound(work[..|work| - 1], most); }
  }
}
