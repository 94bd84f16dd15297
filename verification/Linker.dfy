/** `link_import`: patching import slots in the finished binary, in place. */
module Linker {
  import opened Base
  import opened X86
  import opened Wasm
  import opened CodeGen
  import opened Binder
  import opened Assembly

  type Byte = b: int | 0 <= b < 256

  // ----- little-endian words -----

  function Pow256(n: nat): (r: nat)
    ensures r > 0
  {
    if n == 0 then 1 else 256 * Pow256(n - 1)
  }

  function Le(x: nat, n: nat): (r: seq<Byte>)
    ensures |r| == n
    decreases n
  {
    if n == 0 then [] else [x % 256] + Le(x / 256, n - 1)
  }

  function ReadLe(bytes: seq<Byte>): nat {
    if bytes == [] then 0 else bytes[0] + 256 * ReadLe(bytes[1..])
  }

  /** Writing a word and reading it back gives the word. */
  lemma {:induction false} LeRoundTrip(x: nat, n: nat)
    requires x < Pow256(n)
    ensures ReadLe(Le(x, n)) == x
    decreases n
  {
    if n > 0 {
      LeRoundTrip(x / 256, n - 1);
      assert Le(x, n)[1..] == Le(x / 256, n - 1);
    }
  }

  /** Little-endian: byte k is the k-th digit to base 256. */
  lemma {:induction false} LeByte(x: nat, n: nat, k: nat)
    requires k < n
    ensures Le(x, n)[k] == (x / Pow256(k)) % 256
    decreases n
  {
    if k > 0 {
      LeByte(x / 256, n - 1, k - 1);
      assert Le(x, n)[k] == Le(x / 256, n - 1)[k - 1];
      DivideTwice(x, Pow256(k - 1));
    } else {
      assert x / 1 == x;
    }
  }

  lemma DivideTwice(x: nat, d: nat)
    requires d > 0
    ensures (x / 256) / d == x / (256 * d)
  {
    var y, b := x / 256, x % 256;
    var q, r := y / d, y % d;
    Regroup(q, d, r, b);
    assert x == q * (256 * d) + (256 * r + b);
    Quotient(q, 256 * d, 256 * r + b);
  }

  lemma Regroup(q: nat, d: nat, r: nat, b: nat)
    ensures 256 * (q * d + r) + b == q * (256 * d) + (256 * r + b)
  {
  }

  lemma Quotient(q: nat, d: nat, y: nat)
    requires y < d
    ensures (q * d + y) / d == q
  {
    var k := (q * d + y) / d;
    assert k * d <= q * d + y < (k + 1) * d;
    if k < q { Multiples(k + 1, q, d); }
    if k > q { Multiples(q + 1, k, d); }
  }

  lemma Multiples(a: nat, b: nat, d: nat)
    requires a <= b
    ensures a * d <= b * d
  {
  }

  lemma EightBytesHoldAWord()
    ensures Pow256(8) == TWO64
  {
    assert Pow256(2) == 256 * 256 && Pow256(4) == 256 * 256 * Pow256(2);
    assert Pow256(6) == 256 * 256 * Pow256(4) && Pow256(8) == 256 * 256 * Pow256(6);
  }

  // ----- which slot -----

  /** An import is addressed by module and field; one without a field name never matches. */
  predicate Matches(i: ImportRef, from: string, name: Option<string>) {
    name.Some? && i.field == name && i.from == from
  }

  /** The lowest matching function index from `k` up. */
  function FirstMatch(imports: map<nat, ImportRef>, from: string, name: Option<string>, k: nat, n: nat): Option<nat>
    requires k <= n && forall f :: k <= f < n ==> f in imports
    decreases n - k
  {
    if k == n then None
    else if Matches(imports[k], from, name) then Some(k)
    else FirstMatch(imports, from, name, k + 1, n)
  }

  lemma {:induction false} FirstMatchIs(
    imports: map<nat, ImportRef>, from: string, name: Option<string>, k: nat, n: nat, f: nat)
    requires k <= n && forall f :: k <= f < n ==> f in imports
    ensures FirstMatch(imports, from, name, k, n) == Some(f) <==>
            k <= f < n && Matches(imports[f], from, name) && forall g :: k <= g < f ==> !Matches(imports[g], from, name)
    decreases n - k
  {
    if k < n && !Matches(imports[k], from, name) { FirstMatchIs(imports, from, name, k + 1, n, f); }
  }

  function Patch(bytes: seq<Byte>, offset: nat, word: seq<Byte>): (r: seq<Byte>)
    requires offset + |word| <= |bytes|
    ensures |r| == |bytes|
    ensures r[offset..offset + |word|] == word
    ensures forall i :: 0 <= i < |bytes| && !(offset <= i < offset + |word|) ==> r[i] == bytes[i]
  {
    bytes[..offset] + word + bytes[offset + |word|..]
  }

  /** Imports are numbered from zero and import f has its slot at byte 8f, inside the binary. */
  ghost predicate WellPlaced(imports: map<nat, ImportRef>, length: nat) {
    && (forall f :: f in imports <==> 0 <= f < |imports|)
    && (forall f :: f in imports ==> imports[f].offset == 8 * f && 8 * f + 8 <= length)
  }

  /** The binary after linking. */
  function Linked(
    bytes: seq<Byte>, imports: map<nat, ImportRef>, from: string, name: Option<string>, addr: nat): (r: seq<Byte>)
    requires WellPlaced(imports, |bytes|)
    ensures |r| == |bytes|
  {
    match FirstMatch(imports, from, name, 0, |imports|)
    case None => bytes
    case Some(f) => FirstMatchIs(imports, from, name, 0, |imports|, f); Patch(bytes, imports[f].offset, Le(addr, 8))
  }

  class AssembledModule {
    const imports: map<nat, ImportRef>
    const assembled: array<Byte>

    ghost predicate Valid() {
      WellPlaced(imports, assembled.Length)
    }

    constructor (imports: map<nat, ImportRef>, binary: seq<Byte>)
      requires WellPlaced(imports, |binary|)
      ensures Valid() && this.imports == imports && fresh(assembled) && assembled[..] == binary
    {
      this.imports := imports;
      assembled := new Byte[|binary|](i requires 0 <= i < |binary| => binary[i]);
    }

    /** Find the relocation of the lowest matching import, if any, and overwrite its eight bytes. */
    method LinkImport(from: string, name: Option<string>, addr: nat)
      requires Valid()
      modifies assembled
      ensures Valid() && assembled[..] == Linked(old(assembled[..]), imports, from, name, addr)
    {
      var relocation: Option<nat> := None;
      var n := |imports|;
      var k := 0;
      while k < n && relocation.None?
        invariant k <= n && forall f :: 0 <= f < n ==> f in imports
        invariant relocation.None? ==> FirstMatch(imports, from, name, 0, n) == FirstMatch(imports, from, name, k, n)
        invariant relocation.Some? ==>
                    k < n && FirstMatch(imports, from, name, 0, n) == Some(k) && relocation.value == imports[k].offset
        decreases n - k, relocation.None?
      {
        if Matches(imports[k], from, name) {
          relocation := Some(imports[k].offset);
        } else {
          k := k + 1;
        }
      }
      if relocation.Some? {
        WriteWord(assembled, relocation.value, addr);
      }
    }
  }

  /** `LittleEndian::write_u64`. */
  method WriteWord(a: array<Byte>, offset: nat, addr: nat)
    requires offset + 8 <= a.Length
    modifies a
    ensures a[..] == Patch(old(a[..]), offset, Le(addr, 8))
  {
    hide Le;
    ghost var was, word := a[..], Le(addr, 8);
    var x := addr;
    for i := 0 to 8
      invariant Le(x, 8 - i) == word[i..]
      invariant forall k :: 0 <= k < a.Length ==> a[k] == if offset <= k < offset + i then word[k - offset] else was[k]
    {
      LeNext(x, 8 - i);
      assert word[i..][1..] == word[i + 1..];
      a[offset + i] := x % 256;
      x := x / 256;
    }
    assert a[..] == Patch(was, offset, word);
  }

  lemma LeNext(x: nat, n: nat)
    requires n > 0
    ensures Le(x, n)[0] == x % 256 && Le(x, n)[1..] == Le(x / 256, n - 1)
  {
  }

  // ----- what linking achieves -----

  function SlotWord(bytes: seq<Byte>, f: nat): nat
    requires 8 * f + 8 <= |bytes|
  {
    ReadLe(bytes[8 * f..8 * f + 8])
  }

  /** The matched slot reads back as the address; every byte outside it, so every other slot, is as before. */
  lemma LinkSetsOneSlot(
    bytes: seq<Byte>, imports: map<nat, ImportRef>, from: string, name: Option<string>, addr: nat, f: nat)
    requires WellPlaced(imports, |bytes|) && addr < TWO64
    requires FirstMatch(imports, from, name, 0, |imports|) == Some(f)
    ensures 8 * f + 8 <= |bytes| && SlotWord(Linked(bytes, imports, from, name, addr), f) == addr
    ensures forall i :: 0 <= i < |bytes| && !(8 * f <= i < 8 * f + 8) ==>
            Linked(bytes, imports, from, name, addr)[i] == bytes[i]
    ensures forall g :: g in imports && g != f ==>
            SlotWord(Linked(bytes, imports, from, name, addr), g) == SlotWord(bytes, g)
  {
    hide Pow256, Le, ReadLe;
    FirstMatchIs(imports, from, name, 0, |imports|, f);
    EightBytesHoldAWord();
    LeRoundTrip(addr, 8);
    var linked := Linked(bytes, imports, from, name, addr);
    forall g | g in imports && g != f ensures SlotWord(linked, g) == SlotWord(bytes, g) {
      assert linked[8 * g..8 * g + 8] == bytes[8 * g..8 * g + 8];
    }
  }

  /** Links of different imports commute. */
  lemma LinksCommute(
    bytes: seq<Byte>, imports: map<nat, ImportRef>, from1: string, name1: Option<string>, addr1: nat, from2: string,
    name2: Option<string>, addr2: nat)
    requires WellPlaced(imports, |bytes|) && (from1, name1) != (from2, name2)
    ensures Linked(Linked(bytes, imports, from1, name1, addr1), imports, from2, name2, addr2) ==
            Linked(Linked(bytes, imports, from2, name2, addr2), imports, from1, name1, addr1)
  {
    hide Pow256, Le;
    var r1, r2 := FirstMatch(imports, from1, name1, 0, |imports|), FirstMatch(imports, from2, name2, 0, |imports|);
    if r1.Some? && r2.Some? {
      FirstMatchIs(imports, from1, name1, 0, |imports|, r1.value);
      FirstMatchIs(imports, from2, name2, 0, |imports|, r2.value);
      PatchesCommute(bytes, 8 * r1.value, Le(addr1, 8), 8 * r2.value, Le(addr2, 8));
    }
  }

  lemma PatchesCommute(bytes: seq<Byte>, a: nat, v: seq<Byte>, b: nat, w: seq<Byte>)
    requires a + |v| <= |bytes| && b + |w| <= |bytes| && (a + |v| <= b || b + |w| <= a)
    ensures Patch(Patch(bytes, a, v), b, w) == Patch(Patch(bytes, b, w), a, v)
  {
    var x, y := Patch(Patch(bytes, a, v), b, w), Patch(Patch(bytes, b, w), a, v);
    forall i | 0 <= i < |bytes| ensures x[i] == y[i] {
      if a <= i < a + |v| {
        assert Patch(bytes, a, v)[i] == Patch(bytes, a, v)[a..a + |v|][i - a] == v[i - a];
        assert y[i] == y[a..a + |v|][i - a] == v[i - a];
      } else if b <= i < b + |w| {
        assert Patch(bytes, b, w)[i] == Patch(bytes, b, w)[b..b + |w|][i - b] == w[i - b];
        assert x[i] == x[b..b + |w|][i - b] == w[i - b];
      }
    }
  }

  /**
   Import f can be linked at all if and only if it has a field name and no lower import has the same
   module and field: of two imports of one function only the first slot is ever patched.
   */
  lemma LinkableIff(imports: map<nat, ImportRef>, f: nat)
    requires (forall g :: g in imports <==> 0 <= g < |imports|) && f in imports
    ensures (exists from, name :: FirstMatch(imports, from, name, 0, |imports|) == Some(f)) <==>
            imports[f].field.Some? &&
            forall g :: 0 <= g < f ==> imports[g].from != imports[f].from || imports[g].field != imports[f].field
  {
    FirstMatchIs(imports, imports[f].from, imports[f].field, 0, |imports|, f);
    if from, name :| FirstMatch(imports, from, name, 0, |imports|) == Some(f) {
      FirstMatchIs(imports, from, name, 0, |imports|, f);
    }
  }

  /** Every import can be linked: they are named, and no two have the same module and field. */
  ghost predicate AllLinkable(imports: map<nat, ImportRef>) {
    && (forall f :: f in imports ==> imports[f].field.Some?)
    && (forall f, g :: f in imports && g in imports && f != g ==>
       imports[f].from != imports[g].from || imports[f].field != imports[g].field)
  }

  /** The binary after `link_import` for each of the first `k` imports, under its own name. */
  function LinkedAll(bytes: seq<Byte>, imports: map<nat, ImportRef>, addrs: seq<nat>, k: nat): (r: seq<Byte>)
    requires WellPlaced(imports, |bytes|) && k <= |imports| == |addrs|
    ensures |r| == |bytes|
  {
    if k == 0 then bytes
    else Linked(LinkedAll(bytes, imports, addrs, k - 1), imports, imports[k - 1].from, imports[k - 1].field,
      addrs[k - 1])
  }

  /** Linking import after import puts every address in its own slot. */
  lemma {:induction false} LinkAllSetsAll(
    bytes: seq<Byte>, imports: map<nat, ImportRef>, addrs: seq<nat>, k: nat, f: nat)
    requires WellPlaced(imports, |bytes|) && k <= |imports| == |addrs| && AllLinkable(imports)
    requires (forall i :: 0 <= i < |addrs| ==> addrs[i] < TWO64) && f < k
    ensures 8 * f + 8 <= |bytes| && SlotWord(LinkedAll(bytes, imports, addrs, k), f) == addrs[f]
    decreases k
  {
    hide SlotWord, Linked;
    var before, i := LinkedAll(bytes, imports, addrs, k - 1), imports[k - 1];
    FirstMatchIs(imports, i.from, i.field, 0, |imports|, k - 1);
    LinkSetsOneSlot(before, imports, i.from, i.field, addrs[k - 1], k - 1);
    if f < k - 1 { LinkAllSetsAll(bytes, imports, addrs, k - 1, f); }
  }

  /** A compiled module's import table is well placed in its binary. */
  lemma CompiledIsWellPlaced(m: Module, size: Instr -> nat)
    requires Compilable(m) && SizesOk(size)
    ensures WellPlaced(ObjectOf(m, size).imports, SizeOf(size, ObjectOf(m, size).code))
  {
    hide ObjectOf, SizesOk, SizeOf;
    var refs := ObjectOf(m, size).imports;
    forall f: nat ensures f in refs <==> f < ImportCount(m) { RecordedOffsetsAreFinal(m, size, f); }
    forall f: nat | f in refs ensures refs[f].offset == 8 * f && 8 * f + 8 <= SizeOf(size, ObjectOf(m, size).code) {
      RecordedOffsetsAreFinal(m, size, f);
    }
    KeysCount(refs, ImportCount(m));
  }

  /** Import `k` of a module's import section is a function imported as `from`.`name`. */
  predicate Imports(m: Module, k: nat, from: string, name: string) {
    k < |m.imports| && m.imports[k].FuncImport? && m.imports[k].from == from && m.imports[k].field == Some(name)
  }

  /**
   Linking a compiled module under a name written in its own import section sets the slot of the
   first function import of that name, as it reads back, and nothing else.
   */
  lemma LinkByOwnName(m: Module, size: Instr -> nat, bytes: seq<Byte>, from: string, name: string, addr: nat, k: nat)
    requires Compilable(m) && SizesOk(size) && |bytes| == SizeOf(size, ObjectOf(m, size).code) && addr < TWO64
    requires Imports(m, k, from, name) && forall i :: 0 <= i < k ==> !Imports(m, i, from, name)
    ensures var f, imports := |ImportTypes(m, k)|, ObjectOf(m, size).imports;
            && WellPlaced(imports, |bytes|) && 8 * f + 8 <= |bytes|
            && SlotWord(Linked(bytes, imports, from, Some(name), addr), f) == addr
            && forall i :: 0 <= i < |bytes| && !(8 * f <= i < 8 * f + 8) ==>
                 Linked(bytes, imports, from, Some(name), addr)[i] == bytes[i]
  {
    hide ObjectOf, SizeOf, SizesOk, SlotWord, Linked, ImportTypes, Compilable;
    var imports, f := ObjectOf(m, size).imports, |ImportTypes(m, k)|;
    CompiledIsWellPlaced(m, size);
    RecordedNames(m, size, k);
    forall g | 0 <= g < f ensures !Matches(imports[g], from, Some(name)) {
      var i := EarlierImport(m, k, g);
      RecordedNames(m, size, i);
      assert !Imports(m, i, from, name);
    }
    FirstMatchIs(imports, from, Some(name), 0, |imports|, f);
    LinkSetsOneSlot(bytes, imports, from, Some(name), addr, f);
  }

  /** Every function index below an import's own is an earlier import's. */
  lemma {:induction false} EarlierImport(m: Module, k: nat, g: nat) returns (i: nat)
    requires k <= |m.imports| && g < |ImportTypes(m, k)|
    ensures i < k && m.imports[i].FuncImport? && |ImportTypes(m, i)| == g
  {
    if g < |ImportTypes(m, k - 1)| { i := EarlierImport(m, k - 1, g); } else { i := k - 1; }
  }

  /** Under any other name nothing changes. */
  lemma LinkByOtherName(m: Module, size: Instr -> nat, bytes: seq<Byte>, from: string, name: string, addr: nat)
    requires Compilable(m) && SizesOk(size) && |bytes| == SizeOf(size, ObjectOf(m, size).code)
    requires forall k :: 0 <= k < |m.imports| ==> !Imports(m, k, from, name)
    ensures WellPlaced(ObjectOf(m, size).imports, |bytes|)
    ensures Linked(bytes, ObjectOf(m, size).imports, from, Some(name), addr) == bytes
  {
    hide ObjectOf, SizeOf, SizesOk, ImportTypes, Compilable;
    var imports := ObjectOf(m, size).imports;
    CompiledIsWellPlaced(m, size);
    var r := FirstMatch(imports, from, Some(name), 0, |imports|);
    if r.Some? {
      FirstMatchIs(imports, from, Some(name), 0, |imports|, r.value);
      RecordedOffsetsAreFinal(m, size, r.value);
      var i := EarlierImport(m, |m.imports|, r.value);
      assert !Imports(m, i, from, name);
      RecordedNames(m, size, i);
    }
  }

  lemma {:induction false} KeysCount<T>(s: map<nat, T>, n: nat)
    requires forall f: nat :: f in s <==> f < n
    ensures |s| == n
    decreases n
  {
    if n == 0 {
      assert s == map[];
    } else {
      var t := s - {n - 1};
      KeysCount(t, n - 1);
      assert s == t[n - 1 := s[n - 1]];
    }
  }
}
