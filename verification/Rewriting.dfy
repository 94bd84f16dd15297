/**
 The optimiser's rules as a rewriting system on streams: any rule at any place in any order.  Every
 way of applying them until none applies ends in the same stream, and that is what the passes give.
 */
module Rewriting {
  import opened X86
  import opened Optimizer

  /** A rule takes the adjacent instructions `l` to `r`. */
  predicate Contracts(l: seq<Instr>, r: seq<Instr>) {
    || (|l| == 2 && l[0].Push? && l[1].Pop? && r == [MovRmR(R(l[1].r), l[0].r)])
    || (|l| == 2 && l[0].MovRmR? && l[0].dst.R? && l[1] == MovRmR(R(l[0].src), l[0].dst.reg) && r == [])
    || (|l| == 1 && l[0].MovRmR? && l[0].dst == R(l[0].src) && r == [])
  }

  /** Somewhere in `c` a rule applies, and makes `d` of it. */
  ghost predicate Rewrites(c: seq<Instr>, d: seq<Instr>) {
    exists x, l, r, y :: RewritesBy(c, d, x, l, r, y)
  }

  predicate RewritesBy(c: seq<Instr>, d: seq<Instr>, x: seq<Instr>, l: seq<Instr>, r: seq<Instr>, y: seq<Instr>) {
    Contracts(l, r) && c == x + l + y && d == x + r + y
  }

  /** `n` rules, one after the other, make `d` of `c`. */
  ghost predicate Reduces(c: seq<Instr>, d: seq<Instr>, n: nat)
    decreases n
  {
    if n == 0 then c == d else exists e :: Rewrites(c, e) && Reduces(e, d, n - 1)
  }

  lemma ReducesOne(c: seq<Instr>, d: seq<Instr>)
    requires Rewrites(c, d)
    ensures Reduces(c, d, 1)
  {
    assert Reduces(d, d, 0);
  }

  lemma {:induction false} ReducesTrans(c: seq<Instr>, d: seq<Instr>, n: nat, e: seq<Instr>, k: nat)
    requires Reduces(c, d, n) && Reduces(d, e, k)
    ensures Reduces(c, e, n + k)
    decreases n
  {
    if n > 0 {
      var f :| Rewrites(c, f) && Reduces(f, d, n - 1);
      ReducesTrans(f, d, n - 1, e, k);
    }
  }

  lemma RewritesShrinks(c: seq<Instr>, d: seq<Instr>)
    requires Rewrites(c, d)
    ensures |d| < |c|
  {
    var x: seq<Instr>, l: seq<Instr>, r: seq<Instr>, y: seq<Instr> :| RewritesBy(c, d, x, l, r, y);
  }

  lemma {:induction false} ReducesShrinks(c: seq<Instr>, d: seq<Instr>, n: nat)
    requires Reduces(c, d, n)
    ensures |d| + n <= |c|
    decreases n
  {
    if n > 0 {
      var e :| Rewrites(c, e) && Reduces(e, d, n - 1);
      RewritesShrinks(c, e);
      ReducesShrinks(e, d, n - 1);
    }
  }

  lemma RewritesInside(c: seq<Instr>, d: seq<Instr>, before: seq<Instr>)
    requires Rewrites(c, d)
    ensures Rewrites(before + c, before + d)
  {
    var x: seq<Instr>, l: seq<Instr>, r: seq<Instr>, y: seq<Instr> :| RewritesBy(c, d, x, l, r, y);
    assert before + (x + l + y) == before + x + l + y && before + (x + r + y) == before + x + r + y;
    assert RewritesBy(before + c, before + d, before + x, l, r, y);
  }

  lemma {:induction false} ReducesInside(c: seq<Instr>, d: seq<Instr>, n: nat, before: seq<Instr>)
    requires Reduces(c, d, n)
    ensures Reduces(before + c, before + d, n)
    decreases n
  {
    if n > 0 {
      var e :| Rewrites(c, e) && Reduces(e, d, n - 1);
      RewritesInside(c, e, before);
      ReducesInside(e, d, n - 1, before);
    }
  }

  /** The stream is in normal form exactly if no rule applies anywhere. */
  lemma NormalIffStuck(c: seq<Instr>)
    ensures NormalForm(c) <==> forall d :: !Rewrites(c, d)
  {
    hide Rewrites, NormalForm;
    if NormalForm(c) {
      forall d ensures !Rewrites(c, d) {
        if Rewrites(c, d) { RewritesNotNormal(c, d); }
      }
    }
    if forall d :: !Rewrites(c, d) { StuckIsNormal(c); }
  }

  lemma StuckIsNormal(c: seq<Instr>)
    requires forall d :: !Rewrites(c, d)
    ensures NormalForm(c)
  {
    hide Rewrites;
    forall i | 0 <= i < |c| - 1 ensures !(c[i].Push? && c[i + 1].Pop?) {
      if c[i].Push? && c[i + 1].Pop? { Somewhere(c, i, 2, [MovRmR(R(c[i + 1].r), c[i].r)]); }
    }
    forall i, a, b | 0 <= i < |c| - 1 && c[i] == MovRmR(R(a), b) ensures c[i + 1] != MovRmR(R(b), a) {
      if c[i + 1] == MovRmR(R(b), a) { Somewhere(c, i, 2, []); }
    }
    forall i, a | 0 <= i < |c| ensures c[i] != MovRmR(R(a), a) {
      if c[i] == MovRmR(R(a), a) { Somewhere(c, i, 1, []); }
    }
  }

  lemma Somewhere(c: seq<Instr>, i: nat, w: nat, r: seq<Instr>)
    requires i + w <= |c| && Contracts(c[i..i + w], r)
    ensures Rewrites(c, c[..i] + r + c[i + w..])
  {
    assert c == c[..i] + c[i..i + w] + c[i + w..];
    assert RewritesBy(c, c[..i] + r + c[i + w..], c[..i], c[i..i + w], r, c[i + w..]);
  }

  lemma RewritesNotNormal(c: seq<Instr>, d: seq<Instr>)
    requires Rewrites(c, d)
    ensures !NormalForm(c)
  {
    var x: seq<Instr>, l: seq<Instr>, r: seq<Instr>, y: seq<Instr> :| RewritesBy(c, d, x, l, r, y);
    var i := |x|;
    assert c[i] == l[0] && (|l| == 2 ==> c[i + 1] == l[1]);
    if l[0].MovRmR? { assert c[i] == MovRmR(R(l[0].dst.reg), l[0].src); }
  }

  // ----- the passes are such a reduction -----

  /** A turn of the pass keeps its instruction or applies a rule. */
  lemma TurnContracts(c: seq<Instr>)
    requires c != []
    ensures (Output(c) == [c[0]] && Width(c) == 1) || Contracts(c[..Width(c)], Output(c))
  {
    if IsPushPop(c) || IsMutualMove(c) { assert c[..2][0] == c[0] && c[..2][1] == c[1]; }
  }

  lemma {:induction false} PassReduces(c: seq<Instr>) returns (n: nat)
    ensures Reduces(c, Pass(c), n)
    decreases |c|
  {
    hide RuleAt, Output, Width, Reduces, Contracts;
    n := 0;
    if c == [] {
      ReducesNone(c);
    } else {
      var w, out := Width(c), Output(c);
      var rest := c[w..];
      var k := PassReduces(rest);
      ReducesInside(rest, Pass(rest), k, out);
      TurnContracts(c);
      assert c == c[..w] + rest && Pass(c) == out + Pass(rest);
      n := k;
      if out == [c[0]] && w == 1 {
        assert c == out + rest;
      } else {
        assert [] + c[..w] + rest == c && [] + out + rest == out + rest;
        assert RewritesBy(c, out + rest, [], c[..w], out, rest);
        ReducesOne(c, out + rest);
        ReducesTrans(c, out + rest, 1, out + Pass(rest), k);
        n := 1 + k;
      }
    }
  }

  lemma {:induction false} FixReduces(c: seq<Instr>, labels: seq<LabelIndex>) returns (n: nat)
    ensures Reduces(c, Fix(c, labels).0, n)
    decreases |c|
  {
    hide Pass, Reduces;
    n := PassReduces(c);
    PassShrinks(c);
    if Pass(c) == c {
      n := 0;
      ReducesNone(c);
    } else {
      var k := FixReduces(Pass(c), RemapLabels(c, labels));
      ReducesTrans(c, Pass(c), n, Fix(c, labels).0, k);
      n := n + k;
    }
  }

  lemma ReducesNone(c: seq<Instr>)
    ensures Reduces(c, c, 0)
  {
  }

  // ----- in any order -----

  /** Both can be reduced to the same stream. */
  ghost predicate Joinable(c: seq<Instr>, d: seq<Instr>) {
    exists e, n, k :: Meet(c, d, e, n, k)
  }

  ghost predicate Meet(c: seq<Instr>, d: seq<Instr>, e: seq<Instr>, n: nat, k: nat) {
    Reduces(c, e, n) && Reduces(d, e, k)
  }

  lemma JoinSym(c: seq<Instr>, d: seq<Instr>)
    requires Joinable(c, d)
    ensures Joinable(d, c)
  {
    var e, n, k :| Meet(c, d, e, n, k);
    assert Meet(d, c, e, k, n);
  }

  lemma JoinSame(c: seq<Instr>)
    ensures Joinable(c, c)
  {
    assert Meet(c, c, c, 0, 0);
  }

  /** Two rules at places that do not touch. */
  lemma ApartJoins(
    x: seq<Instr>, l: seq<Instr>, r: seq<Instr>, y: seq<Instr>, l': seq<Instr>, r': seq<Instr>, z: seq<Instr>)
    requires Contracts(l, r) && Contracts(l', r')
    ensures Joinable(x + r + (y + l' + z), x + l + (y + r' + z))
  {
    var c, d, e := x + r + (y + l' + z), x + l + (y + r' + z), x + r + y + r' + z;
    assert c == x + r + y + l' + z;
    assert RewritesBy(c, e, x + r + y, l', r', z);
    assert d == x + l + (y + r' + z) && e == x + r + (y + r' + z);
    assert RewritesBy(d, e, x, l, r, y + r' + z);
    ReducesOne(c, e);
    ReducesOne(d, e);
    assert Meet(c, d, e, 1, 1);
  }

  /** A self move, however it is taken out with a neighbour, goes. */
  lemma OneMoreJoins(c: seq<Instr>, d: seq<Instr>)
    requires Rewrites(c, d)
    ensures Joinable(c, d)
  {
    ReducesOne(c, d);
    ReducesNone(d);
    assert Meet(c, d, d, 1, 0);
  }

  /** Any two ways to apply one rule to a stream can be brought together again. */
  lemma LocallyConfluent(
    c: seq<Instr>, d: seq<Instr>, x: seq<Instr>, l: seq<Instr>, r: seq<Instr>, y: seq<Instr>,
    d': seq<Instr>, x': seq<Instr>, l': seq<Instr>, r': seq<Instr>, y': seq<Instr>)
    requires RewritesBy(c, d, x, l, r, y) && RewritesBy(c, d', x', l', r', y') && |x| <= |x'|
    ensures Joinable(d, d')
  {
    hide Joinable;
    var i, j, w := |x|, |x'|, |l|;
    if i + w <= j {
      var between := c[i + w..j];
      assert x' == c[..j] == x + l + between && y == c[i + w..] == between + l' + y';
      assert d == x + r + (between + l' + y');
      assert d' == x + l + between + r' + y' == x + l + (between + r' + y');
      ApartJoins(x, l, r, between, l', r', y');
    } else {
      assert c[i] == l[0] && c[j] == l'[0];
      assert w == 2 ==> c[i + 1] == l[1];
      assert |l'| == 2 ==> c[j + 1] == l'[1];
      if i == j { SamePlace(c, d, x, l, r, y, d', x', l', r', y'); }
        else { NextPlace(c, d, x, l, r, y, d', x', l', r', y'); }
    }
  }

  lemma SamePlace(
    c: seq<Instr>, d: seq<Instr>, x: seq<Instr>, l: seq<Instr>, r: seq<Instr>, y: seq<Instr>,
    d': seq<Instr>, x': seq<Instr>, l': seq<Instr>, r': seq<Instr>, y': seq<Instr>)
    requires RewritesBy(c, d, x, l, r, y) && RewritesBy(c, d', x', l', r', y') && |x| == |x'|
    ensures Joinable(d, d')
  {
    assert x == c[..|x|];
    assert x' == c[..|x'|];
    if |l| == |l'| {
      assert l == c[|x|..|x| + |l|] == l' && y == c[|x| + |l|..] == y';
      JoinSame(d);
    } else if |l| == 2 {
      LeftOver(c, d, x, l, r, y, d', l', r', y');
    } else {
      LeftOver(c, d', x, l', r', y', d, l, r, y);
      JoinSym(d', d);
    }
  }

  /** A pair of self moves taken out at once, and the first of the two alone. */
  lemma LeftOver(
    c: seq<Instr>, d: seq<Instr>, x: seq<Instr>, l: seq<Instr>, r: seq<Instr>, y: seq<Instr>,
    d': seq<Instr>, l': seq<Instr>, r': seq<Instr>, y': seq<Instr>)
    requires RewritesBy(c, d, x, l, r, y) && RewritesBy(c, d', x, l', r', y') && |l| == 2 && |l'| == 1
    ensures Joinable(d, d')
  {
    var i := |x|;
    assert l[0] == c[i] == l'[0] && l[1] == c[i + 1];
    assert y' == c[i + 1..] == [l[1]] + y;
    assert d' == x + [l[1]] + y && d == x + [] + y;
    assert RewritesBy(d', d, x, [l[1]], [], y);
    OneMoreJoins(d', d);
    JoinSym(d', d);
  }

  lemma NextPlace(
    c: seq<Instr>, d: seq<Instr>, x: seq<Instr>, l: seq<Instr>, r: seq<Instr>, y: seq<Instr>,
    d': seq<Instr>, x': seq<Instr>, l': seq<Instr>, r': seq<Instr>, y': seq<Instr>)
    requires RewritesBy(c, d, x, l, r, y) && RewritesBy(c, d', x', l', r', y') && |x'| == |x| + 1 && |l| == 2
    ensures Joinable(d, d')
  {
    var i := |x|;
    assert l[0] == c[i] && l[1] == c[i + 1] == l'[0];
    assert x' == c[..i + 1] == x + [l[0]];
    if |l'| == 2 {
      assert l'[1] == c[i + 2] == l[0];
      assert y == c[i + 2..] == [l[0]] + y';
      assert d == x + y == x + [l[0]] + y' == d';
      JoinSame(d);
    } else {
      assert y == c[i + 2..] == y';
      assert d' == x + [l[0]] + y && d == x + [] + y;
      assert RewritesBy(d', d, x, [l[0]], [], y);
      OneMoreJoins(d', d);
      JoinSym(d', d);
    }
  }

  /** However a stream is reduced, its normal form is the same. */
  lemma {:induction false} NormalFormIsUnique(c: seq<Instr>, d: seq<Instr>, n: nat, e: seq<Instr>, k: nat)
    requires Reduces(c, d, n) && NormalForm(d) && Reduces(c, e, k) && NormalForm(e)
    ensures d == e
    decreases |c|
  {
    hide NormalForm, Joinable;
    NormalIffStuck(d);
    NormalIffStuck(e);
    if n > 0 && k > 0 {
      var d1 :| Rewrites(c, d1) && Reduces(d1, d, n - 1);
      var e1 :| Rewrites(c, e1) && Reduces(e1, e, k - 1);
      RewritesShrinks(c, d1);
      RewritesShrinks(c, e1);
      OneStepJoins(c, d1, e1);
      var f, a, b := MeetNormal(d1, e1);
      NormalFormIsUnique(d1, d, n - 1, f, a);
      NormalFormIsUnique(e1, e, k - 1, f, b);
    }
  }

  lemma OneStepJoins(c: seq<Instr>, d: seq<Instr>, e: seq<Instr>)
    requires Rewrites(c, d) && Rewrites(c, e)
    ensures Joinable(d, e)
  {
    hide Joinable, RewritesBy;
    var x: seq<Instr>, l: seq<Instr>, r: seq<Instr>, y: seq<Instr> :| RewritesBy(c, d, x, l, r, y);
    var x', l', r', y' :| RewritesBy(c, e, x', l', r', y');
    if |x| <= |x'| {
      LocallyConfluent(c, d, x, l, r, y, e, x', l', r', y');
    } else {
      LocallyConfluent(c, e, x', l', r', y', d, x, l, r, y);
      JoinSym(e, d);
    }
  }

  /** What can be brought together can be brought together in normal form. */
  lemma MeetNormal(c: seq<Instr>, d: seq<Instr>) returns (f: seq<Instr>, a: nat, b: nat)
    requires Joinable(c, d)
    ensures Reduces(c, f, a) && Reduces(d, f, b) && NormalForm(f)
  {
    hide Reduces, NormalForm, Fix;
    var e, n, k :| Meet(c, d, e, n, k);
    f := Fix(e, []).0;
    var more := FixReduces(e, []);
    FixIsNormal(e, [], 0);
    ReducesTrans(c, e, n, f, more);
    ReducesTrans(d, e, k, f, more);
    a, b := n + more, k + more;
  }

  /**
   What the optimiser gives is the stream's one normal form: it can be reached by the rules, no rule
   applies to it, and whoever applies the rules in another order until none applies gets the same.
   */
  lemma OptimizedIsTheNormalForm(c: seq<Instr>, labels: seq<LabelIndex>) returns (n: nat)
    ensures Reduces(c, Fix(c, labels).0, n) && NormalForm(Fix(c, labels).0)
    ensures forall d, k :: Reduces(c, d, k) && NormalForm(d) ==> d == Fix(c, labels).0
  {
    hide Reduces, NormalForm, Fix;
    n := FixReduces(c, labels);
    FixIsNormal(c, labels, 0);
    forall d, k | Reduces(c, d, k) && NormalForm(d) ensures d == Fix(c, labels).0 {
      NormalFormIsUnique(c, d, k, Fix(c, labels).0, n);
    }
  }
}
