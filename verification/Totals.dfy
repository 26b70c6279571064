/** Sums over sequences, for counting references and jobs. */
module Totals {

  function Total<X>(xs: seq<X>, f: X -> nat): (n: nat) {
    if xs == [] then 0 else Total(xs[..|xs| - 1], f) + f(xs[|xs| - 1])
  }

  /** How often c occurs. */
  function Mult(bs: seq<nat>, c: nat): nat { multiset(bs)[c] }

  lemma TotalSnoc<X>(xs: seq<X>, x: X, f: X -> nat)
    ensures Total(xs + [x], f) == Total(xs, f) + f(x)
  {
    assert (xs + [x])[..|xs + [x]| - 1] == xs;
  }

  lemma {:induction false} TotalHead<X>(xs: seq<X>, f: X -> nat)
    requires xs != []
    ensures Total(xs, f) == f(xs[0]) + Total(xs[1..], f)
    decreases |xs|
  {
    if |xs| > 1 {
      TotalHead(xs[..|xs| - 1], f);
      assert xs[1..][..|xs[1..]| - 1] == xs[..|xs| - 1][1..];
    } else {
      assert xs[..0] == [] && xs[1..] == [];
    }
  }

  lemma {:induction false} TotalUpdate<X>(xs: seq<X>, k: nat, x: X, f: X -> nat)
    requires k < |xs|
    ensures Total(xs, f) >= f(xs[k]) && Total(xs[k := x], f) == Total(xs, f) - f(xs[k]) + f(x)
    decreases |xs|
  {
    var n := |xs| - 1;
    if k < n {
      TotalUpdate(xs[..n], k, x, f);
      assert xs[k := x][..n] == xs[..n][k := x];
    } else {
      assert xs[k := x][..n] == xs[..n];
    }
  }

  lemma {:induction false} TotalSame<X>(xs: seq<X>, ys: seq<X>, f: X -> nat)
    requires |xs| == |ys| && forall i :: 0 <= i < |xs| ==> f(xs[i]) == f(ys[i])
    ensures Total(xs, f) == Total(ys, f)
    decreases |xs|
  {
    if xs != [] {
      TotalSame(xs[..|xs| - 1], ys[..|xs| - 1], f);
    }
  }

  /** An element contributes at most the total. */
  lemma TotalHas<X>(xs: seq<X>, k: nat, f: X -> nat)
    requires k < |xs|
    ensures f(xs[k]) <= Total(xs, f)
  {
    TotalUpdate(xs, k, xs[k], f);
  }

  /** Two different elements contribute their sum at most. */
  lemma TotalTwo<X>(xs: seq<X>, i: nat, j: nat, f: X -> nat)
    requires i < j < |xs|
    ensures f(xs[i]) + f(xs[j]) <= Total(xs, f)
  {
    assert xs == xs[..j] + xs[j..];
    TotalSplit(xs[..j], xs[j..], f);
    TotalHas(xs[..j], i, f);
    TotalHas(xs[j..], 0, f);
  }

  lemma {:induction false} TotalSplit<X>(xs: seq<X>, ys: seq<X>, f: X -> nat)
    ensures Total(xs + ys, f) == Total(xs, f) + Total(ys, f)
    decreases |ys|
  {
    if ys == [] {
      assert xs + ys == xs;
    } else {
      var n := |ys| - 1;
      TotalSplit(xs, ys[..n], f);
      assert (xs + ys)[..|xs + ys| - 1] == xs + ys[..n];
    }
  }

  lemma {:induction false} TotalZero<X>(xs: seq<X>, f: X -> nat)
    requires forall i :: 0 <= i < |xs| ==> f(xs[i]) == 0
    ensures Total(xs, f) == 0
    decreases |xs|
  {
    if xs != [] {
      TotalZero(xs[..|xs| - 1], f);
    }
  }

  /** A positive total has a positive element. */
  lemma {:induction false} TotalWitness<X>(xs: seq<X>, f: X -> nat) returns (k: nat)
    requires Total(xs, f) > 0
    ensures k < |xs| && f(xs[k]) > 0
    decreases |xs|
  {
    var n := |xs| - 1;
    if f(xs[n]) > 0 {
      k := n;
    } else {
      k := TotalWitness(xs[..n], f);
    }
  }

  lemma MultIn(bs: seq<nat>, c: nat)
    ensures Mult(bs, c) > 0 <==> c in bs
  {
  }
}
