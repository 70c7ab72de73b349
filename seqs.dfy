/**
 * Concatenating lists: `Flatten` joins a list of lists, and `ConcatMap` is what a
 * loop computes that extends one list by `f(x)` for every `x`, in order.
 */
module Seqs {
  /** The smaller of two lengths: how far `zip` and clamped slices reach. */
  function Min(a: int, b: int): int {
    if a <= b then a else b
  }

  function Flatten<T>(ss: seq<seq<T>>): seq<T> {
    if ss == [] then [] else ss[0] + Flatten(ss[1..])
  }

  function ConcatMap<A, B>(xs: seq<A>, f: A -> seq<B>): seq<B> {
    if xs == [] then [] else ConcatMap(xs[..|xs| - 1], f) + f(xs[|xs| - 1])
  }

  /** One more turn of the loop appends the next element's part. */
  lemma ConcatMapStep<A, B>(xs: seq<A>, f: A -> seq<B>, i: nat)
    requires i < |xs|
    ensures ConcatMap(xs[..i + 1], f) == ConcatMap(xs[..i], f) + f(xs[i])
  {
    assert xs[..i + 1][..i] == xs[..i];
  }

  /** The parts of an initial run of the elements form a prefix of the result. */
  lemma {:induction false} ConcatMapPrefix<A, B>(xs: seq<A>, f: A -> seq<B>, i: nat)
    requires i <= |xs|
    ensures |ConcatMap(xs[..i], f)| <= |ConcatMap(xs, f)|
    ensures ConcatMap(xs, f)[..|ConcatMap(xs[..i], f)|] == ConcatMap(xs[..i], f)
    decreases |xs| - i
  {
    if i == |xs| {
      assert xs[..i] == xs;
    } else {
      ConcatMapPrefix(xs, f, i + 1);
      ConcatMapStep(xs, f, i);
    }
  }

  /** Element `j` of the part of `xs[i]` sits at position `|ConcatMap(xs[..i], f)| + j`. */
  lemma ConcatMapAt<A, B>(xs: seq<A>, f: A -> seq<B>, i: nat, j: nat)
    requires i < |xs| && j < |f(xs[i])|
    ensures |ConcatMap(xs[..i], f)| + j < |ConcatMap(xs[..i + 1], f)| <= |ConcatMap(xs, f)|
    ensures ConcatMap(xs, f)[|ConcatMap(xs[..i], f)| + j] == f(xs[i])[j]
  {
    ConcatMapStep(xs, f, i);
    ConcatMapPrefix(xs, f, i + 1);
    var p := ConcatMap(xs[..i + 1], f);
    assert ConcatMap(xs, f)[|ConcatMap(xs[..i], f)| + j] == p[|ConcatMap(xs[..i], f)| + j];
  }

  /** Parts of earlier elements end no later than parts of later elements begin. */
  lemma {:induction false} ConcatMapOrdered<A, B>(xs: seq<A>, f: A -> seq<B>, i: nat, i': nat)
    requires i <= i' <= |xs|
    ensures |ConcatMap(xs[..i], f)| <= |ConcatMap(xs[..i'], f)|
    decreases i' - i
  {
    if i < i' {
      ConcatMapOrdered(xs, f, i, i' - 1);
      ConcatMapStep(xs, f, i' - 1);
    }
  }

  /** Every element of the result comes from the part of exactly one element. */
  lemma {:induction false} ConcatMapOrigin<A, B>(xs: seq<A>, f: A -> seq<B>, k: nat) returns (i: nat, j: nat)
    requires k < |ConcatMap(xs, f)|
    ensures i < |xs| && j < |f(xs[i])|
    ensures k == |ConcatMap(xs[..i], f)| + j
    ensures ConcatMap(xs, f)[k] == f(xs[i])[j]
    decreases |xs|
  {
    var n := |xs| - 1;
    var init := xs[..n];
    if k < |ConcatMap(init, f)| {
      i, j := ConcatMapOrigin(init, f, k);
      assert init[..i] == xs[..i];
      ConcatMapAt(xs, f, i, j);
    } else {
      i, j := n, k - |ConcatMap(init, f)|;
      ConcatMapAt(xs, f, i, j);
    }
  }

  lemma {:induction false} FlattenAppend<T>(a: seq<seq<T>>, b: seq<seq<T>>)
    ensures Flatten(a + b) == Flatten(a) + Flatten(b)
    decreases |a|
  {
    if a == [] {
      assert a + b == b;
    } else {
      assert (a + b)[1..] == a[1..] + b;
      FlattenAppend(a[1..], b);
    }
  }

  lemma AppendAssoc<T>(a: seq<T>, b: seq<T>, c: seq<T>)
    ensures a + (b + c) == (a + b) + c
  {
  }

  /** A two-element sequence is the display of its two elements. */
  lemma PairOf<T>(r: seq<T>, x: T, y: T)
    requires |r| == 2 && r[0] == x && r[1] == y
    ensures r == [x, y]
  {
  }
}
