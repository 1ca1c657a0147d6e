/** `flatMap` over sequences, the shape of every "for each item, push what it yields" loop. */
module Sequences {
  /** The concatenation, in order, of what `f` yields for each element of `xs`. */
  function FlatMap<A, B>(xs: seq<A>, f: A -> seq<B>): seq<B>
  {
    if xs == [] then [] else FlatMap(xs[..|xs| - 1], f) + f(xs[|xs| - 1])
  }

  /** The two halves of a concatenation. */
  lemma ConcatSplit<T>(x: seq<T>, y: seq<T>)
    ensures (x + y)[..|x|] == x && (x + y)[|x|..] == y
  {
  }

  /** Concatenation is associative. */
  lemma ConcatAssoc<T>(x: seq<T>, y: seq<T>, z: seq<T>)
    ensures (x + y) + z == x + (y + z)
  {
  }

  /** A prefix of the left operand is a prefix of the concatenation. */
  lemma TakeConcat<T>(x: seq<T>, y: seq<T>, n: nat)
    requires n <= |x|
    ensures (x + y)[..n] == x[..n]
  {
  }

  /** A single element yields what `f` yields for it. */
  lemma FlatMapOne<A, B>(x: A, f: A -> seq<B>)
    ensures FlatMap([x], f) == f(x)
  {
    assert [x][..0] == [];
  }

  /** One more element of the prefix appends what it yields. */
  lemma FlatMapSnoc<A, B>(xs: seq<A>, i: nat, f: A -> seq<B>)
    requires i < |xs|
    ensures FlatMap(xs[..i + 1], f) == FlatMap(xs[..i], f) + f(xs[i])
  {
    assert xs[..i + 1][..i] == xs[..i];
  }

  /** `FlatMap` distributes over concatenation. */
  lemma {:induction false} FlatMapConcat<A, B>(xs: seq<A>, ys: seq<A>, f: A -> seq<B>)
    ensures FlatMap(xs + ys, f) == FlatMap(xs, f) + FlatMap(ys, f)
    decreases |ys|
  {
    if ys == [] {
      assert xs + ys == xs;
    } else {
      var zs := xs + ys;
      var ys' := ys[..|ys| - 1];
      assert zs[..|zs| - 1] == xs + ys';
      assert zs[|zs| - 1] == ys[|ys| - 1];
      FlatMapConcat(xs, ys', f);
    }
  }

  /** Every element of `FlatMap(xs, f)` comes from `f` of some element of `xs`. */
  lemma {:induction false} FlatMapFrom<A, B>(xs: seq<A>, f: A -> seq<B>, y: B)
    requires y in FlatMap(xs, f)
    ensures exists i | 0 <= i < |xs| :: y in f(xs[i])
  {
    var init := xs[..|xs| - 1];
    if y in FlatMap(init, f) {
      FlatMapFrom(init, f, y);
      var i :| 0 <= i < |init| && y in f(init[i]);
      assert init[i] == xs[i];
    } else {
      assert y in f(xs[|xs| - 1]);
    }
  }

  /** The position of an input that yields a given element of `FlatMap(xs, f)`. */
  lemma FlatMapIndex<A, B>(xs: seq<A>, f: A -> seq<B>, y: B) returns (i: nat)
    requires y in FlatMap(xs, f)
    ensures i < |xs| && y in f(xs[i])
  {
    FlatMapFrom(xs, f, y);
    i :| 0 <= i < |xs| && y in f(xs[i]);
  }

  /** An element one of the inputs yields is in the result. */
  lemma {:induction false} FlatMapTo<A, B>(xs: seq<A>, f: A -> seq<B>, i: nat, y: B)
    requires i < |xs| && y in f(xs[i])
    ensures y in FlatMap(xs, f)
  {
    var init := xs[..|xs| - 1];
    if i < |init| {
      assert init[i] == xs[i];
      FlatMapTo(init, f, i, y);
    }
  }
}
