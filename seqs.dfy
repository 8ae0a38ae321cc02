/** Accumulating a list over nested loops: the concatenation of what each element contributes. */
module Seqs {

  /** f(xs[0]) + f(xs[1]) + ...: the list a loop builds when element x appends f(x). */
  function Concat<A, B>(xs: seq<A>, f: A -> seq<B>): seq<B>
  {
    if xs == [] then [] else f(xs[0]) + Concat(xs[1..], f)
  }

  /** Concatenation is associative (stated once so that long proofs need not rediscover it). */
  lemma AppendAssoc<T>(x: seq<T>, y: seq<T>, z: seq<T>)
    ensures (x + y) + z == x + (y + z)
  {
  }

  /** What has been accumulated after position i: the contributions up to xs[i], then that of xs[i]. */
  lemma ConcatUpTo<A, B>(xs: seq<A>, i: nat, f: A -> seq<B>)
    requires i < |xs|
    ensures Concat(xs[..i + 1], f) == Concat(xs[..i], f) + f(xs[i])
  {
    assert xs[..i + 1] == xs[..i] + [xs[i]];
    ConcatAppend(xs[..i], [xs[i]], f);
    assert Concat([xs[i]], f) == f(xs[i]) + Concat([xs[i]][1..], f);
  }

  /** Accumulating over two lists one after the other gives the two results one after the other. */
  lemma {:induction false} ConcatAppend<A, B>(xs: seq<A>, ys: seq<A>, f: A -> seq<B>)
    ensures Concat(xs + ys, f) == Concat(xs, f) + Concat(ys, f)
  {
    if xs == [] {
      assert xs + ys == ys;
    } else {
      ConcatAppend(xs[1..], ys, f);
      assert (xs + ys)[0] == xs[0] && (xs + ys)[1..] == xs[1..] + ys;
      assert Concat(xs + ys, f) == f(xs[0]) + Concat(xs[1..] + ys, f);
      AppendAssoc(f(xs[0]), Concat(xs[1..], f), Concat(ys, f));
    }
  }

  /** An element that contributes nothing can be dropped wherever it stands. */
  lemma ConcatSkips<A, B>(xs: seq<A>, x: A, ys: seq<A>, f: A -> seq<B>)
    requires f(x) == []
    ensures Concat(xs + [x] + ys, f) == Concat(xs, f) + Concat(ys, f)
  {
    ConcatAppend(xs + [x], ys, f);
    ConcatAppend(xs, [x], f);
    assert Concat([x], f) == [] by {
      assert Concat([x], f) == f(x) + Concat([x][1..], f);
      assert [x][1..] == [];
    }
    assert Concat(xs + [x], f) == Concat(xs, f) + [];
  }
}
