/** Sequence vocabulary shared by the models: flat maps, subsequences, the Option type. */
module Seqs {

  datatype Option<+T> = None | Some(value: T)

  /** Concatenates f(xs[0]), f(xs[1]), ...: what a loop that pushes f(x) for each x builds. */
  function Flat<A, B>(xs: seq<A>, f: A -> seq<B>): seq<B> {
    if xs == [] then [] else Flat(xs[..|xs| - 1], f) + f(xs[|xs| - 1])
  }

  /** Such a loop before its first turn. */
  lemma FlatNone<A, B>(xs: seq<A>, f: A -> seq<B>)
    ensures Flat(xs[..0], f) == []
  {
  }

  /** One more turn of such a loop. */
  lemma FlatStep<A, B>(xs: seq<A>, i: nat, f: A -> seq<B>)
    requires i < |xs|
    ensures Flat(xs[..i + 1], f) == Flat(xs[..i], f) + f(xs[i])
  {
    assert xs[..i + 1][..i] == xs[..i];
  }

  lemma FlatPush<A, B>(xs: seq<A>, x: A, f: A -> seq<B>)
    ensures Flat(xs + [x], f) == Flat(xs, f) + f(x)
  {
    assert (xs + [x])[..|xs|] == xs;
  }

  lemma {:induction false} FlatAppend<A, B>(xs: seq<A>, ys: seq<A>, f: A -> seq<B>)
    ensures Flat(xs + ys, f) == Flat(xs, f) + Flat(ys, f)
  {
    if ys == [] {
      assert xs + ys == xs;
    } else {
      var n := |ys| - 1;
      assert (xs + ys)[..|xs + ys| - 1] == xs + ys[..n];
      FlatAppend(xs, ys[..n], f);
    }
  }

  lemma {:induction false} FlatEmpty<A, B>(xs: seq<A>, f: A -> seq<B>)
    ensures Flat(xs, f) == [] <==> forall i :: 0 <= i < |xs| ==> f(xs[i]) == []
  {
    if xs != [] {
      FlatEmpty(xs[..|xs| - 1], f);
    }
  }

  /** Where the part of element i stands. */
  lemma FlatAround<A, B>(xs: seq<A>, i: nat, f: A -> seq<B>)
    requires i < |xs|
    ensures Flat(xs, f) == Flat(xs[..i], f) + (f(xs[i]) + Flat(xs[i + 1..], f))
  {
    hide Flat;
    assert xs == xs[..i + 1] + xs[i + 1..];
    FlatAppend(xs[..i + 1], xs[i + 1..], f);
    FlatStep(xs, i, f);
  }

  /** A flat map of a flat map is empty exactly when it is empty over each inner list. */
  lemma {:induction false} FlatFlatEmpty<A, B, C>(xs: seq<A>, f: A -> seq<B>, g: B -> seq<C>)
    ensures Flat(Flat(xs, f), g) == [] <==> forall i :: 0 <= i < |xs| ==> Flat(f(xs[i]), g) == []
  {
    hide Flat;
    FlatNone(xs, f);
    if xs == [] {
      FlatNone(Flat(xs, f), g);
      assert xs[..0] == xs && Flat(xs, f)[..0] == [];
    } else {
      var n := |xs| - 1;
      FlatStep(xs, n, f);
      assert xs[..n + 1] == xs && forall i :: 0 <= i < n ==> xs[..n][i] == xs[i];
      FlatFlatEmpty(xs[..n], f, g);
      FlatAppend(Flat(xs[..n], f), f(xs[n]), g);
    }
  }

  lemma {:induction false} FlatSame<A, B>(xs: seq<A>, f: A -> seq<B>, g: A -> seq<B>)
    requires forall i :: 0 <= i < |xs| ==> f(xs[i]) == g(xs[i])
    ensures Flat(xs, f) == Flat(xs, g)
  {
    if xs != [] {
      FlatSame(xs[..|xs| - 1], f, g);
    }
  }

  lemma {:induction false} FlatMember<A, B>(xs: seq<A>, f: A -> seq<B>, y: B)
    ensures y in Flat(xs, f) <==> exists i :: 0 <= i < |xs| && y in f(xs[i])
  {
    hide Flat;
    FlatNone(xs, f);
    if xs == [] {
      assert xs[..0] == xs;
    } else {
      var n := |xs| - 1;
      FlatStep(xs, n, f);
      FlatMember(xs[..n], f, y);
      assert xs[..n + 1] == xs && forall i :: 0 <= i < n ==> xs[..n][i] == xs[i];
    }
  }

  /** a can be obtained from b by deleting elements. */
  ghost predicate Subsequence<T>(a: seq<T>, b: seq<T>) {
    if a == [] then true
    else if b == [] then false
    else
      || Subsequence(a, b[..|b| - 1])
      || (a[|a| - 1] == b[|b| - 1] && Subsequence(a[..|a| - 1], b[..|b| - 1]))
  }

  /** Taking one element out of a sequence. */
  function Without<T>(xs: seq<T>, j: nat): (r: seq<T>)
    requires j < |xs|
    ensures |r| == |xs| - 1
  {
    xs[..j] + xs[j + 1..]
  }

  lemma WithoutOne<T>(xs: seq<T>, j: nat)
    requires j < |xs|
    ensures multiset(xs) == multiset(Without(xs, j)) + multiset{xs[j]}
  {
    assert xs == xs[..j] + [xs[j]] + xs[j + 1..];
  }
}
