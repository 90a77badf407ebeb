/** The seeded generator and the sampler of the judge comparison (scripts/judge-vs-proxy-rater.ts). */
module Sampler {
  import opened Seqs

  const TWO32 := 0x1_0000_0000

  /** The generator's state step: add an odd constant modulo 2^32. */
  function NextState(a: nat): (r: nat)
    ensures r < TWO32
  {
    (a + 0x6d2b79f5) % TWO32
  }

  /** The output mix, in 32-bit arithmetic; the returned fraction is this number over 2^32. */
  function Mix(a: bv32): bv32 {
    var t := (a ^ (a >> 15)) * (a | 1);
    var u := t ^ (t + (t ^ (t >> 7)) * (t | 61));
    u ^ (u >> 14)
  }

  function Output(a: nat): (u: nat)
    requires a < TWO32
    ensures u < TWO32
  {
    Mix(a as bv32) as nat
  }

  /** `Math.floor(rng() * length)` */
  function Index(u: nat, length: nat): nat {
    u * length / TWO32
  }

  /** The mix of the first two states from the seeds 0, 1 and 42. */
  lemma FirstOutputs()
    ensures Mix(0x6d2b79f5) == 0x4434b462 && Mix(0xda56f3ea) == 0x00159c37
    ensures Mix(0x6d2b79f6) == 0xa087eaf3 && Mix(0xda56f3eb) == 0x00b349c9
    ensures Mix(0x6d2b7a1f) == 0x99e1ef7c && Mix(0xda56f414) == 0x72c32b8a
  {
  }

  /** The output of a state is its mix, and these are the first two states from those seeds. */
  lemma OutputIsMix(b: bv32)
    ensures Output(b as nat) == Mix(b) as nat
    ensures NextState(0) == 0x6d2b79f5 && NextState(NextState(0)) == 0xda56f3ea
    ensures NextState(1) == 0x6d2b79f6 && NextState(NextState(1)) == 0xda56f3eb
    ensures NextState(42) == 0x6d2b7a1f && NextState(NextState(42)) == 0xda56f414
  {
    hide Mix;
    assert (b as nat) as bv32 == b;
  }

  class Mulberry32 {
    var a: nat

    ghost predicate Valid() reads this { a < TWO32 }

    /** `seed >>> 0` */
    constructor (seed: int)
      ensures Valid() && a == seed % TWO32
    {
      a := seed % TWO32;
    }

    method Next() returns (u: nat)
      requires Valid()
      modifies this
      ensures Valid() && a == NextState(old(a)) && u == Output(a)
    {
      a := (a + 0x6d2b79f5) % TWO32;
      u := Output(a);
    }
  }

  // --- the generator -------------------------------------------------------

  function StateAfter(a: nat, k: nat): nat {
    if k == 0 then a else NextState(StateAfter(a, k - 1))
  }

  lemma Quotient(x: int)
    ensures x == TWO32 * (x / TWO32) + x % TWO32 && 0 <= x % TWO32 < TWO32
  {
  }

  lemma Multiple(q: int)
    ensures TWO32 * q % TWO32 == 0
  {
  }

  lemma {:induction false} StateClosedForm(a: nat, k: nat)
    requires a < TWO32
    ensures StateAfter(a, k) == (a + 0x6d2b79f5 * k) % TWO32
  {
    if k > 0 {
      StateClosedForm(a, k - 1);
      var s := a + 0x6d2b79f5 * (k - 1);
      Quotient(s);
      SameResidue(s % TWO32 + 0x6d2b79f5, s + 0x6d2b79f5);
      Multiple(-(s / TWO32));
    }
  }

  /** Multiplying by the increment loses nothing modulo 2^32, because it has an inverse there. */
  lemma IncrementCancels(d: int)
    ensures 0x6d2b79f5 * d % TWO32 == 0 <==> d % TWO32 == 0
  {
    var m, n := 0x6d2b79f5 * d / TWO32, d / TWO32;
    if 0x6d2b79f5 * d % TWO32 == 0 {
      assert d == TWO32 * (3696798301 * m - 1576479847 * d);
    }
    if d % TWO32 == 0 {
      assert 0x6d2b79f5 * d == TWO32 * (0x6d2b79f5 * n);
    }
  }

  lemma SameResidue(x: int, y: int)
    ensures x % TWO32 == y % TWO32 <==> (x - y) % TWO32 == 0
  {
    var qx, qy := x / TWO32, y / TWO32;
    assert x == TWO32 * qx + x % TWO32 && y == TWO32 * qy + y % TWO32;
    if x % TWO32 == y % TWO32 {
      assert x - y == TWO32 * (qx - qy);
    }
  }

  /** Two moments of one run have the same state exactly when they are a multiple of 2^32 steps apart. */
  lemma StateRepeats(a: nat, i: nat, j: nat)
    requires a < TWO32
    ensures StateAfter(a, i) == StateAfter(a, j) <==> (i - j) % TWO32 == 0
  {
    hide StateAfter;
    StateClosedForm(a, i);
    StateClosedForm(a, j);
    SameResidue(a + 0x6d2b79f5 * i, a + 0x6d2b79f5 * j);
    IncrementCancels(i - j);
    assert 0x6d2b79f5 * (i - j) == (a + 0x6d2b79f5 * i) - (a + 0x6d2b79f5 * j);
  }

  lemma InverseStep(d: int, q: int, k: int)
    requires k == 3696798301 * d - TWO32 * q
    ensures 0x6d2b79f5 * k - d == TWO32 * (1576479847 * d - 0x6d2b79f5 * q)
  {
  }

  lemma Small(v: nat)
    ensures v < TWO32 ==> v % TWO32 == v
  {
  }

  /** Every 32-bit state is reached from every seed, so the cycle has full length. */
  lemma EveryStateReached(a: nat, v: nat) returns (k: nat)
    requires a < TWO32 && v < TWO32
    ensures k < TWO32 && StateAfter(a, k) == v
  {
    var d := v - a;
    k := 3696798301 * d % TWO32;
    StateClosedForm(a, k);
    var q := 3696798301 * d / TWO32;
    Quotient(3696798301 * d);
    InverseStep(d, q, k);
    Multiple(1576479847 * d - 0x6d2b79f5 * q);
    SameResidue(a + 0x6d2b79f5 * k, v);
    Small(v);
  }

  // --- the sampler ---------------------------------------------------------

  lemma IndexInRange(u: nat, length: nat)
    requires u < TWO32 && length > 0
    ensures Index(u, length) < length
  {
    ProductBelow(u, length);
    QuotientBelow(u * length, length);
  }

  /** The index is the floor of the fraction of the length. */
  lemma IndexIsFloor(u: nat, length: nat)
    ensures Index(u, length) * TWO32 <= u * length < (Index(u, length) + 1) * TWO32
  {
    Quotient(u * length);
  }

  lemma ProductBelow(u: nat, length: nat)
    requires u < TWO32 && length > 0
    ensures u * length < TWO32 * length
  {
    var gap := TWO32 - u;
    assert gap * length > 0;
    assert TWO32 * length == u * length + gap * length;
  }

  lemma QuotientBelow(x: nat, length: nat)
    requires x < TWO32 * length
    ensures x / TWO32 < length
  {
  }

  /** The first k picks from a list with a generator in the given state. */
  function Picks<T>(xs: seq<T>, k: nat, a: nat): seq<T>
    requires k <= |xs|
    decreases k
  {
    if k == 0 then []
    else
      var next := NextState(a);
      IndexInRange(Output(next), |xs|);
      var i := Index(Output(next), |xs|);
      [xs[i]] + Picks(Without(xs, i), k - 1, next)
  }

  function Remainder<T>(xs: seq<T>, k: nat, a: nat): seq<T>
    requires k <= |xs|
    decreases k
  {
    if k == 0 then xs
    else
      var next := NextState(a);
      IndexInRange(Output(next), |xs|);
      Remainder(Without(xs, Index(Output(next), |xs|)), k - 1, next)
  }

  function Target(n: int, length: nat): nat {
    if n < 0 then 0 else if n <= length then n else length
  }

  method Sample<T>(arr: seq<T>, n: int, rng: Mulberry32) returns (out: seq<T>)
    requires rng.Valid()
    modifies rng
    ensures rng.Valid() && rng.a == StateAfter(old(rng.a), Target(n, |arr|))
    ensures out == Picks(arr, Target(n, |arr|), old(rng.a))
    ensures |out| == if n < 0 then 0 else if n < |arr| then n else |arr|
  {
    hide Output, Index, NextState;
    var copy := arr;
    out := [];
    ghost var target := Target(n, |arr|);
    var i := 0;
    while i < (if n < |arr| then n else |arr|)
      invariant 0 <= i <= target && |out| == i && |copy| == |arr| - i && rng.Valid()
      invariant rng.a == StateAfter(old(rng.a), i)
      invariant out + Picks(copy, target - i, rng.a) == Picks(arr, target, old(rng.a))
    {
      var u := rng.Next();
      IndexInRange(u, |copy|);
      var idx := Index(u, |copy|);
      ghost var rest := Picks(Without(copy, idx), target - i - 1, rng.a);
      assert (out + [copy[idx]]) + rest == out + ([copy[idx]] + rest);
      out := out + [copy[idx]];
      copy := Without(copy, idx);
      i := i + 1;
    }
    assert out + [] == out;
  }

  /** For every list, size and state: the sample has the asked length and, with what is left, is the whole list. */
  lemma {:induction false} SamplePartitions<T>(xs: seq<T>, k: nat, a: nat)
    requires k <= |xs|
    ensures |Picks(xs, k, a)| == k
    ensures multiset(Picks(xs, k, a)) + multiset(Remainder(xs, k, a)) == multiset(xs)
    decreases k
  {
    hide *;
    if k == 0 {
      NothingPicked(xs, a);
    } else {
      PickParts(xs, k, a);
      var next := NextState(a);
      var i := Index(Output(next), |xs|);
      SamplePartitions(Without(xs, i), k - 1, next);
      WithoutOne(xs, i);
      PutBack(xs[i], Picks(Without(xs, i), k - 1, next));
    }
  }

  lemma NothingPicked<T>(xs: seq<T>, a: nat)
    ensures Picks(xs, 0, a) == [] && Remainder(xs, 0, a) == xs
  {
  }

  lemma PutBack<T>(x: T, p: seq<T>)
    ensures multiset([x] + p) == multiset(p) + multiset{x}
  {
  }

  lemma PickParts<T>(xs: seq<T>, k: nat, a: nat)
    requires 0 < k <= |xs|
    ensures
      var next := NextState(a);
      var i := Index(Output(next), |xs|);
      && i < |xs|
      && Picks(xs, k, a) == [xs[i]] + Picks(Without(xs, i), k - 1, next)
      && Remainder(xs, k, a) == Remainder(Without(xs, i), k - 1, next)
  {
    hide Output, Index, NextState;
    IndexInRange(Output(NextState(a)), |xs|);
  }
}
