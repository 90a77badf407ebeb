/** Per-category and per-difficulty score sums of a benchmark run (benchmarks/runner.ts). */
module Scores {
  import opened Seqs
  import opened MapSums
  import opened RunStore
  import opened Runner
  import opened CrashResume

  datatype Tally = Tally(sum: int, count: nat)
  type Tallies = map<string, Tally>

  function Bump(m: Tallies, key: string, score: int): Tallies {
    var t := if key in m then m[key] else Tally(0, 0);
    m[key := Tally(t.sum + score, t.count + 1)]
  }

  /** The tallies of the first n results under their benchmarks' keys. */
  function Tallied(keys: seq<string>, scores: seq<int>, n: nat): Tallies
    requires n <= |keys| && n <= |scores|
  {
    if n == 0 then map[] else Bump(Tallied(keys, scores, n - 1), keys[n - 1], scores[n - 1])
  }

  function Categories(bs: seq<Bench>): (keys: seq<string>)
    ensures |keys| == |bs| && forall i :: 0 <= i < |bs| ==> keys[i] == bs[i].category
  {
    seq(|bs|, i requires 0 <= i < |bs| => bs[i].category)
  }

  function Difficulties(bs: seq<Bench>): (keys: seq<string>)
    ensures |keys| == |bs| && forall i :: 0 <= i < |bs| ==> keys[i] == bs[i].difficulty
  {
    seq(|bs|, i requires 0 <= i < |bs| => bs[i].difficulty)
  }

  function ScoresOf(results: seq<Item>): (scores: seq<int>)
    ensures |scores| == |results| && forall i :: 0 <= i < |scores| ==> scores[i] == results[i].outcome.score
  {
    seq(|results|, i requires 0 <= i < |results| => results[i].outcome.score)
  }

  /** The index-based aggregation loop: results[i] is counted under benchmarks[i]. */
  method Aggregate(bs: seq<Bench>, results: seq<Item>) returns (byCategory: Tallies, byDifficulty: Tallies, total: int)
    requires |results| == |bs|
    ensures byCategory == Tallied(Categories(bs), ScoresOf(results), |bs|)
    ensures byDifficulty == Tallied(Difficulties(bs), ScoresOf(results), |bs|)
    ensures total == Sum(ScoresOf(results), |bs|)
  {
    byCategory, byDifficulty, total := map[], map[], 0;
    for i := 0 to |bs|
      invariant byCategory == Tallied(Categories(bs), ScoresOf(results), i)
      invariant byDifficulty == Tallied(Difficulties(bs), ScoresOf(results), i)
      invariant total == Sum(ScoresOf(results), i)
    {
      byCategory := Bump(byCategory, bs[i].category, results[i].outcome.score);
      byDifficulty := Bump(byDifficulty, bs[i].difficulty, results[i].outcome.score);
      total := total + results[i].outcome.score;
    }
  }

  function Sum(scores: seq<int>, n: nat): int
    requires n <= |scores|
  {
    if n == 0 then 0 else Sum(scores, n - 1) + scores[n - 1]
  }

  function SumFor(keys: seq<string>, scores: seq<int>, key: string, n: nat): Tally
    requires n <= |keys| && n <= |scores|
  {
    if n == 0 then Tally(0, 0)
    else
      var t := SumFor(keys, scores, key, n - 1);
      if keys[n - 1] == key then Tally(t.sum + scores[n - 1], t.count + 1) else t
  }

  /** Sums of like scores, and of one list after another: together these fix every sum. */
  lemma {:induction false} SumMeaning(a: seq<int>, b: seq<int>, n: nat)
    requires n <= |b|
    ensures Sum(a + b, |a| + n) == Sum(a, |a|) + Sum(b, n)
    ensures forall v :: (forall i :: 0 <= i < n ==> b[i] == v) ==> Sum(b, n) == n * v
  {
    if n > 0 {
      SumMeaning(a, b, n - 1);
      forall v | forall i :: 0 <= i < n ==> b[i] == v
        ensures Sum(b, n) == n * v
      {
        assert n * v == (n - 1) * v + v;
      }
    } else {
      SumOfPart(a + b, a, |a|);
    }
  }

  lemma {:induction false} SumOfPart(longer: seq<int>, shorter: seq<int>, n: nat)
    requires shorter <= longer && n <= |shorter|
    ensures Sum(longer, n) == Sum(shorter, n)
  {
    if n > 0 {
      SumOfPart(longer, shorter, n - 1);
    }
  }

  ghost function Under(keys: seq<string>, key: string, n: nat): set<int>
    requires n <= |keys|
  {
    set i | 0 <= i < n && keys[i] == key
  }

  function Masked(keys: seq<string>, scores: seq<int>, key: string): (masked: seq<int>)
    requires |keys| == |scores|
  {
    seq(|keys|, i requires 0 <= i < |keys| => if keys[i] == key then scores[i] else 0)
  }

  /** A group's count is how many results stand under its key, its sum that of the scores with all others struck out. */
  lemma {:induction false} GroupMeaning(keys: seq<string>, scores: seq<int>, n: nat, key: string)
    requires |keys| == |scores| && n <= |keys|
    ensures SumFor(keys, scores, key, n) == Tally(Sum(Masked(keys, scores, key), n), |Under(keys, key, n)|)
  {
    if n == 0 {
      assert Under(keys, key, n) == {};
    } else {
      GroupMeaning(keys, scores, n - 1, key);
      assert Under(keys, key, n) == Under(keys, key, n - 1) + if keys[n - 1] == key then {n - 1} else {};
    }
  }

  /** A key's tally is the sum and count of exactly the scores under that key. */
  lemma {:induction false} TallyExact(keys: seq<string>, scores: seq<int>, n: nat, key: string)
    requires n <= |keys| && n <= |scores|
    ensures
      var m := Tallied(keys, scores, n);
      && (key in m <==> key in keys[..n])
      && (key in m ==> m[key] == SumFor(keys, scores, key, n))
      && (key !in m ==> SumFor(keys, scores, key, n) == Tally(0, 0))
  {
    if n > 0 {
      TallyExact(keys, scores, n - 1, key);
      assert keys[..n] == keys[..n - 1] + [keys[n - 1]];
    }
  }

  function SumOf(): Tally -> int { (t: Tally) => t.sum }
  function CountOf(): Tally -> int { (t: Tally) => t.count }

  ghost predicate GroupsSumTo(groups: Tallies, total: int, count: nat) {
    Total(groups, SumOf()) == total && Total(groups, CountOf()) == count
  }

  /** However results are grouped, the groups' sums add up to the overall sum and their counts to all results. */
  lemma {:induction false} GroupsAddUp(keys: seq<string>, scores: seq<int>, n: nat)
    requires n <= |keys| && n <= |scores|
    ensures GroupsSumTo(Tallied(keys, scores, n), Sum(scores, n), n)
  {
    var sum, count := SumOf(), CountOf();
    if n > 0 {
      GroupsAddUp(keys, scores, n - 1);
      var before, key := Tallied(keys, scores, n - 1), keys[n - 1];
      TotalUpdate(before, key, Bump(before, key, scores[n - 1])[key], sum);
      TotalUpdate(before, key, Bump(before, key, scores[n - 1])[key], count);
    }
  }

  lemma StateOf(store: Store)
    requires store.Valid()
    ensures store.files == ApplyAll(store.initial, store.log)
  {
  }

  lemma IsUninterrupted(exec: Oracle, h: Header, bs: seq<Bench>, results: seq<Item>)
    requires |results| == |bs| && forall i :: 0 <= i < |bs| ==> results[i] == Produced(exec, h, bs[i].id)
    ensures results == Uninterrupted(exec, h, bs)
  {
  }

  /**
   * The runner from end to end, after any history of cut runs under its header. It completes; each result is
   * the one first persisted, or its own, and is what the directory holds afterwards; when the runs are alike,
   * the list is the uninterrupted one; and the groups' sums and counts add up to those of that list.
   */
  method RunAndReport(store: Store, exec: Oracle, h: Header, bs: seq<Bench>, pid: nat, ghost attempts: seq<Attempt>)
    returns (out: RunOutcome, byCategory: Tallies, byDifficulty: Tallies, total: int)
    requires store.Valid() && store.files == DiskAfter(attempts)
    requires UnderHeader(attempts, h) && ProperIds(bs)
    modifies store
    ensures store.Valid() && out.Completed? && |out.results| == |bs|
    ensures forall i :: 0 <= i < |bs| ==> FirstOrOwn(attempts, exec, h, bs[i].id, out.results[i])
    ensures forall i :: 0 <= i < |bs| ==>
      ItemName(bs[i].id) in store.files && store.files[ItemName(bs[i].id)] == ItemFile(out.results[i])
    ensures Alike(attempts, exec, h) ==> out.results == Uninterrupted(exec, h, bs)
    ensures out.skipped == Flat(bs, PersistedOf(old(store.files)))
    ensures store.log == old(store.log) + RunOps(old(store.files), exec, h, bs, pid)
    ensures byCategory == Tallied(Categories(bs), ScoresOf(out.results), |bs|)
    ensures byDifficulty == Tallied(Difficulties(bs), ScoresOf(out.results), |bs|)
    ensures total == Sum(ScoresOf(out.results), |bs|)
    ensures GroupsSumTo(byCategory, total, |bs|) && GroupsSumTo(byDifficulty, total, |bs|)
  {
    hide *;
    ghost var d := store.files;
    ghost var log := store.log;
    StateOf(store);
    CrashResumeEquivalence(attempts, exec, h, "");
    ghost var done;
    out, done := RunBenchmarks(store, exec, h, bs, pid);
    TidyIsReadable(d);
    LoadedIsPersisted(d, done);
    SkippedOrExecuted(d, exec, h, bs, pid);
    TidyRun(d, done, exec, h, bs, pid, log);
    ApplyConcat(store.initial, log, RunOps(d, exec, h, bs, pid));
    StateOf(store);
    forall i | 0 <= i < |bs|
      ensures out.results[i] == Reported(d, exec, h, bs[i].id)
      ensures FirstOrOwn(attempts, exec, h, bs[i].id, out.results[i])
      ensures Alike(attempts, exec, h) ==> out.results[i] == Produced(exec, h, bs[i].id)
      ensures ItemName(bs[i].id) in store.files && store.files[ItemName(bs[i].id)] == ItemFile(out.results[i])
    {
      CrashResumeEquivalence(attempts, exec, h, bs[i].id);
      ReportedIsKept(exec, d, h, bs, pid, i);
    }
    if Alike(attempts, exec, h) {
      IsUninterrupted(exec, h, bs, out.results);
    }
    byCategory, byDifficulty, total := Aggregate(bs, out.results);
    GroupsAddUp(Categories(bs), ScoresOf(out.results), |bs|);
    GroupsAddUp(Difficulties(bs), ScoresOf(out.results), |bs|);
  }
}
