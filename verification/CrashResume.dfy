/** Safety of resumable runs over every crash history (benchmarks/run-store.ts, benchmarks/runner.ts). */
module CrashResume {
  import opened Seqs
  import opened RunStore
  import opened Runner

  // --- one run -------------------------------------------------------------

  /** What the directory holds for an id the run did not load is what the run produced. */
  ghost predicate Fresh(exec: Oracle, d: Disk, h: Header, done: set<string>) {
    forall id :: id !in done && Persisted(d, id) ==> d[ItemName(id)] == ItemFile(Produced(exec, h, id))
  }

  ghost predicate Headed(made: Origin, d: Disk, h: Header) {
    RunDir(made, d) && HEADER_FILE in d && d[HEADER_FILE] == HeaderFile(h)
  }

  /** A sound directory in the middle of a run. */
  ghost predicate Running(made: Origin, exec: Oracle, d: Disk, h: Header, done: set<string>) {
    Headed(made, d, h) && Makes(made, exec, h) && Fresh(exec, d, h, done)
  }

  /** d' comes from d by adding complete results for some of the given benchmarks. */
  ghost predicate Adds(made: Origin, d: Disk, d': Disk, bs: seq<Bench>) {
    && Grows(made, d, d')
    && forall n :: IsItemName(n) && n in d' ==> n in d || exists i :: 0 <= i < |bs| && n == ItemName(bs[i].id)
  }

  /** Every benchmark that was not done when the loop began has its result on disk. */
  ghost predicate Holds(d: Disk, bs: seq<Bench>, done: set<string>) {
    forall i :: 0 <= i < |bs| && bs[i].id !in done ==> ItemName(bs[i].id) in d
  }

  lemma AddsMore(made: Origin, d: Disk, d1: Disk, d2: Disk, bs: seq<Bench>, b: Bench)
    requires Adds(made, d, d1, bs) && Adds(made, d1, d2, [b])
    ensures Adds(made, d, d2, bs + [b])
  {
    hide RunDir, IsItemName, ItemName;
    forall n | IsItemName(n) && n in d2 && n !in d
      ensures exists i :: 0 <= i < |bs + [b]| && n == ItemName((bs + [b])[i].id)
    {
      if n in d1 {
        var i :| 0 <= i < |bs| && n == ItemName(bs[i].id);
        assert (bs + [b])[i] == bs[i];
      } else {
        assert n == ItemName([b][0].id) && (bs + [b])[|bs|] == b;
      }
    }
  }

  lemma BlockAdds(made: Origin, exec: Oracle, d: Disk, h: Header, b: Bench, pid: nat, done: set<string>, j: nat)
    requires Running(made, exec, d, h, done) && b.id != "_run"
    requires j <= |BenchOps(exec, h, pid, done)(b)|
    ensures
      var block := BenchOps(exec, h, pid, done)(b);
      && Adds(made, d, ApplyAll(d, block[..j]), [b])
      && Running(made, exec, ApplyAll(d, block[..j]), h, done)
      && (j == |block| && b.id !in done ==> ItemName(b.id) in ApplyAll(d, block))
  {
    var block := BenchOps(exec, h, pid, done)(b);
    assert block[..|block|] == block;
    assert [b][0] == b;
    if j == 0 {
      assert block[..0] == [];
    } else {
      var item := Produced(exec, h, b.id);
      var write := WriteOps(ItemName(b.id), ItemFile(item), pid);
      assert |write| == 3 && item.id == b.id && Persisted(d, b.id) == (ItemName(b.id) in d);
      hide WriteOps, IsItemName, RunDir;
      assert block[..j] == [Execute(b.id)] + write[..j - 1];
      ApplyConcat(d, [Execute(b.id)], write[..j - 1]);
      assert ApplyAll(d, [Execute(b.id)]) == d by {
        assert [Execute(b.id)][..0] == [];
      }
      SaveGrows(made, d, h, item, pid, j - 1);
      StaysFresh(made, exec, d, ApplyAll(d, write[..j - 1]), h, done, b.id);
    }
  }

  lemma StaysFresh(made: Origin, exec: Oracle, d: Disk, d': Disk, h: Header, done: set<string>, id: string)
    requires Running(made, exec, d, h, done) && Grows(made, d, d')
    requires forall n :: IsItemName(n) && n in d' ==>
      n in d || (n == ItemName(id) && d'[n] == ItemFile(Produced(exec, h, id)))
    ensures Running(made, exec, d', h, done)
  {
    hide IsItemName, ItemName, RunDir, Makes;
    assert IsReadName(HEADER_FILE);
    forall other | other !in done && Persisted(d', other)
      ensures d'[ItemName(other)] == ItemFile(Produced(exec, h, other))
    {
      ItemNames(other);
      ItemNames(id);
    }
  }

  /** At every point of the benchmark loop the directory is sound, and ends holding every result. */
  lemma {:induction false} LoopAdds(
    made: Origin, exec: Oracle, d: Disk, h: Header, bs: seq<Bench>, pid: nat, done: set<string>, k: nat)
    requires Running(made, exec, d, h, done) && ProperIds(bs)
    requires k <= |Flat(bs, BenchOps(exec, h, pid, done))|
    ensures
      var d' := ApplyAll(d, Flat(bs, BenchOps(exec, h, pid, done))[..k]);
      Adds(made, d, d', bs) && Running(made, exec, d', h, done)
    ensures Holds(ApplyAll(d, Flat(bs, BenchOps(exec, h, pid, done))), bs, done)
  {
    if bs == [] {
      assert Flat(bs, BenchOps(exec, h, pid, done))[..k] == [];
    } else {
      hide *;
      var step, n := BenchOps(exec, h, pid, done), |bs| - 1;
      var prior, block := Flat(bs[..n], step), step(bs[n]);
      FlatStep(bs, n, step);
      assert bs[..n + 1] == bs;
      LoopAdds(made, exec, d, h, bs[..n], pid, done, |prior|);
      assert prior[..|prior|] == prior;
      if k <= |prior| {
        PrefixOfConcat(prior, block, k);
        LoopAdds(made, exec, d, h, bs[..n], pid, done, k);
        AddsPrefix(made, d, ApplyAll(d, prior[..k]), bs, n);
      } else {
        BlockAfter(made, exec, d, h, bs, pid, done, prior, k - |prior|);
        PrefixOfConcat(prior, block, k);
      }
      BlockAfter(made, exec, d, h, bs, pid, done, prior, |block|);
      PrefixOfConcat(prior, block, |prior + block|);
    }
  }

  lemma HoldsMore(d: Disk, bs: seq<Bench>, done: set<string>)
    requires bs != [] && Holds(d, bs[..|bs| - 1], done)
    requires bs[|bs| - 1].id !in done ==> ItemName(bs[|bs| - 1].id) in d
    ensures Holds(d, bs, done)
  {
    hide ItemName;
    assert forall i :: 0 <= i < |bs| - 1 ==> bs[..|bs| - 1][i] == bs[i];
  }

  lemma PrefixOfConcat<T>(a: seq<T>, b: seq<T>, k: nat)
    requires k <= |a + b|
    ensures (a + b)[..k] == if k <= |a| then a[..k] else a + b[..k - |a|]
    ensures a[..|a|] == a && b[..|b|] == b && (a + b)[..|a + b|] == a + b
  {
  }

  /** The last benchmark's block on top of a sound loop over the others. */
  lemma BlockAfter(
    made: Origin, exec: Oracle, d: Disk, h: Header, bs: seq<Bench>, pid: nat, done: set<string>, prior: seq<Op>, j: nat)
    requires ProperIds(bs) && bs != [] && Running(made, exec, ApplyAll(d, prior), h, done)
    requires Adds(made, d, ApplyAll(d, prior), bs[..|bs| - 1])
    requires Holds(ApplyAll(d, prior), bs[..|bs| - 1], done)
    requires j <= |BenchOps(exec, h, pid, done)(bs[|bs| - 1])|
    ensures
      var block := BenchOps(exec, h, pid, done)(bs[|bs| - 1]);
      && Adds(made, d, ApplyAll(d, prior + block[..j]), bs)
      && Running(made, exec, ApplyAll(d, prior + block[..j]), h, done)
      && (j == |block| ==> Holds(ApplyAll(d, prior + block), bs, done))
  {
    var n := |bs| - 1;
    assert bs[n].id != "_run" && ProperIds(bs[..n]);
    hide *;
    var block, mid := BenchOps(exec, h, pid, done)(bs[n]), ApplyAll(d, prior);
    assert bs[..n] + [bs[n]] == bs;
    ApplyConcat(d, prior, block[..j]);
    BlockAdds(made, exec, mid, h, bs[n], pid, done, j);
    AddsMore(made, d, mid, ApplyAll(mid, block[..j]), bs[..n], bs[n]);
    if j == |block| {
      assert block[..j] == block;
      ItemsStay(made, mid, ApplyAll(mid, block), [bs[n]], bs[..n], done);
      HoldsMore(ApplyAll(mid, block), bs, done);
    }
  }

  lemma AddsPrefix(made: Origin, d: Disk, d': Disk, bs: seq<Bench>, n: nat)
    requires n <= |bs| && Adds(made, d, d', bs[..n])
    ensures Adds(made, d, d', bs)
  {
    hide RunDir, IsItemName, ItemName;
    forall m | IsItemName(m) && m in d' && m !in d
      ensures exists i :: 0 <= i < |bs| && m == ItemName(bs[i].id)
    {
      var i :| 0 <= i < |bs[..n]| && m == ItemName(bs[..n][i].id);
      assert bs[i] == bs[..n][i];
    }
  }

  lemma ItemsStay(made: Origin, d: Disk, d': Disk, added: seq<Bench>, bs: seq<Bench>, done: set<string>)
    requires Adds(made, d, d', added) && ProperIds(bs)
    requires Holds(d, bs, done)
    ensures Holds(d', bs, done)
  {
    hide RunDir, IsItemName, ItemName;
    forall i | 0 <= i < |bs| && bs[i].id !in done
      ensures ItemName(bs[i].id) in d'
    {
      ItemNames(bs[i].id);
    }
  }

  /** The directory stays sound, and grows, at every crash point of a run. */
  lemma RunGrows(made: Origin, exec: Oracle, d: Disk, h: Header, bs: seq<Bench>, pid: nat, k: nat)
    requires RunDir(made, d) && ProperIds(bs) && Makes(made, exec, h)
    requires k <= |RunOps(d, exec, h, bs, pid)|
    ensures Adds(made, d, ApplyAll(d, RunOps(d, exec, h, bs, pid)[..k]), bs)
    ensures !Refuses(d, h) ==> !Refuses(ApplyAll(d, RunOps(d, exec, h, bs, pid)[..k]), h)
  {
    hide BenchOps, IsItemName, DoneIds, Flat, ApplyAll, WriteOps;
    if Refuses(d, h) {
      assert RunOps(d, exec, h, bs, pid)[..k] == [];
      NothingDone(made, d, bs);
    } else {
      hide RunDir;
      var first, rest := OpenOps(d, h, pid), Flat(bs, BenchOps(exec, h, pid, DoneIds(d)));
      var ops := RunOps(d, exec, h, bs, pid);
      if k <= |first| {
        assert ops[..k] == first[..k];
        OpenGrows(made, d, h, pid, k);
        OpenKeepsHeader(d, h, pid, k);
      } else {
        assert ops[..k] == first + rest[..k - |first|];
        AfterOpen(made, exec, d, h, bs, pid, k - |first|);
      }
    }
  }

  lemma NothingDone(made: Origin, d: Disk, bs: seq<Bench>)
    requires RunDir(made, d)
    ensures ApplyAll(d, []) == d && Adds(made, d, d, bs)
  {
  }

  lemma OpenKeepsHeader(d: Disk, h: Header, pid: nat, k: nat)
    requires k <= |OpenOps(d, h, pid)| && !Refuses(d, h)
    ensures !Refuses(ApplyAll(d, OpenOps(d, h, pid)[..k]), h)
  {
    if HEADER_FILE in d {
      assert OpenOps(d, h, pid)[..k] == [];
    } else {
      assert |WriteOps(HEADER_FILE, HeaderFile(h), pid)| == 3;
      hide WriteOps, ApplyAll;
      WriteIsAtomic(d, HEADER_FILE, HeaderFile(h), pid, k);
      var ops := WriteOps(HEADER_FILE, HeaderFile(h), pid);
      assert ops[..3] == ops;
    }
  }

  lemma AfterOpen(made: Origin, exec: Oracle, d: Disk, h: Header, bs: seq<Bench>, pid: nat, j: nat)
    requires RunDir(made, d) && ProperIds(bs) && !Refuses(d, h) && Makes(made, exec, h)
    requires j <= |Flat(bs, BenchOps(exec, h, pid, DoneIds(d)))|
    ensures
      var first, rest := OpenOps(d, h, pid), Flat(bs, BenchOps(exec, h, pid, DoneIds(d)));
      var d' := ApplyAll(d, first + rest[..j]);
      && d' == ApplyAll(ApplyAll(d, first), rest[..j])
      && Running(made, exec, ApplyAll(d, first), h, DoneIds(d))
      && Running(made, exec, d', h, DoneIds(d))
      && Adds(made, d, d', bs) && !Refuses(d', h)
  {
    hide BenchOps, IsItemName, DoneIds, Flat, OpenOps, ApplyAll, RunDir;
    var first, rest := OpenOps(d, h, pid), Flat(bs, BenchOps(exec, h, pid, DoneIds(d)));
    var mid := ApplyAll(d, first);
    OpenGrows(made, d, h, pid, |first|);
    assert first[..|first|] == first;
    StartsFresh(made, exec, d, mid, h);
    ApplyConcat(d, first, rest[..j]);
    LoopAdds(made, exec, mid, h, bs, pid, DoneIds(d), j);
  }

  lemma StartsFresh(made: Origin, exec: Oracle, d: Disk, mid: Disk, h: Header)
    requires RunDir(made, d)
    requires forall n :: IsItemName(n) ==> (n in mid <==> n in d)
    ensures Fresh(exec, mid, h, DoneIds(d))
  {
    hide DoneIds, IsItemName, ItemName;
    forall id | Persisted(mid, id)
      ensures id in DoneIds(d)
    {
      ItemNames(id);
      DoneIdsArePersisted(d, id);
    }
  }

  // --- nothing persisted is executed again ---------------------------------

  /** The origin that allows everything: for what depends only on which files there are. */
  function Anything(): Origin { (h: Header, item: Item) => true }

  lemma AnythingMade(exec: Oracle, d: Disk, h: Header)
    ensures RunDir(Anything(), d) <==> Tidy(d)
    ensures Makes(Anything(), exec, h)
  {
  }

  /** Where a loop executes: at the start of some benchmark's block, for one not already done. */
  lemma {:induction false} ExecutesAt(
    exec: Oracle, h: Header, bs: seq<Bench>, pid: nat, done: set<string>, k: nat, id: string)
    returns (i: nat)
    requires k < |Flat(bs, BenchOps(exec, h, pid, done))|
    requires Flat(bs, BenchOps(exec, h, pid, done))[k] == Execute(id)
    ensures i < |bs| && bs[i].id == id && id !in done
    ensures k == |Flat(bs[..i], BenchOps(exec, h, pid, done))|
  {
    assert bs != [];
    hide *;
    var step, n := BenchOps(exec, h, pid, done), |bs| - 1;
    FlatStep(bs, n, step);
    assert bs[..n + 1] == bs;
    if k < |Flat(bs[..n], step)| {
      i := ExecutesAt(exec, h, bs[..n], pid, done, k, id);
      assert bs[..n][..i] == bs[..i] && bs[..n][i] == bs[i];
    } else {
      i := n;
      BlockShape(exec, h, bs[n], pid, done);
      assert step(bs[n])[k - |Flat(bs[..n], step)|] == Execute(id);
    }
  }

  /** A block executes its own benchmark first and nothing else. */
  lemma BlockShape(exec: Oracle, h: Header, b: Bench, pid: nat, done: set<string>)
    ensures
      var block := BenchOps(exec, h, pid, done)(b);
      forall k :: 0 <= k < |block| ==>
        (block[k].Execute? <==> k == 0) && (k == 0 ==> block[k] == Execute(b.id) && b.id !in done)
  {
    hide TempName, ItemName, Produced;
  }

  lemma {:induction false} BlockAt(exec: Oracle, h: Header, bs: seq<Bench>, pid: nat, done: set<string>, i: nat)
    requires i < |bs| && bs[i].id !in done
    ensures
      var step := BenchOps(exec, h, pid, done);
      var k := |Flat(bs[..i], step)|;
      && k < |Flat(bs, step)| && Flat(bs, step)[k] == Execute(bs[i].id)
      && Flat(bs, step)[..k] == Flat(bs[..i], step)
  {
    hide Flat, WriteOps;
    var step := BenchOps(exec, h, pid, done);
    FlatAround(bs, i, step);
  }

  /** Benchmarks with the same id share a result that was already there when the run began. */
  ghost predicate RepeatsAreDone(d: Disk, bs: seq<Bench>) {
    forall i, j :: 0 <= i < j < |bs| && bs[i].id == bs[j].id ==> Persisted(d, bs[i].id)
  }

  ghost predicate ExecutesOnlyMissing(d: Disk, ops: seq<Op>) {
    forall k, id :: 0 <= k < |ops| && ops[k] == Execute(id) ==> !Persisted(ApplyAll(d, ops[..k]), id)
  }

  lemma OpenExecutesNothing(d: Disk, h: Header, pid: nat)
    ensures forall k :: 0 <= k < |OpenOps(d, h, pid)| ==> !OpenOps(d, h, pid)[k].Execute?
  {
  }

  lemma ExecuteIsMissing(exec: Oracle, d: Disk, h: Header, bs: seq<Bench>, pid: nat, k: nat, id: string)
    requires Tidy(d) && ProperIds(bs) && RepeatsAreDone(d, bs) && !Refuses(d, h)
    requires k < |RunOps(d, exec, h, bs, pid)| && RunOps(d, exec, h, bs, pid)[k] == Execute(id)
    ensures !Persisted(ApplyAll(d, RunOps(d, exec, h, bs, pid)[..k]), id)
  {
    hide BenchOps, IsItemName, DoneIds, Flat, ApplyAll, OpenOps, ItemName, Headed;
    var first, done := OpenOps(d, h, pid), DoneIds(d);
    var step := BenchOps(exec, h, pid, done);
    var rest := Flat(bs, step);
    OpenExecutesNothing(d, h, pid);
    var i := ExecutesAt(exec, h, bs, pid, done, k - |first|, id);
    BlockAt(exec, h, bs, pid, done, i);
    assert (first + rest)[..k] == first + Flat(bs[..i], step);
    var part := Flat(bs[..i], step);
    assert part[..|part|] == part;
    AfterOpen(Anything(), exec, d, h, bs[..i], pid, |part|);
    DoneIdsArePersisted(d, id);
    ItemNames(id);
    forall m | 0 <= m < i
      ensures ItemName(bs[..i][m].id) != ItemName(id)
    {
      ItemNames(bs[m].id);
    }
  }

  lemma RepeatIsExecuted(exec: Oracle, d: Disk, h: Header, bs: seq<Bench>, pid: nat, i: nat, j: nat)
    requires Tidy(d) && ProperIds(bs) && !Refuses(d, h)
    requires i < j < |bs| && bs[i].id == bs[j].id && !Persisted(d, bs[i].id)
    ensures !ExecutesOnlyMissing(d, RunOps(d, exec, h, bs, pid))
  {
    hide BenchOps, IsItemName, DoneIds, Flat, ApplyAll, OpenOps, ItemName, RunDir;
    AnythingMade(exec, d, h);
    var first, done := OpenOps(d, h, pid), DoneIds(d);
    var step := BenchOps(exec, h, pid, done);
    DoneIdsArePersisted(d, bs[i].id);
    BlockAt(exec, h, bs, pid, done, j);
    var part := Flat(bs[..j], step);
    assert part[..|part|] == part;
    AfterOpen(Anything(), exec, d, h, bs[..j], pid, |part|);
    LoopAdds(Anything(), exec, ApplyAll(d, first), h, bs[..j], pid, done, |part|);
    assert bs[..j][i] == bs[i];
    var ops, k := RunOps(d, exec, h, bs, pid), |first| + |part|;
    assert ops[..k] == first + part;
    assert ops[k] == Execute(bs[i].id) && Persisted(ApplyAll(d, ops[..k]), bs[i].id);
  }

  /** A run executes only what is not persisted at that moment exactly when repeated ids were all persisted before. */
  lemma NoReexecution(exec: Oracle, d: Disk, h: Header, bs: seq<Bench>, pid: nat)
    requires Tidy(d) && ProperIds(bs) && !Refuses(d, h)
    ensures ExecutesOnlyMissing(d, RunOps(d, exec, h, bs, pid)) <==> RepeatsAreDone(d, bs)
  {
    hide Persisted, Tidy, RunOps, ApplyAll;
    var ops := RunOps(d, exec, h, bs, pid);
    if RepeatsAreDone(d, bs) {
      forall k, id | 0 <= k < |ops| && ops[k] == Execute(id)
        ensures !Persisted(ApplyAll(d, ops[..k]), id)
      {
        ExecuteIsMissing(exec, d, h, bs, pid, k, id);
      }
    } else {
      var i, j :| 0 <= i < j < |bs| && bs[i].id == bs[j].id && !Persisted(d, bs[i].id);
      RepeatIsExecuted(exec, d, h, bs, pid, i, j);
    }
  }

  /** Running again after a run that finished writes nothing and executes nothing, whatever it would now produce. */
  lemma SecondRunIsIdle(exec: Oracle, again: Oracle, d: Disk, h: Header, bs: seq<Bench>, pid: nat, pid': nat)
    requires Tidy(d) && ProperIds(bs) && !Refuses(d, h)
    ensures RunOps(ApplyAll(d, RunOps(d, exec, h, bs, pid)), again, h, bs, pid') == []
  {
    hide BenchOps, IsItemName, DoneIds, Flat, ApplyAll, OpenOps, ItemName, RunDir;
    var d' := ApplyAll(d, RunOps(d, exec, h, bs, pid));
    AnythingMade(exec, d, h);
    FinishedRun(Anything(), exec, d, h, bs, pid);
    AnythingMade(again, d', h);
    forall i | 0 <= i < |bs|
      ensures bs[i].id in DoneIds(d')
    {
      DoneIdsArePersisted(d', bs[i].id);
    }
    IdleLoop(again, h, bs, pid', DoneIds(d'));
    HeaderKept(d', h, pid');
  }

  lemma SoundIsTidy(made: Origin, d: Disk)
    requires RunDir(made, d)
    ensures Tidy(d)
  {
  }

  /** A run that is not cut: it has the header, and every benchmark's result is there. */
  lemma FinishedRun(made: Origin, exec: Oracle, d: Disk, h: Header, bs: seq<Bench>, pid: nat)
    requires RunDir(made, d) && ProperIds(bs) && !Refuses(d, h) && Makes(made, exec, h)
    ensures
      var d' := ApplyAll(d, RunOps(d, exec, h, bs, pid));
      && Adds(made, d, d', bs) && Running(made, exec, d', h, DoneIds(d))
      && forall i :: 0 <= i < |bs| ==> Persisted(d', bs[i].id)
  {
    hide BenchOps, IsItemName, DoneIds, Flat, ApplyAll, OpenOps, ItemName, RunDir, Fresh;
    var rest := Flat(bs, BenchOps(exec, h, pid, DoneIds(d)));
    assert rest[..|rest|] == rest;
    AfterOpen(made, exec, d, h, bs, pid, |rest|);
    LoopAdds(made, exec, ApplyAll(d, OpenOps(d, h, pid)), h, bs, pid, DoneIds(d), |rest|);
    SoundIsTidy(made, d);
    forall i | 0 <= i < |bs|
      ensures Persisted(ApplyAll(d, RunOps(d, exec, h, bs, pid)), bs[i].id)
    {
      ItemNames(bs[i].id);
      DoneIdsArePersisted(d, bs[i].id);
    }
  }

  lemma HeaderKept(d: Disk, h: Header, pid: nat)
    requires HEADER_FILE in d
    ensures OpenOps(d, h, pid) == []
  {
  }

  lemma IdleLoop(exec: Oracle, h: Header, bs: seq<Bench>, pid: nat, done: set<string>)
    requires forall i :: 0 <= i < |bs| ==> bs[i].id in done
    ensures Flat(bs, BenchOps(exec, h, pid, done)) == []
  {
    FlatEmpty(bs, BenchOps(exec, h, pid, done));
  }

  // --- the one id that may not be used -------------------------------------

  ghost predicate UsesHeaderId(bs: seq<Bench>) {
    exists i :: 0 <= i < |bs| && bs[i].id == "_run"
  }

  lemma BlockHeader(exec: Oracle, d: Disk, h: Header, b: Bench, pid: nat, done: set<string>)
    requires "_run" !in done && HEADER_FILE in d
    ensures
      var d' := ApplyAll(d, BenchOps(exec, h, pid, done)(b));
      && HEADER_FILE in d'
      && d'[HEADER_FILE] == if b.id == "_run" then ItemFile(Produced(exec, h, "_run")) else d[HEADER_FILE]
  {
    var block := BenchOps(exec, h, pid, done)(b);
    if b.id !in done {
      var file, content := ItemName(b.id), ItemFile(Produced(exec, h, b.id));
      var write := WriteOps(file, content, pid);
      assert |write| == 3 && write[..3] == write && [Execute(b.id)][..0] == [];
      assert ApplyAll(d, [Execute(b.id)]) == d && block == [Execute(b.id)] + write;
      ItemNames(b.id);
      HeaderIsNoItem();
      assert ItemName("_run") == HEADER_FILE;
      hide ApplyAll, WriteOps, IsItemName, BenchOps, ItemName;
      ApplyConcat(d, [Execute(b.id)], write);
      WriteIsAtomic(d, file, content, pid, 3);
    }
  }

  lemma {:induction false} LoopHeader(exec: Oracle, d: Disk, h: Header, bs: seq<Bench>, pid: nat, done: set<string>)
    requires "_run" !in done && HEADER_FILE in d
    ensures
      var d' := ApplyAll(d, Flat(bs, BenchOps(exec, h, pid, done)));
      && HEADER_FILE in d'
      && d'[HEADER_FILE] == if UsesHeaderId(bs) then ItemFile(Produced(exec, h, "_run")) else d[HEADER_FILE]
  {
    if bs != [] {
      hide BenchOps, ApplyAll, Produced;
      var step, n := BenchOps(exec, h, pid, done), |bs| - 1;
      var prior := Flat(bs[..n], step);
      LoopHeader(exec, d, h, bs[..n], pid, done);
      ApplyConcat(d, prior, step(bs[n]));
      BlockHeader(exec, ApplyAll(d, prior), h, bs[n], pid, done);
      assert bs == bs[..n] + [bs[n]];
      assert UsesHeaderId(bs) <==> UsesHeaderId(bs[..n]) || bs[n].id == "_run";
    }
  }

  /**
   * A benchmark with the id `_run` saves its result over the header: after an accepted run that is not cut,
   * the directory can be resumed exactly when no benchmark has that id, and otherwise under no header at all.
   */
  lemma HeaderIdSpoilsResume(exec: Oracle, d: Disk, h: Header, bs: seq<Bench>, pid: nat)
    requires !Refuses(d, h)
    ensures
      var d' := ApplyAll(d, RunOps(d, exec, h, bs, pid));
      && (Refuses(d', h) <==> UsesHeaderId(bs))
      && (UsesHeaderId(bs) ==> forall any :: Refuses(d', any))
  {
    var first, done := OpenOps(d, h, pid), DoneIds(d);
    assert "_run" !in done by {
      ItemNames("_run");
      forall n | n in d && IsItemName(n)
        ensures n[..|n| - 5] != "_run"
      {
        assert n == n[..|n| - 5] + JSON;
      }
    }
    assert HEADER_FILE in ApplyAll(d, first) && ApplyAll(d, first)[HEADER_FILE] == HeaderFile(h) by {
      OpenedHeader(d, h, pid);
    }
    hide ApplyAll, OpenOps, DoneIds, BenchOps, Flat, UsesHeaderId;
    ApplyConcat(d, first, Flat(bs, BenchOps(exec, h, pid, done)));
    LoopHeader(exec, ApplyAll(d, first), h, bs, pid, done);
  }

  lemma OpenedHeader(d: Disk, h: Header, pid: nat)
    requires !Refuses(d, h)
    ensures
      var d' := ApplyAll(d, OpenOps(d, h, pid));
      HEADER_FILE in d' && d'[HEADER_FILE] == HeaderFile(h)
  {
    if HEADER_FILE !in d {
      WriteIsAtomic(d, HEADER_FILE, HeaderFile(h), pid, 3);
    }
  }

  // --- every history of runs and crashes -----------------------------------

  /** A run that a crash cuts after `cut` operations (or that finishes, when it has fewer), with its own oracle. */
  datatype Attempt = Attempt(exec: Oracle, h: Header, bs: seq<Bench>, pid: nat, cut: nat)

  ghost function AttemptOps(d: Disk, a: Attempt): seq<Op> {
    var ops := RunOps(d, a.exec, a.h, a.bs, a.pid);
    if a.cut <= |ops| then ops[..a.cut] else ops
  }

  ghost function DiskAfter(attempts: seq<Attempt>): Disk {
    if attempts == [] then map[]
    else
      var d := DiskAfter(attempts[..|attempts| - 1]);
      ApplyAll(d, AttemptOps(d, attempts[|attempts| - 1]))
  }

  /** Every point at which a run can be cut is a history. */
  lemma EveryCutIsAHistory(attempts: seq<Attempt>, exec: Oracle, h: Header, bs: seq<Bench>, pid: nat, k: nat)
    requires k <= |RunOps(DiskAfter(attempts), exec, h, bs, pid)|
    ensures DiskAfter(attempts + [Attempt(exec, h, bs, pid, k)])
            == ApplyAll(DiskAfter(attempts), RunOps(DiskAfter(attempts), exec, h, bs, pid)[..k])
  {
    hide ApplyAll, RunOps;
    var longer := attempts + [Attempt(exec, h, bs, pid, k)];
    assert longer[..|longer| - 1] == attempts;
  }

  ghost predicate ProperAttempts(attempts: seq<Attempt>) {
    forall i :: 0 <= i < |attempts| ==> ProperIds(attempts[i].bs)
  }

  lemma AttemptGrows(made: Origin, d: Disk, a: Attempt)
    requires RunDir(made, d) && ProperIds(a.bs) && Makes(made, a.exec, a.h)
    ensures Adds(made, d, ApplyAll(d, AttemptOps(d, a)), a.bs)
    ensures !Refuses(d, a.h) ==> !Refuses(ApplyAll(d, AttemptOps(d, a)), a.h)
  {
    hide RunOps, Adds, ApplyAll, RunDir, Refuses, Makes;
    var ops := RunOps(d, a.exec, a.h, a.bs, a.pid);
    assert ops[..|ops|] == ops;
    RunGrows(made, a.exec, d, a.h, a.bs, a.pid, if a.cut <= |ops| then a.cut else |ops|);
  }

  /** Produced by one of these attempts under its header. */
  ghost function MadeBy(attempts: seq<Attempt>): Origin {
    (h: Header, item: Item) =>
      exists i :: 0 <= i < |attempts| && attempts[i].h == h && item == Produced(attempts[i].exec, h, item.id)
  }

  lemma {:induction false} DiskIsSound(made: Origin, attempts: seq<Attempt>)
    requires ProperAttempts(attempts)
    requires forall i :: 0 <= i < |attempts| ==> Makes(made, attempts[i].exec, attempts[i].h)
    ensures RunDir(made, DiskAfter(attempts))
  {
    hide ApplyAll, AttemptOps, RunDir, Makes;
    if attempts == [] {
      EmptyIsSound(made);
    } else {
      DiskIsSound(made, attempts[..|attempts| - 1]);
      AttemptGrows(made, DiskAfter(attempts[..|attempts| - 1]), attempts[|attempts| - 1]);
    }
  }

  /**
   * The directory is sound after any history, whatever headers, benchmark lists and outcomes its runs had:
   * every result in it was produced by a run of that history under the recorded header.
   */
  lemma EveryDiskIsSound(attempts: seq<Attempt>)
    requires ProperAttempts(attempts)
    ensures RunDir(MadeBy(attempts), DiskAfter(attempts))
  {
    hide RunDir;
    forall i | 0 <= i < |attempts|
      ensures Makes(MadeBy(attempts), attempts[i].exec, attempts[i].h)
    {
      forall id
        ensures MadeBy(attempts)(attempts[i].h, Produced(attempts[i].exec, attempts[i].h, id))
      {
      }
    }
    DiskIsSound(MadeBy(attempts), attempts);
  }

  lemma TidyAfter(attempts: seq<Attempt>)
    requires ProperAttempts(attempts)
    ensures Tidy(DiskAfter(attempts))
  {
    EveryDiskIsSound(attempts);
    hide DiskAfter, Tidy;
  }

  lemma EmptyIsSound(made: Origin)
    ensures RunDir(made, map[])
  {
  }

  // --- every result is the one first persisted -----------------------------

  ghost predicate UnderHeader(attempts: seq<Attempt>, h: Header) {
    ProperAttempts(attempts) && forall i :: 0 <= i < |attempts| ==> attempts[i].h == h
  }

  lemma {:induction false} NeverRefused(attempts: seq<Attempt>, h: Header)
    requires UnderHeader(attempts, h)
    ensures !Refuses(DiskAfter(attempts), h)
  {
    hide ApplyAll, AttemptOps, Refuses, Tidy;
    if attempts != [] {
      var prior := attempts[..|attempts| - 1];
      NeverRefused(prior, h);
      TidyAfter(prior);
      AnythingMade(attempts[|attempts| - 1].exec, DiskAfter(prior), h);
      AttemptGrows(Anything(), DiskAfter(prior), attempts[|attempts| - 1]);
    } else {
      EmptyHistory(h);
    }
  }

  lemma EmptyHistory(h: Header)
    ensures ApplyAll(map[], []) == map[] && !Refuses(map[], h)
  {
  }

  /** The first attempt after which an id's result is on disk. */
  ghost predicate FirstKept(attempts: seq<Attempt>, id: string, n: nat) {
    && n < |attempts|
    && !Persisted(DiskAfter(attempts[..n]), id) && Persisted(DiskAfter(attempts[..n + 1]), id)
  }

  /** One more attempt keeps every result on disk, and those it adds are its own. */
  lemma AttemptKeeps(d: Disk, a: Attempt, id: string)
    requires Tidy(d) && ProperIds(a.bs)
    ensures
      var d' := ApplyAll(d, AttemptOps(d, a));
      && (Persisted(d, id) ==> Persisted(d', id) && d'[ItemName(id)] == d[ItemName(id)])
      && (!Persisted(d, id) && Persisted(d', id) ==>
            HEADER_FILE in d' && d'[HEADER_FILE].HeaderFile?
            && d'[ItemName(id)] == ItemFile(Produced(a.exec, d'[HEADER_FILE].header, id)))
  {
    var made := (h: Header, item: Item) =>
      item == Produced(a.exec, h, item.id) || (Persisted(d, item.id) && d[ItemName(item.id)] == ItemFile(item));
    hide ApplyAll, AttemptOps, IsItemName, ItemName;
    assert RunDir(made, d) by {
      forall n | n in d && IsItemName(n)
        ensures made(d[HEADER_FILE].header, d[n].item)
      {
        ItemNames(d[n].item.id);
      }
    }
    AttemptGrows(made, d, a);
    ItemNames(id);
    var d' := ApplyAll(d, AttemptOps(d, a));
    if Persisted(d', id) {
      ItemNames(d'[ItemName(id)].item.id);
    }
  }

  lemma OneAttempt(attempts: seq<Attempt>, m: nat)
    requires m < |attempts|
    ensures
      var d := DiskAfter(attempts[..m]);
      DiskAfter(attempts[..m + 1]) == ApplyAll(d, AttemptOps(d, attempts[m]))
    ensures ProperAttempts(attempts) ==> ProperAttempts(attempts[..m]) && ProperIds(attempts[m].bs)
  {
    hide ApplyAll, AttemptOps;
    var cur := attempts[..m + 1];
    assert cur[..|cur| - 1] == attempts[..m];
  }

  lemma OneMoreKeeps(attempts: seq<Attempt>, id: string, m: nat)
    requires ProperAttempts(attempts) && m < |attempts| && Persisted(DiskAfter(attempts[..m]), id)
    ensures Persisted(DiskAfter(attempts[..m + 1]), id)
  {
    hide *;
    var prior, a := attempts[..m], attempts[m];
    OneAttempt(attempts, m);
    TidyAfter(prior);
    AttemptKeeps(DiskAfter(prior), a, id);
  }

  lemma {:induction false} StaysPersisted(attempts: seq<Attempt>, id: string, n: nat, m: nat)
    requires ProperAttempts(attempts) && n <= m <= |attempts| && Persisted(DiskAfter(attempts[..n]), id)
    ensures Persisted(DiskAfter(attempts[..m]), id)
    decreases m - n
  {
    hide *;
    if n < m {
      OneMoreKeeps(attempts, id, n);
      StaysPersisted(attempts, id, n + 1, m);
    }
  }

  /** No two attempts are the first. */
  lemma FirstKeptOnce(attempts: seq<Attempt>, id: string, n: nat, m: nat)
    requires ProperAttempts(attempts) && FirstKept(attempts, id, n) && FirstKept(attempts, id, m)
    ensures n == m
  {
    if n < m {
      StaysPersisted(attempts, id, n + 1, m);
    } else if m < n {
      StaysPersisted(attempts, id, m + 1, n);
    }
  }

  /**
   * Every result on disk was produced by the one attempt that first put it there, under the recorded header,
   * and no later attempt has changed it.
   */
  lemma {:induction false} FirstResultStays(attempts: seq<Attempt>, h: Header, id: string) returns (n: nat)
    requires UnderHeader(attempts, h) && Persisted(DiskAfter(attempts), id)
    ensures FirstKept(attempts, id, n) && forall m: nat :: FirstKept(attempts, id, m) ==> m == n
    ensures DiskAfter(attempts)[ItemName(id)] == ItemFile(Produced(attempts[n].exec, h, id))
  {
    hide ApplyAll, AttemptOps, Persisted, Tidy, ItemName;
    NothingPersisted(id);
    assert attempts != [];
    var m := |attempts| - 1;
    var prior := attempts[..m];
    TidyAfter(prior);
    AttemptKeeps(DiskAfter(prior), attempts[m], id);
    assert attempts[..m + 1] == attempts;
    if Persisted(DiskAfter(prior), id) {
      n := FirstResultStays(prior, h, id);
      assert prior[..n] == attempts[..n] && prior[..n + 1] == attempts[..n + 1];
    } else {
      n := m;
      NeverRefused(attempts, h);
      assert DiskAfter(attempts)[HEADER_FILE] == HeaderFile(h);
    }
    forall m: nat | FirstKept(attempts, id, m)
      ensures m == n
    {
      FirstKeptOnce(attempts, id, n, m);
    }
  }

  lemma NothingPersisted(id: string)
    ensures !Persisted(map[], id)
  {
  }

  /** After a run, what it reported is what the directory holds. */
  lemma ReportedIsKept(exec: Oracle, d: Disk, h: Header, bs: seq<Bench>, pid: nat, i: nat)
    requires Tidy(d) && ProperIds(bs) && !Refuses(d, h) && i < |bs|
    ensures
      var d' := ApplyAll(d, RunOps(d, exec, h, bs, pid));
      ItemName(bs[i].id) in d' && d'[ItemName(bs[i].id)] == ItemFile(Reported(d, exec, h, bs[i].id))
  {
    hide RunOps, ApplyAll, IsItemName, ItemName, DoneIds, Makes;
    var id := bs[i].id;
    AnythingMade(exec, d, h);
    FinishedRun(Anything(), exec, d, h, bs, pid);
    DoneIdsArePersisted(d, id);
    ItemNames(id);
  }

  /** The item is the one the first attempt to persist it produced, or else the run's own. */
  ghost predicate FirstOrOwn(attempts: seq<Attempt>, exec: Oracle, h: Header, id: string, item: Item) {
    if Persisted(DiskAfter(attempts), id)
    then exists n: nat :: FirstKept(attempts, id, n) && item == Produced(attempts[n].exec, h, id)
    else item == Produced(exec, h, id)
  }

  /** All runs of the history would yield what this one yields. */
  ghost predicate Alike(attempts: seq<Attempt>, exec: Oracle, h: Header) {
    forall n, id :: 0 <= n < |attempts| ==> attempts[n].exec(h, id) == exec(h, id)
  }

  /**
   * Crash-resume equivalence. After any history of cut runs under one header, a run with that header is
   * accepted, and every result it reports is the one its first attempt persisted or else its own. When the
   * runs are alike, that is the uninterrupted run's result.
   */
  lemma CrashResumeEquivalence(attempts: seq<Attempt>, exec: Oracle, h: Header, id: string)
    requires UnderHeader(attempts, h)
    ensures var d := DiskAfter(attempts); Tidy(d) && !Refuses(d, h)
    ensures FirstOrOwn(attempts, exec, h, id, Reported(DiskAfter(attempts), exec, h, id))
    ensures Alike(attempts, exec, h) ==> Reported(DiskAfter(attempts), exec, h, id) == Produced(exec, h, id)
  {
    TidyAfter(attempts);
    NeverRefused(attempts, h);
    hide DiskAfter, Persisted, Tidy, ItemName, Refuses, ProperAttempts;
    if Persisted(DiskAfter(attempts), id) {
      var n := FirstResultStays(attempts, h, id);
      FirstKeptIsIn(attempts, id, n);
      hide FirstKept;
      assert FirstKept(attempts, id, n);
    }
  }

  lemma FirstKeptIsIn(attempts: seq<Attempt>, id: string, n: nat)
    requires FirstKept(attempts, id, n)
    ensures n < |attempts|
  {
  }

  // --- nothing persisted is executed again, over histories -----------------

  ghost function HistoryOps(attempts: seq<Attempt>): seq<Op> {
    if attempts == [] then []
    else
      HistoryOps(attempts[..|attempts| - 1])
      + AttemptOps(DiskAfter(attempts[..|attempts| - 1]), attempts[|attempts| - 1])
  }

  ghost predicate DistinctIds(bs: seq<Bench>) {
    forall i, j :: 0 <= i < j < |bs| ==> bs[i].id != bs[j].id
  }

  /** Over a whole history of runs with distinct ids, nothing already persisted is ever executed again. */
  lemma {:induction false} HistoryNeverReexecutes(attempts: seq<Attempt>)
    requires ProperAttempts(attempts)
    requires forall i :: 0 <= i < |attempts| ==> DistinctIds(attempts[i].bs)
    ensures DiskAfter(attempts) == ApplyAll(map[], HistoryOps(attempts))
    ensures ExecutesOnlyMissing(map[], HistoryOps(attempts))
  {
    hide ApplyAll, Tidy, Persisted, RunOps, ProperIds, RepeatsAreDone;
    if attempts != [] {
      var prior, a := attempts[..|attempts| - 1], attempts[|attempts| - 1];
      var d, before := DiskAfter(prior), HistoryOps(prior);
      var ops := AttemptOps(d, a);
      HistoryNeverReexecutes(prior);
      TidyAfter(prior);
      ApplyConcat(map[], before, ops);
      AttemptExecutes(d, a);
      forall k, id | 0 <= k < |before + ops| && (before + ops)[k] == Execute(id)
        ensures !Persisted(ApplyAll(map[], (before + ops)[..k]), id)
      {
        if k < |before| {
          assert (before + ops)[..k] == before[..k];
        } else {
          assert (before + ops)[..k] == before + ops[..k - |before|];
          ApplyConcat(map[], before, ops[..k - |before|]);
        }
      }
    } else {
      EmptyHistory(Header("", "", None));
    }
  }

  lemma AttemptExecutes(d: Disk, a: Attempt)
    requires Tidy(d) && ProperIds(a.bs) && DistinctIds(a.bs)
    ensures ExecutesOnlyMissing(d, AttemptOps(d, a))
  {
    hide Tidy, Persisted, OpenOps, BenchOps, ApplyAll, DoneIds;
    var ops := RunOps(d, a.exec, a.h, a.bs, a.pid);
    if !Refuses(d, a.h) {
      NoReexecution(a.exec, d, a.h, a.bs, a.pid);
      forall k | 0 <= k < |AttemptOps(d, a)|
        ensures AttemptOps(d, a)[..k] == ops[..k]
      {
      }
    }
  }
}
