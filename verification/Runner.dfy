/**
 * The resume loop of the benchmark runner (benchmarks/runner.ts) over a crash-prone run directory.
 *
 * Executing and grading is an oracle of the run: two runs may score, and will time, the same benchmark differently.
 */
module Runner {
  import opened Seqs
  import opened RunStore

  datatype Bench = Bench(id: string, category: string, difficulty: string)
  datatype RunOutcome = Refused | Malformed | Completed(results: seq<Item>, skipped: seq<string>)

  /** Ids with an item file. */
  ghost predicate Persisted(d: Disk, id: string) {
    id != "_run" && ItemName(id) in d
  }

  function BenchOps(exec: Oracle, h: Header, pid: nat, done: set<string>): Bench -> seq<Op> {
    (b: Bench) =>
      if b.id in done then []
      else [Execute(b.id)] + WriteOps(ItemName(b.id), ItemFile(Produced(exec, h, b.id)), pid)
  }

  function SkipOf(done: set<string>): Bench -> seq<string> {
    (b: Bench) => if b.id in done then [b.id] else []
  }

  ghost function DoneIds(d: Disk): set<string> {
    set n | n in d && IsItemName(n) :: n[..|n| - 5]
  }

  /** Every file operation of a run from disk d, in order. */
  ghost function RunOps(d: Disk, exec: Oracle, h: Header, bs: seq<Bench>, pid: nat): seq<Op> {
    if Refuses(d, h) then []
    else OpenOps(d, h, pid) + Flat(bs, BenchOps(exec, h, pid, DoneIds(d)))
  }

  /** The result list of a run with no resume directory. */
  function Uninterrupted(exec: Oracle, h: Header, bs: seq<Bench>): seq<Item> {
    seq(|bs|, i requires 0 <= i < |bs| => Produced(exec, h, bs[i].id))
  }

  /** A known result where there is one, else the outcome of executing now. */
  function Reused(done: map<string, Item>, exec: Oracle, h: Header, id: string): Item {
    if id in done then done[id] else Produced(exec, h, id)
  }

  ghost function PersistedOf(d: Disk): Bench -> seq<string> {
    (b: Bench) => if Persisted(d, b.id) then [b.id] else []
  }

  ghost function MissingOf(d: Disk): Bench -> seq<string> {
    (b: Bench) => if Persisted(d, b.id) then [] else [b.id]
  }

  function ExecutedOf(): Op -> seq<string> {
    (op: Op) => match op case Execute(id) => [id] case _ => []
  }

  /** A run reports as skipped the benchmarks that were persisted, and executes the others, both in order. */
  lemma SkippedOrExecuted(d: Disk, exec: Oracle, h: Header, bs: seq<Bench>, pid: nat)
    requires Tidy(d) && !Refuses(d, h)
    ensures Flat(bs, SkipOf(DoneIds(d))) == Flat(bs, PersistedOf(d))
    ensures Flat(RunOps(d, exec, h, bs, pid), ExecutedOf()) == Flat(bs, MissingOf(d))
  {
    hide Flat, Persisted, DoneIds, WriteOps, BenchOps;
    var done := DoneIds(d);
    forall b: Bench
      ensures b.id in done <==> Persisted(d, b.id)
    {
      DoneIdsArePersisted(d, b.id);
    }
    FlatSame(bs, SkipOf(done), PersistedOf(d));
    FlatAppend(OpenOps(d, h, pid), Flat(bs, BenchOps(exec, h, pid, done)), ExecutedOf());
    OpenExecutes(d, h, pid);
    LoopExecutes(d, exec, h, bs, pid, done);
    assert [] + Flat(bs, MissingOf(d)) == Flat(bs, MissingOf(d));
  }

  lemma WriteExecutes(file: string, content: Content, pid: nat)
    ensures Flat(WriteOps(file, content, pid), ExecutedOf()) == []
  {
    hide TempName;
    FlatEmpty(WriteOps(file, content, pid), ExecutedOf());
  }

  lemma OpenExecutes(d: Disk, h: Header, pid: nat)
    ensures Flat(OpenOps(d, h, pid), ExecutedOf()) == []
  {
    hide WriteOps;
    WriteExecutes(HEADER_FILE, HeaderFile(h), pid);
  }

  lemma {:induction false} LoopExecutes(d: Disk, exec: Oracle, h: Header, bs: seq<Bench>, pid: nat, done: set<string>)
    requires forall b: Bench :: b.id in done <==> Persisted(d, b.id)
    ensures Flat(Flat(bs, BenchOps(exec, h, pid, done)), ExecutedOf()) == Flat(bs, MissingOf(d))
  {
    if bs != [] {
      hide Persisted, BenchOps;
      var n := |bs| - 1;
      LoopExecutes(d, exec, h, bs[..n], pid, done);
      FlatAppend(Flat(bs[..n], BenchOps(exec, h, pid, done)), BenchOps(exec, h, pid, done)(bs[n]), ExecutedOf());
      BlockExecutes(exec, h, bs[n], pid, done);
    }
  }

  lemma BlockExecutes(exec: Oracle, h: Header, b: Bench, pid: nat, done: set<string>)
    ensures Flat(BenchOps(exec, h, pid, done)(b), ExecutedOf()) == if b.id in done then [] else [b.id]
  {
    var write := WriteOps(ItemName(b.id), ItemFile(Produced(exec, h, b.id)), pid);
    WriteExecutes(ItemName(b.id), ItemFile(Produced(exec, h, b.id)), pid);
    hide WriteOps, ItemName, Produced;
    FlatAppend([Execute(b.id)], write, ExecutedOf());
    FlatNone([Execute(b.id)], ExecutedOf());
    assert [Execute(b.id)][..0] == [];
    assert Flat([Execute(b.id)], ExecutedOf()) == [b.id];
  }

  ghost predicate ProperIds(bs: seq<Bench>) {
    forall i :: 0 <= i < |bs| ==> bs[i].id != "_run"
  }

  lemma DoneIdsArePersisted(d: Disk, id: string)
    requires Tidy(d)
    ensures id in DoneIds(d) <==> Persisted(d, id)
  {
    ItemNames(id);
    forall n | n in d && IsItemName(n)
      ensures n == ItemName(n[..|n| - 5])
    {
      ItemNames(d[n].item.id);
    }
  }

  /** What a tidy directory makes known: each id with an item file, and that file's own content. */
  lemma LoadedIsPersisted(d: Disk, done: map<string, Item>)
    requires Tidy(d) && Loaded(d, done)
    ensures done.Keys == DoneIds(d)
    ensures forall id :: id in done <==> Persisted(d, id)
    ensures forall id :: id in done ==> d[ItemName(id)] == ItemFile(done[id])
  {
    hide IsItemName, ItemName;
    forall id
      ensures id in done <==> Persisted(d, id)
      ensures id in done ==> d[ItemName(id)] == ItemFile(done[id])
      ensures id in done <==> id in DoneIds(d)
    {
      ItemNames(id);
      DoneIdsArePersisted(d, id);
      if Persisted(d, id) {
        ItemNames(d[ItemName(id)].item.id);
      }
    }
  }

  /** Opening neither adds nor changes an item file, in any directory. */
  lemma OpenKeepsItems(d: Disk, h: Header, pid: nat)
    ensures
      var d' := ApplyAll(d, OpenOps(d, h, pid));
      && (forall n :: IsItemName(n) ==> (n in d' <==> n in d) && (n in d ==> d'[n] == d[n]))
      && (Unreadable(d') <==> Unreadable(d))
      && (forall done :: Loaded(d', done) <==> Loaded(d, done))
  {
    if HEADER_FILE !in d {
      WriteIsAtomic(d, HEADER_FILE, HeaderFile(h), pid, 3);
      assert WriteOps(HEADER_FILE, HeaderFile(h), pid)[..3] == WriteOps(HEADER_FILE, HeaderFile(h), pid);
      assert !IsItemName(HEADER_FILE);
    }
    hide ApplyAll, OpenOps, IsItemName;
    SameItems(d, ApplyAll(d, OpenOps(d, h, pid)));
  }

  lemma SameItems(d: Disk, d': Disk)
    requires forall n :: IsItemName(n) ==> (n in d' <==> n in d) && (n in d ==> d'[n] == d[n])
    ensures Unreadable(d') <==> Unreadable(d)
    ensures forall done :: Loaded(d', done) <==> Loaded(d, done)
  {
    hide IsItemName;
    forall done
      ensures Loaded(d', done) ==> Loaded(d, done)
      ensures Loaded(d, done) ==> Loaded(d', done)
    {
    }
  }

  /**
   * The runner: known results are reused, everything else is executed and persisted. It stops at a different
   * header, and at an item file that does not parse. `done` is what it loaded.
   */
  method RunBenchmarks(store: Store, exec: Oracle, h: Header, bs: seq<Bench>, pid: nat)
    returns (out: RunOutcome, ghost done: map<string, Item>)
    requires store.Valid()
    modifies store
    ensures store.Valid()
    ensures out.Refused? <==> Refuses(old(store.files), h)
    ensures out.Refused? ==> store.log == old(store.log)
    ensures out.Malformed? <==> !Refuses(old(store.files), h) && Unreadable(old(store.files))
    ensures out.Malformed? ==> store.log == old(store.log) + OpenOps(old(store.files), h, pid)
    ensures out.Completed? ==>
      && Loaded(old(store.files), done)
      && |out.results| == |bs| && (forall i :: 0 <= i < |bs| ==> out.results[i] == Reused(done, exec, h, bs[i].id))
      && out.skipped == Flat(bs, SkipOf(done.Keys))
      && store.log == old(store.log) + OpenOps(old(store.files), h, pid) + Flat(bs, BenchOps(exec, h, pid, done.Keys))
  {
    hide *;
    done := map[];
    ghost var d := store.files;
    var refused := store.OpenRun(h, pid);
    RefusedOpens(d, h, pid, old(store.log));
    if refused {
      return Refused, done;
    }
    OpenKeepsItems(d, h, pid);
    var loaded := store.LoadDone();
    if loaded == None {
      return Malformed, done;
    }
    done := loaded.value;
    var results, skipped := RunAll(store, exec, h, bs, pid, loaded.value);
    return Completed(results, skipped), done;
  }

  lemma RefusedOpens(d: Disk, h: Header, pid: nat, log: seq<Op>)
    ensures Refuses(d, h) ==> log + OpenOps(d, h, pid) == log
  {
  }

  /** What a run from disk d reports for an id. */
  ghost function Reported(d: Disk, exec: Oracle, h: Header, id: string): Item
    requires Tidy(d)
  {
    if Persisted(d, id) then KeptItem(d, id) else Produced(exec, h, id)
  }

  ghost function KeptItem(d: Disk, id: string): Item
    requires Tidy(d) && Persisted(d, id)
  {
    ItemNames(id);
    d[ItemName(id)].item
  }

  lemma TidyIsReadable(d: Disk)
    requires Tidy(d)
    ensures !Unreadable(d)
  {
  }

  /** From a tidy directory the runner performs the specified operations and reuses the files' own results. */
  lemma TidyRun(d: Disk, done: map<string, Item>, exec: Oracle, h: Header, bs: seq<Bench>, pid: nat, log: seq<Op>)
    requires Tidy(d) && !Refuses(d, h) && Loaded(d, done)
    ensures log + OpenOps(d, h, pid) + Flat(bs, BenchOps(exec, h, pid, done.Keys)) == log + RunOps(d, exec, h, bs, pid)
    ensures forall id :: Reused(done, exec, h, id) == Reported(d, exec, h, id)
  {
    hide Tidy, Loaded, Flat, BenchOps, DoneIds, OpenOps, Persisted, ItemName;
    LoadedIsPersisted(d, done);
  }

  method RunAll(store: Store, exec: Oracle, h: Header, bs: seq<Bench>, pid: nat, done: map<string, Item>)
    returns (results: seq<Item>, skipped: seq<string>)
    requires store.Valid()
    modifies store
    ensures store.Valid() && store.log == old(store.log) + Flat(bs, BenchOps(exec, h, pid, done.Keys))
    ensures |results| == |bs| && forall i :: 0 <= i < |bs| ==> results[i] == Reused(done, exec, h, bs[i].id)
    ensures skipped == Flat(bs, SkipOf(done.Keys))
  {
    hide BenchOps, SkipOf, Reused, Store.Valid;
    ghost var step := BenchOps(exec, h, pid, done.Keys);
    results, skipped := [], [];
    for i := 0 to |bs|
      invariant store.Valid() && store.log == old(store.log) + Flat(bs[..i], step)
      invariant |results| == i && forall k :: 0 <= k < i ==> results[k] == Reused(done, exec, h, bs[k].id)
      invariant skipped == Flat(bs[..i], SkipOf(done.Keys))
    {
      FlatStep(bs, i, step);
      FlatStep(bs, i, SkipOf(done.Keys));
      var r, skip := RunOne(store, exec, h, bs[i], pid, done);
      results := results + [r];
      skipped := skipped + skip;
    }
    assert bs[..|bs|] == bs;
  }

  method RunOne(store: Store, exec: Oracle, h: Header, b: Bench, pid: nat, done: map<string, Item>)
    returns (r: Item, skip: seq<string>)
    requires store.Valid()
    modifies store
    ensures store.Valid() && store.log == old(store.log) + BenchOps(exec, h, pid, done.Keys)(b)
    ensures r == Reused(done, exec, h, b.id) && skip == SkipOf(done.Keys)(b)
  {
    if b.id in done {
      return done[b.id], [b.id];
    }
    store.Do(Execute(b.id));
    r := Produced(exec, h, b.id);
    store.WriteAtomic(ItemName(b.id), ItemFile(r), pid);
    skip := [];
  }
}
