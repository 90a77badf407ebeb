/**
 * The run directory of a resumable benchmark run (benchmarks/run-store.ts).
 *
 * Every primitive file operation is logged, so that a crash is any prefix of the log: a temp file can
 * be left torn or complete, and a rename has happened or not.
 */
module RunStore {
  import opened Seqs
  import opened Text

  datatype Header = Header(model: string, provider: string, seed: Option<int>)
  datatype Outcome = Outcome(score: int, tokens: int, code: Option<string>, duration: int)
  datatype Item = Item(id: string, outcome: Outcome)

  /** File contents; a file being written is torn until the write ends. */
  datatype Content = Torn | HeaderFile(header: Header) | ItemFile(item: Item)
  type Disk = map<string, Content>

  datatype Op =
    | WriteStart(name: string)
    | WriteEnd(name: string, content: Content)
    | Rename(from: string, to: string)
    | Execute(id: string)

  const HEADER_FILE := "_run.json"
  const JSON := ".json"

  function ItemName(id: string): string { id + JSON }

  function Digits(n: nat): (s: string)
    ensures s != "" && IsDigit(s[|s| - 1])
  {
    var last := [('0' as int + n % 10) as char];
    if n < 10 then last else Digits(n / 10) + last
  }

  function TempName(file: string, pid: nat): string {
    file + ".tmp-" + Digits(pid)
  }

  /** The names `loadDone` reads as finished items. */
  predicate IsItemName(name: string) {
    EndsWith(name, JSON) && name != HEADER_FILE
  }

  predicate IsReadName(name: string) {
    name == HEADER_FILE || IsItemName(name)
  }

  lemma TempNeverRead(file: string, pid: nat)
    ensures !IsReadName(TempName(file, pid))
  {
    var t := TempName(file, pid);
    assert t[|t| - 1] == Digits(pid)[|Digits(pid)| - 1];
    assert JSON[4] == HEADER_FILE[|HEADER_FILE| - 1] == 'n';
  }

  lemma ItemNames(id: string)
    ensures EndsWith(ItemName(id), JSON) && ItemName(id)[..|ItemName(id)| - 5] == id
    ensures IsItemName(ItemName(id)) <==> id != "_run"
  {
    assert ItemName(id)[|id|..] == JSON;
    assert HEADER_FILE == ItemName("_run");
    assert HEADER_FILE[..4] == "_run";
    assert ItemName(id)[..|id|] == id;
  }

  /** A finished item's file is its id with the extension; only the header's id has none. */
  lemma ItemNameMeaning(name: string)
    ensures IsItemName(name) <==> exists id :: id != "_run" && name == id + ".json"
  {
    if IsItemName(name) {
      var id := name[..|name| - 5];
      assert name == id + JSON;
      ItemNames(id);
    }
    if id :| id != "_run" && name == id + ".json" {
      ItemNames(id);
    }
  }

  ghost function Spelled(s: string): nat
    requires forall c :: c in s ==> IsDigit(c)
  {
    if s == "" then 0 else 10 * Spelled(s[..|s| - 1]) + DigitValue(s[|s| - 1])
  }

  lemma {:induction false} DigitsSpell(n: nat)
    ensures (forall c :: c in Digits(n) ==> IsDigit(c)) && Spelled(Digits(n)) == n
  {
    var last := ('0' as int + n % 10) as char;
    if n < 10 {
      assert [last][..0] == "" && Digits(n) == [last];
    } else {
      DigitsSpell(n / 10);
      assert Digits(n) == Digits(n / 10) + [last] && Digits(n)[..|Digits(n)| - 1] == Digits(n / 10);
    }
  }

  /** Two processes never write one temp file. */
  lemma TempNamesDiffer(file: string, p: nat, q: nat)
    ensures TempName(file, p) == TempName(file, q) <==> p == q
    ensures forall c :: c in TempName(file, p)[|file| + 5..] ==> IsDigit(c)
  {
    DigitsSpell(p);
    DigitsSpell(q);
    assert TempName(file, p)[|file| + 5..] == Digits(p) && TempName(file, q)[|file| + 5..] == Digits(q);
    hide Digits;
  }

  // --- operations and their effect -----------------------------------------

  function Apply(d: Disk, op: Op): Disk {
    match op
    case WriteStart(name) => d[name := Torn]
    case WriteEnd(name, content) => d[name := content]
    case Rename(from, to) => if from in d then (d - {from})[to := d[from]] else d
    case Execute(_) => d
  }

  function ApplyAll(d: Disk, ops: seq<Op>): Disk {
    if ops == [] then d else Apply(ApplyAll(d, ops[..|ops| - 1]), ops[|ops| - 1])
  }

  lemma {:induction false} ApplyConcat(d: Disk, a: seq<Op>, b: seq<Op>)
    ensures ApplyAll(d, a + b) == ApplyAll(ApplyAll(d, a), b)
  {
    if b == [] {
      assert a + b == a;
    } else {
      assert (a + b)[..|a + b| - 1] == a + b[..|b| - 1];
      ApplyConcat(d, a, b[..|b| - 1]);
    }
  }

  function WriteOps(file: string, content: Content, pid: nat): seq<Op> {
    var tmp := TempName(file, pid);
    [WriteStart(tmp), WriteEnd(tmp, content), Rename(tmp, file)]
  }

  /** Resuming is refused when the recorded header differs, or the header file does not parse to one. */
  predicate Refuses(d: Disk, h: Header) {
    HEADER_FILE in d && d[HEADER_FILE] != HeaderFile(h)
  }

  /** Refused: a recorded header that is none, or differs in model, provider or seed. */
  lemma RefusesMeaning(d: Disk, h: Header)
    ensures Refuses(d, h) <==>
            && "_run.json" in d
            && match d["_run.json"]
               case HeaderFile(r) => r.model != h.model || r.provider != h.provider || r.seed != h.seed
               case _ => true
  {
  }

  function OpenOps(d: Disk, h: Header, pid: nat): seq<Op> {
    if HEADER_FILE in d then [] else WriteOps(HEADER_FILE, HeaderFile(h), pid)
  }

  /** Some item file does not parse. */
  ghost predicate Unreadable(d: Disk) {
    exists n :: n in d && IsItemName(n) && d[n].Torn?
  }

  /**
   * Every item file is read, and what is known under an id is a file's own content. A file that parses
   * without being a result has no id, so nothing is known by it.
   */
  ghost predicate Loaded(d: Disk, done: map<string, Item>) {
    && (forall n :: n in d && IsItemName(n) ==> !d[n].Torn? && (d[n].ItemFile? ==> d[n].item.id in done))
    && (forall id :: id in done ==>
          exists n :: n in d && IsItemName(n) && d[n] == ItemFile(done[id]) && done[id].id == id)
  }

  // --- the store as the script runs it -------------------------------------

  class Store {
    var files: Disk
    ghost const initial: Disk
    ghost var log: seq<Op>

    ghost predicate Valid() reads this {
      files == ApplyAll(initial, log)
    }

    constructor (files: Disk)
      ensures Valid() && this.files == initial == files && log == []
    {
      this.files, initial, log := files, files, [];
    }

    method Do(op: Op)
      requires Valid()
      modifies this
      ensures Valid() && log == old(log) + [op] && files == Apply(old(files), op)
    {
      files := Apply(files, op);
      log := log + [op];
      assert log[..|log| - 1] == old(log);
    }

    method WriteAtomic(file: string, content: Content, pid: nat)
      requires Valid()
      modifies this
      ensures Valid() && log == old(log) + WriteOps(file, content, pid)
    {
      var tmp := TempName(file, pid);
      Do(WriteStart(tmp));
      Do(WriteEnd(tmp, content));
      Do(Rename(tmp, file));
    }

    method OpenRun(h: Header, pid: nat) returns (refused: bool)
      requires Valid()
      modifies this
      ensures Valid() && refused == Refuses(old(files), h)
      ensures log == old(log) + OpenOps(old(files), h, pid)
      ensures files == ApplyAll(old(files), OpenOps(old(files), h, pid))
    {
      ApplyConcat(initial, log, OpenOps(files, h, pid));
      if HEADER_FILE in files {
        var prev := files[HEADER_FILE];
        return prev != HeaderFile(h);
      }
      WriteAtomic(HEADER_FILE, HeaderFile(h), pid);
      refused := false;
    }

    /** Reads every finished item; None when a file does not parse as one. */
    method LoadDone() returns (done: Option<map<string, Item>>)
      ensures done == None <==> Unreadable(files)
      ensures done.Some? ==> Loaded(files, done.value)
    {
      var todo := files.Keys;
      var found: map<string, Item> := map[];
      while todo != {}
        invariant todo <= files.Keys
        invariant forall n :: n in files && n !in todo && IsItemName(n) ==>
          !files[n].Torn? && (files[n].ItemFile? ==> files[n].item.id in found)
        invariant forall id :: id in found ==>
          exists n :: n in files && IsItemName(n) && files[n] == ItemFile(found[id]) && found[id].id == id
        decreases |todo|
      {
        var name :| name in todo;
        todo := todo - {name};
        if IsItemName(name) {
          if files[name].Torn? {
            return None;
          }
          if files[name].ItemFile? {
            var item := files[name].item;
            found := found[item.id := item];
          }
        }
      }
      return Some(found);
    }
  }

  // --- the invariant of a run directory ------------------------------------

  /** Executing and grading one benchmark in one run: what it yields may differ from run to run. */
  type Oracle = (Header, string) -> Outcome

  /** Which items a run under a header may have produced. */
  type Origin = (Header, Item) -> bool

  function Produced(exec: Oracle, h: Header, id: string): Item {
    Item(id, exec(h, id))
  }

  ghost predicate Makes(made: Origin, exec: Oracle, h: Header) {
    forall id :: made(h, Produced(exec, h, id))
  }

  /** Item files hold complete results, named by their id, beside the header. */
  ghost predicate Tidy(d: Disk) {
    && (HEADER_FILE in d ==> d[HEADER_FILE].HeaderFile?)
    && (forall n :: n in d && IsItemName(n) ==> HEADER_FILE in d && d[n].ItemFile? && n == ItemName(d[n].item.id))
  }

  /** And each was produced under the recorded header. */
  ghost predicate RunDir(made: Origin, d: Disk) {
    && Tidy(d)
    && (forall n :: n in d && IsItemName(n) ==> made(d[HEADER_FILE].header, d[n].item))
  }

  /** d' is a later state of the run directory d: nothing read from it changed. */
  ghost predicate Grows(made: Origin, d: Disk, d': Disk) {
    && RunDir(made, d')
    && (forall n :: n in d && IsReadName(n) ==> n in d' && d'[n] == d[n])
  }

  /** After any prefix of an atomic write, the file is as before or complete. */
  lemma WriteIsAtomic(d: Disk, file: string, content: Content, pid: nat, k: nat)
    requires k <= 3
    ensures
      var d' := ApplyAll(d, WriteOps(file, content, pid)[..k]);
      forall n :: IsReadName(n) && (n != file || k < 3) ==>
        (n in d' <==> n in d) && (n in d ==> d'[n] == d[n])
    ensures k == 3 ==>
      var d' := ApplyAll(d, WriteOps(file, content, pid));
      file in d' && d'[file] == content
  {
    var ops, tmp := WriteOps(file, content, pid), TempName(file, pid);
    TempNeverRead(file, pid);
    hide IsReadName, TempName, Apply;
    var d1 := d[tmp := Torn];
    var d2 := d1[tmp := content];
    WriteStates(d, file, content, pid);
    assert ops[..3] == ops;
  }

  lemma WriteStates(d: Disk, file: string, content: Content, pid: nat)
    ensures
      var ops, tmp := WriteOps(file, content, pid), TempName(file, pid);
      && ApplyAll(d, ops[..0]) == d
      && ApplyAll(d, ops[..1]) == d[tmp := Torn]
      && ApplyAll(d, ops[..2]) == d[tmp := content]
      && ApplyAll(d, ops) == (d - {tmp})[file := content]
  {
    hide TempName;
    var ops, tmp := WriteOps(file, content, pid), TempName(file, pid);
    assert ops[..1][..0] == ops[..0] && ops[..2][..1] == ops[..1];
    assert ops[..|ops| - 1] == ops[..2];
    assert d[tmp := Torn][tmp := content] == d[tmp := content];
    assert (d[tmp := content] - {tmp})[file := content] == (d - {tmp})[file := content];
  }

  lemma HeaderIsNoItem()
    ensures IsReadName(HEADER_FILE) && !IsItemName(HEADER_FILE)
  {
  }

  lemma OpenGrows(made: Origin, d: Disk, h: Header, pid: nat, k: nat)
    requires RunDir(made, d) && k <= |OpenOps(d, h, pid)|
    ensures Grows(made, d, ApplyAll(d, OpenOps(d, h, pid)[..k]))
    ensures !Refuses(d, h) ==>
      var d' := ApplyAll(d, OpenOps(d, h, pid));
      HEADER_FILE in d' && d'[HEADER_FILE] == HeaderFile(h)
    ensures forall n :: IsItemName(n) ==> (n in ApplyAll(d, OpenOps(d, h, pid)[..k]) <==> n in d)
  {
    var ops := OpenOps(d, h, pid);
    if HEADER_FILE in d {
      assert ops == ops[..k] == [] && ApplyAll(d, []) == d;
    } else {
      assert |ops| == 3 && ops == WriteOps(HEADER_FILE, HeaderFile(h), pid);
      hide ApplyAll, WriteOps, OpenOps, IsItemName, ItemName, Refuses;
      WriteIsAtomic(d, HEADER_FILE, HeaderFile(h), pid, k);
      WriteIsAtomic(d, HEADER_FILE, HeaderFile(h), pid, 3);
      assert ops[..3] == ops;
      HeaderIsNoItem();
    }
  }

  /** Saving a produced result keeps the directory sound at every crash point. */
  lemma SaveGrows(made: Origin, d: Disk, h: Header, item: Item, pid: nat, k: nat)
    requires RunDir(made, d) && HEADER_FILE in d && d[HEADER_FILE] == HeaderFile(h) && made(h, item)
    requires item.id != "_run" && k <= 3
    requires ItemName(item.id) in d ==> d[ItemName(item.id)] == ItemFile(item)
    ensures
      var ops := WriteOps(ItemName(item.id), ItemFile(item), pid);
      var d' := ApplyAll(d, ops[..k]);
      && Grows(made, d, d')
      && (forall n :: IsItemName(n) && n in d' ==> n in d || (n == ItemName(item.id) && d'[n] == ItemFile(item)))
      && (k == 3 ==> ItemName(item.id) in d')
  {
    var file, content := ItemName(item.id), ItemFile(item);
    ItemNames(item.id);
    assert IsReadName(HEADER_FILE) && file != HEADER_FILE;
    WriteIsAtomic(d, file, content, pid, k);
    assert WriteOps(file, content, pid)[..3] == WriteOps(file, content, pid) by {
      WriteStates(d, file, content, pid);
    }
    hide ApplyAll, WriteOps, IsItemName, ItemName;
    var d' := ApplyAll(d, WriteOps(file, content, pid)[..k]);
    assert d'[HEADER_FILE] == d[HEADER_FILE];
    forall n | IsItemName(n) && n in d'
      ensures d'[n].ItemFile? && n == ItemName(d'[n].item.id) && made(h, d'[n].item)
    {
      if n != file || k < 3 {
        assert n in d && d'[n] == d[n];
      }
    }
  }
}
