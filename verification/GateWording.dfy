/**
 * The gate against its own words (scripts/local-first-gate.ts, scripts/local-first-sinks.ts): the eight
 * rules of its header, and the liveness test that a comment in its guard rule promises.
 */
module GateWording {
  import opened Seqs
  import opened Text
  import opened GateSpec
  import opened GateMeaning
  import opened InstallScan

  // --- the header's rules --------------------------------------------------

  /** Rule 1: some entry covers every host that the file spells. */
  ghost predicate HostsCovered(g: Gate, f: File) {
    forall h :: h in HostsIn(g.rx, f.text) ==> exists k :: 0 <= k < |g.sinks| && Claims(g.sinks[k], h)
  }

  ghost predicate Reaches(g: Gate, f: File, s: Sink) {
    PatternHits(s, f.text) || exists h :: h in HostsIn(g.rx, f.text) && Claims(s, h)
  }

  /** Rule 2: every entry with `files` that the file reaches lists the file. */
  ghost predicate FilesKept(g: Gate, f: File) {
    forall k :: 0 <= k < |g.sinks| && Reaches(g, f, g.sinks[k]) ==> FileAllowed(f.path, g.sinks[k].files)
  }

  ghost predicate GuardHolds(files: seq<File>, gd: Guard) {
    Lookup(files, gd.file).Some? && gd.mustMatch(Lookup(files, gd.file).value)
  }

  /** Rules 3 and 4: a guard that no longer matches has a waiver. */
  ghost predicate GuardsKept(g: Gate, files: seq<File>) {
    forall k, i :: 0 <= k < |g.sinks| && 0 <= i < |g.sinks[k].optIn| && !GuardHolds(files, g.sinks[k].optIn[i]) ==>
      Covers(g, HolderOf(g.sinks[k]))
  }

  /** Rule 4: so has a default sink. */
  ghost predicate DefaultsCovered(g: Gate) {
    forall k :: 0 <= k < |g.sinks| && g.sinks[k].mode == Default ==> Covers(g, HolderOf(g.sinks[k]))
  }

  function Unmarked(g: Gate, f: File): nat { |HitsIn(g.rx.install, f.text)| }

  /** Rule 7, with the pin that each listed site states: more unmarked lines than that fail. */
  ghost predicate InstallsListed(g: Gate, f: File) {
    g.rx.installExcluded(f.path) || Unmarked(g, f) == 0 ||
    (&& (exists i :: 0 <= i < |g.sites| && g.sites[i].file == f.path)
     && (forall i :: 0 <= i < |g.sites| && g.sites[i].file == f.path ==> Unmarked(g, f) <= g.sites[i].max))
  }

  function SiteHolder(site: Site): Holder { Holder(InstallId(site.file), site.waiver) }

  /** Rule 8: a site listed as default has a waiver. */
  ghost predicate SitesCovered(g: Gate) {
    forall k :: 0 <= k < |g.sites| && g.sites[k].mode == SiteDefault ==> Covers(g, SiteHolder(g.sites[k]))
  }

  /**
   * All eight rules. Rule 4 asks a waiver of any failed guard, so rule 3 is read for every entry; rule 7 takes
   * pins and skipped paths from the comments of the list; rules 5 and 6 are each file's own.
   */
  ghost predicate HeaderPolicy(g: Gate, files: seq<File>) {
    && (forall i :: 0 <= i < |files| ==> HostsCovered(g, files[i]) && FilesKept(g, files[i]))
    && GuardsKept(g, files) && DefaultsCovered(g)
    && (forall i :: 0 <= i < |files| ==> TagsOk(g, files[i]) && ServeOk(g, files[i]))
    && (forall i :: 0 <= i < |files| ==> InstallsListed(g, files[i]))
    && SitesCovered(g)
  }

  // --- what the code lets pass ---------------------------------------------

  /** A spelled host that a later entry claims as well, whose `files` omit the path. */
  ghost predicate Shadowed(g: Gate, f: File) {
    exists h, j, k :: 0 <= j < k < |g.sinks| && h in HostsIn(g.rx, f.text)
      && Claims(g.sinks[j], h) && Claims(g.sinks[k], h) && !FileAllowed(f.path, g.sinks[k].files)
  }

  /** A guard that is gone from an entry none of whose patterns is found; with no patterns, its file is gone too. */
  ghost predicate Unguarded(files: seq<File>, s: Sink, gd: Guard) {
    && !GuardHolds(files, gd) && !PatternLive(s, files)
    && (s.patterns.Some? || Lookup(files, gd.file).None?)
  }

  ghost predicate GuardUnnoticed(g: Gate, files: seq<File>) {
    exists k, i :: 0 <= k < |g.sinks| && 0 <= i < |g.sinks[k].optIn|
      && Unguarded(files, g.sinks[k], g.sinks[k].optIn[i]) && !Covers(g, HolderOf(g.sinks[k]))
  }

  ghost predicate IsFirstSite(g: Gate, k: nat)
    requires k < |g.sites|
  {
    forall m :: 0 <= m < k ==> g.sites[m].file != g.sites[k].file
  }

  /** The site's file is scanned and still has unmarked install text, and no earlier site lists it. */
  ghost predicate SiteInUse(g: Gate, files: seq<File>, k: nat)
    requires k < |g.sites|
  {
    && IsFirstSite(g, k)
    && exists i :: 0 <= i < |files| && files[i].path == g.sites[k].file
         && !g.rx.installExcluded(files[i].path) && Unmarked(g, files[i]) > 0
  }

  /** A default site without a waiver that is not in use. */
  ghost predicate SiteUnnoticed(g: Gate, files: seq<File>) {
    exists k :: 0 <= k < |g.sites| && g.sites[k].mode == SiteDefault && !Covers(g, SiteHolder(g.sites[k]))
      && !SiteInUse(g, files, k)
  }

  /** A second listing of a file, with a pin that the file exceeds. */
  ghost predicate PinUnnoticed(g: Gate, f: File) {
    !g.rx.installExcluded(f.path)
    && exists k :: 0 <= k < |g.sites| && g.sites[k].file == f.path && !IsFirstSite(g, k)
         && Unmarked(g, f) > g.sites[k].max
  }

  ghost predicate Gap(g: Gate, files: seq<File>) {
    || (exists i :: 0 <= i < |files| && Shadowed(g, files[i]))
    || GuardUnnoticed(g, files)
    || SiteUnnoticed(g, files)
    || (exists i :: 0 <= i < |files| && PinUnnoticed(g, files[i]))
  }

  lemma ReachByHosts(g: Gate, f: File)
    ensures ReachOk(g, f) <==>
            && (forall h :: h in HostsIn(g.rx, f.text) ==> HostOk(g, f.path, h))
            && (forall k :: 0 <= k < |g.sinks| && PatternHits(g.sinks[k], f.text) ==>
                  FileAllowed(f.path, g.sinks[k].files))
  {
    hide HostName, HostsOf, HostOk, PatternHits, FileAllowed;
    forall h
      ensures h in HostsIn(g.rx, f.text)
              <==> exists t :: t in g.rx.hostTokens(f.text) && HostName(t) == h && !g.rx.localHost(h)
    {
      HostsOfMember(g.rx, g.rx.hostTokens(f.text), h);
    }
  }

  /** One host under first-match ownership: what the code asks, and what it does not see. */
  lemma HostWording(g: Gate, path: string, h: string)
    ensures
      var later := exists j, k :: 0 <= j < k < |g.sinks| && Claims(g.sinks[j], h) && Claims(g.sinks[k], h)
                     && !FileAllowed(path, g.sinks[k].files);
      HostOk(g, path, h) && !later
      <==> && (exists k :: 0 <= k < |g.sinks| && Claims(g.sinks[k], h))
           && (forall k :: 0 <= k < |g.sinks| && Claims(g.sinks[k], h) ==> FileAllowed(path, g.sinks[k].files))
  {
    hide Claims, FileAllowed;
    var o := OwnerIndex(g.sinks, h);
    if o < |g.sinks| && FileAllowed(path, g.sinks[o].files) {
      assert HostOk(g, path, h);
    }
  }

  lemma ReachWording(g: Gate, f: File)
    ensures ReachOk(g, f) && !Shadowed(g, f) <==> HostsCovered(g, f) && FilesKept(g, f)
  {
    hide ReachOk, HostOk, HostsIn, Claims, PatternHits, FileAllowed;
    ReachByHosts(g, f);
    forall h {
      HostWording(g, f.path, h);
    }
  }

  lemma GuardWording(g: Gate, files: seq<File>)
    ensures (forall k :: 0 <= k < |g.sinks| ==> SinkOk(g, files, g.sinks[k])) && !GuardUnnoticed(g, files)
            <==> GuardsKept(g, files) && DefaultsCovered(g)
  {
    hide Covers, PatternLive, Lookup;
    forall s: Sink, gd
      ensures !GuardHolds(files, gd) <==> GuardBroken(files, s, gd) || Unguarded(files, s, gd)
    {
      OneGuardWording(files, s, gd);
    }
  }

  lemma OneGuardWording(files: seq<File>, s: Sink, gd: Guard)
    ensures !GuardHolds(files, gd) <==> GuardBroken(files, s, gd) || Unguarded(files, s, gd)
  {
    hide Lookup;
    if s.patterns.None? {
      assert !PatternLive(s, files);
    }
  }

  lemma FileInstallWording(g: Gate, f: File)
    ensures SitesCovered(g) && InstallsListed(g, f) ==> InstallOk(g, f)
    ensures InstallOk(g, f) && !PinUnnoticed(g, f) ==> InstallsListed(g, f)
    ensures InstallsListed(g, f) ==> !PinUnnoticed(g, f)
  {
    hide Covers, HitsIn, InstallId;
    var o := SiteIndex(g.sites, f.path);
    if o < |g.sites| {
      assert SiteHolder(g.sites[o]) == Holder(InstallId(f.path), g.sites[o].waiver);
    }
  }

  /** A default site in use is settled by the code, so a passing file covers it. */
  lemma SiteInUseIsCovered(g: Gate, files: seq<File>, k: nat)
    requires k < |g.sites| && g.sites[k].mode == SiteDefault && SiteInUse(g, files, k)
    requires forall i :: 0 <= i < |files| ==> InstallOk(g, files[i])
    ensures Covers(g, SiteHolder(g.sites[k]))
  {
    hide Covers, HitsIn, InstallId, InstallOk;
    var i :| 0 <= i < |files| && files[i].path == g.sites[k].file
      && !g.rx.installExcluded(files[i].path) && Unmarked(g, files[i]) > 0;
    assert InstallOk(g, files[i]);
    FirstSiteIsCovered(g, files[i], k);
  }

  lemma FirstSiteIsCovered(g: Gate, f: File, k: nat)
    requires k < |g.sites| && g.sites[k].mode == SiteDefault && IsFirstSite(g, k) && g.sites[k].file == f.path
    requires InstallOk(g, f) && !g.rx.installExcluded(f.path) && Unmarked(g, f) > 0
    ensures Covers(g, SiteHolder(g.sites[k]))
  {
    hide Covers, HitsIn, InstallId;
    var o :| 0 <= o < |g.sites| && g.sites[o].file == f.path && (forall m :: 0 <= m < o ==> g.sites[m].file != f.path)
      && (g.sites[o].mode == SiteDefault ==> Covers(g, Holder(InstallId(f.path), g.sites[o].waiver)));
    assert o == k;
  }

  lemma InstallWording(g: Gate, files: seq<File>)
    ensures
      && (forall i :: 0 <= i < |files| ==> InstallOk(g, files[i]))
      && !SiteUnnoticed(g, files) && !(exists i :: 0 <= i < |files| && PinUnnoticed(g, files[i]))
      <==> (forall i :: 0 <= i < |files| ==> InstallsListed(g, files[i])) && SitesCovered(g)
  {
    hide Covers, InstallOk, InstallsListed, PinUnnoticed, SiteInUse, SiteHolder;
    forall i | 0 <= i < |files| {
      FileInstallWording(g, files[i]);
    }
    if (forall i :: 0 <= i < |files| ==> InstallOk(g, files[i])) && !SiteUnnoticed(g, files) {
      forall k | 0 <= k < |g.sites| && g.sites[k].mode == SiteDefault
        ensures Covers(g, SiteHolder(g.sites[k]))
      {
        if SiteInUse(g, files, k) {
          SiteInUseIsCovered(g, files, k);
        }
      }
    }
  }

  /**
   * The gate against its header. The header's policy holds exactly when the gate passes and none of four
   * things is there: a host shadowed by an earlier entry, a guard gone from an entry that no pattern shows to
   * be live, a default site without a waiver that is not in use, a pin on a second listing of a file. So a
   * gate that fails is always right by its header, and one that passes is right exactly without these.
   */
  lemma GateMeetsHeader(g: Gate, files: seq<File>)
    ensures HeaderPolicy(g, files) <==> Failures(g, files) == [] && !Gap(g, files)
  {
    hide Failures, ReachOk, SinkOk, InstallOk, TagsOk, ServeOk, HostsCovered, FilesKept, GuardsKept,
         DefaultsCovered, InstallsListed, SitesCovered, Shadowed, GuardUnnoticed, SiteUnnoticed, PinUnnoticed;
    GateMeansPolicy(g, files);
    GuardWording(g, files);
    InstallWording(g, files);
    forall i | 0 <= i < |files|
      ensures ReachOk(g, files[i]) && !Shadowed(g, files[i]) <==> HostsCovered(g, files[i]) && FilesKept(g, files[i])
    {
      ReachWording(g, files[i]);
    }
  }

  // --- inputs that pass against the header ---------------------------------

  /** A gate with no waivers, no model-list readers and no daemon. */
  function PlainGate(sinks: seq<Sink>, sites: seq<Site>, tokens: string -> seq<string>, installs: seq<Test>): Gate {
    var never := (t: string) => false;
    Gate(sinks, sites, [],
         Regexes(tokens, never, Tests(never, installs, never), never, never, never, never, never, never),
         true, "2026-01-01")
  }

  const HOST := "api.v.io"

  function Spells(): string -> seq<string> { (t: string) => [HOST] }
  function SpellsNothing(): string -> seq<string> { (t: string) => [] }

  function Entry(id: string, files: Option<seq<string>>): Sink {
    Sink(id, OptIn, [HOST], None, files, [], None)
  }

  lemma PlainHost(s: Sink)
    requires s.hosts == [HOST]
    ensures HostName(HOST) == HOST && HostMatches(HOST, HOST) && Claims(s, HostName(HOST))
  {
    assert "*."[0] == '*' && HOST[0] == 'a' && HOST in s.hosts;
    assert LowerAll(HOST) == HOST;
  }

  lemma {:induction false} NoPatternsNoHits(t: Tests, lines: seq<string>, inBlock: bool, above: string, base: nat)
    requires t.patterns == []
    ensures Scan(t, lines, inBlock, above, base) == []
  {
    if lines != [] {
      hide Read, Excerpt, MarkedAbove;
      NoPatternsNoHits(t, lines[1..], Read(inBlock, lines[0]).0, lines[0], base + 1);
    }
  }

  lemma NoInstalls(g: Gate, f: File)
    requires g.rx.install.patterns == []
    ensures Unmarked(g, f) == 0
  {
    hide Scan, Split;
    NoPatternsNoHits(g.rx.install, Split(f.text, '\n'), false, "", 0);
  }

  function ShadowGate(): Gate {
    PlainGate([Entry("a", None), Entry("b", Some(["x.ts"]))], [], Spells(), [])
  }

  /** A gate with guardless entries only, and no install sites or patterns, asks about hosts and patterns alone. */
  lemma PlainPolicy(sinks: seq<Sink>, tokens: string -> seq<string>, files: seq<File>)
    requires forall s :: s in sinks ==> s.mode == OptIn && s.optIn == []
    ensures
      var g := PlainGate(sinks, [], tokens, []);
      (forall i :: 0 <= i < |files| ==> ReachOk(g, files[i])) ==> Policy(g, files)
  {
    var g := PlainGate(sinks, [], tokens, []);
    hide ReachOk, HitsIn;
    forall i | 0 <= i < |files|
      ensures InstallOk(g, files[i])
    {
      NoInstalls(g, files[i]);
    }
  }

  lemma ShadowAllows(f: File)
    requires f.path == "y.ts"
    ensures !FileAllowed(f.path, Entry("b", Some(["x.ts"])).files)
  {
    assert "y.ts"[0] == 'y' && "x.ts"[0] == 'x' && "x.ts"[3] == 's';
  }

  /** Two entries that claim the one host of a file; the first allows the file and the second does not. */
  lemma SecondIsShadowed(g: Gate, f: File, h: string)
    requires |g.sinks| == 2 && g.sinks[0].patterns.None? && g.sinks[1].patterns.None?
    requires Claims(g.sinks[0], h) && Claims(g.sinks[1], h)
    requires FileAllowed(f.path, g.sinks[0].files) && !FileAllowed(f.path, g.sinks[1].files)
    requires HostsIn(g.rx, f.text) == [h]
    ensures ReachOk(g, f) && Shadowed(g, f)
  {
    hide Claims, FileAllowed, HostsIn, ReachOk;
    ReachByHosts(g, f);
    assert h in [h] && HostOk(g, f.path, h);
  }

  lemma SpelledOnce(rx: Regexes, f: File)
    requires rx.hostTokens == Spells() && !rx.localHost(HOST)
    ensures HostsIn(rx, f.text) == [HOST]
  {
    PlainHost(Entry("a", None));
    hide HostName;
    assert rx.hostTokens(f.text) == [HOST] && [HOST][..0] == [] && [HOST][|[HOST]| - 1] == HOST;
    assert HostsOf(rx, []) == [];
  }

  /** Two entries claim one host; only the second restricts its files, and the file is not among them. */
  lemma ShadowExample(f: File)
    requires f.path == "y.ts"
    ensures Failures(ShadowGate(), [f]) == [] && !HeaderPolicy(ShadowGate(), [f])
  {
    hide Failures, HeaderPolicy, HostName, HostMatches, HitsIn, Policy, Gap, Claims, HostsOf, PatternHits;
    var g, a, b := ShadowGate(), Entry("a", None), Entry("b", Some(["x.ts"]));
    assert g.sinks == [a, b] && FileAllowed(f.path, a.files) && g == PlainGate([a, b], [], Spells(), []);
    assert g.rx.hostTokens == Spells() && !g.rx.localHost(HOST);
    assert a.patterns.None? && b.patterns.None? && a.mode == b.mode == OptIn && a.optIn == b.optIn == [];
    assert a.hosts == b.hosts == [HOST];
    hide *;
    PlainHost(a);
    PlainHost(b);
    ShadowAllows(f);
    SpelledOnce(g.rx, f);
    SecondIsShadowed(g, f, HOST);
    PlainPolicy([a, b], Spells(), [f]);
    GateMeansPolicy(g, [f]);
    ShadowIsGap(g, f);
    GateMeetsHeader(g, [f]);
  }

  lemma ShadowIsGap(g: Gate, f: File)
    requires Shadowed(g, f)
    ensures Gap(g, [f])
  {
    hide Shadowed;
    assert [f][0] == f;
  }

  function IdleSiteGate(): Gate {
    PlainGate([], [Site("a.ts", SiteDefault, 1, None)], SpellsNothing(), [])
  }

  /** A default site without a waiver whose file has no install text left, or is gone. */
  lemma IdleSiteExample(files: seq<File>)
    ensures Failures(IdleSiteGate(), files) == [] && !HeaderPolicy(IdleSiteGate(), files)
  {
    var g := IdleSiteGate();
    hide HostName, HitsIn, Failures, HeaderPolicy;
    forall i | 0 <= i < |files|
      ensures Unmarked(g, files[i]) == 0
    {
      NoInstalls(g, files[i]);
    }
    assert Policy(g, files);
    GateMeansPolicy(g, files);
    assert !SiteInUse(g, files, 0) && g.sites[0].mode == SiteDefault && g.noWaivers;
    assert SiteUnnoticed(g, files) && Gap(g, files);
    GateMeetsHeader(g, files);
  }

  function SecondPinGate(): Gate {
    PlainGate([], [Site("a.ts", SiteOptIn, 1, None), Site("a.ts", SiteOptIn, 0, None)], SpellsNothing(),
              [(t: string) => true])
  }

  /** A file listed twice that exceeds only its second pin. */
  lemma SecondPinExample()
    ensures
      var files := [File("a.ts", "x")];
      Failures(SecondPinGate(), files) == [] && !HeaderPolicy(SecondPinGate(), files)
  {
    var g, f := SecondPinGate(), File("a.ts", "x");
    hide Failures, HeaderPolicy, HostName, HitsIn, Policy, Gap, HostsOf, PatternHits, ReachOk, InstallOk;
    assert g.sinks == [] && g.rx.hostTokens == SpellsNothing();
    assert g.sites == [Site("a.ts", SiteOptIn, 1, None), Site("a.ts", SiteOptIn, 0, None)];
    assert !g.rx.readsTags(f.text) && !g.rx.servesList(f.text) && !g.rx.installExcluded(f.path);
    OneInstallLine(g.rx.install);
    hide *;
    SinklessPolicy(g, f);
    SecondIsOverPin(g, f);
    GateMeansPolicy(g, [f]);
    PinIsGap(g, f);
    GateMeetsHeader(g, [f]);
  }

  lemma SinklessPolicy(g: Gate, f: File)
    requires g.sinks == [] && g.rx.hostTokens == SpellsNothing()
    requires !g.rx.readsTags(f.text) && !g.rx.servesList(f.text)
    ensures InstallOk(g, f) ==> Policy(g, [f])
  {
    hide InstallOk, HostName;
  }

  lemma SecondIsOverPin(g: Gate, f: File)
    requires g.sites == [Site(f.path, SiteOptIn, 1, None), Site(f.path, SiteOptIn, 0, None)]
    requires Unmarked(g, f) == 1 && !g.rx.installExcluded(f.path)
    ensures InstallOk(g, f) && PinUnnoticed(g, f)
  {
    hide HitsIn;
    assert g.sites[0].file == g.sites[1].file == f.path && g.sites[0].max == 1;
    assert !IsFirstSite(g, 1);
  }

  lemma PinIsGap(g: Gate, f: File)
    requires PinUnnoticed(g, f)
    ensures Gap(g, [f])
  {
    hide PinUnnoticed;
    assert [f][0] == f;
  }

  lemma OneInstallLine(t: Tests)
    requires t.patterns == [(s: string) => true] && !t.own("x") && !t.marker("x") && !t.marker("")
    ensures |HitsIn(t, "x")| == 1
  {
    var line := "x";
    assert TrimStart(line) == line && TrimStart("") == "";
    assert "//"[0] == '/' && "/*"[0] == '/' && line[0] == 'x';
    SplitAtom(line, '\n');
    assert Read(false, line) == (false, Some(line));
    assert t.patterns[0](line);
    assert Flagged(t, false, "", line);
    hide Read, Flagged, Excerpt, Split;
    assert [line] != [] && [line][1..] == [] && [line][0] == line;
    assert Own(t, false, "", line, 1) == [Hit(1, Excerpt(line))];
    assert Scan(t, [line], false, "", 0) == Own(t, false, "", line, 1) + Scan(t, [], Read(false, line).0, line, 1);
    assert Scan(t, [], Read(false, line).0, line, 1) == [];
  }
}
