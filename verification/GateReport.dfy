/** Exactly which findings and warnings a gate run reports (scripts/local-first-gate.ts). */
module GateReport {
  import opened Seqs
  import opened Text
  import opened GateSpec
  import GateMeaning
  import GateWarnings
  import InstallScan

  // --- what is there to say, rule by rule ----------------------------------

  /** The file spells a host, not this machine's, under the given name. */
  ghost predicate Spells(g: Gate, f: File, h: string) {
    exists t :: t in g.rx.hostTokens(f.text) && HostName(t) == h && !g.rx.localHost(h)
  }

  ghost predicate NoEntry(g: Gate, h: string) {
    forall k :: 0 <= k < |g.sinks| ==> !Claims(g.sinks[k], h)
  }

  ghost predicate FirstEntry(g: Gate, h: string, k: nat)
    requires k < |g.sinks|
  {
    Claims(g.sinks[k], h) && forall m :: 0 <= m < k ==> !Claims(g.sinks[m], h)
  }

  /** One of the entry's patterns is found in the text. */
  ghost predicate Found(s: Sink, text: string) {
    s.patterns.Some? && exists j :: 0 <= j < |s.patterns.value| && s.patterns.value[j](text)
  }

  ghost predicate FoundAnywhere(files: seq<File>, s: Sink) {
    exists i :: 0 <= i < |files| && Found(s, files[i].text)
  }

  ghost predicate NoFile(files: seq<File>, path: string) {
    forall i :: 0 <= i < |files| ==> files[i].path != path
  }

  /** The text that a path has in the file map. */
  ghost predicate HasText(files: seq<File>, path: string, i: int) {
    0 <= i < |files| && files[i].path == path && forall j :: 0 <= j < i ==> files[j].path != path
  }

  ghost predicate GuardLost(files: seq<File>, gd: Guard) {
    exists i :: HasText(files, gd.file, i) && !gd.mustMatch(files[i].text)
  }

  /** Rule 3 as coded. */
  ghost predicate GuardFails(files: seq<File>, s: Sink, gd: Guard) {
    || (NoFile(files, gd.file) && FoundAnywhere(files, s))
    || (GuardLost(files, gd) && (s.patterns.None? || FoundAnywhere(files, s)))
  }

  /** Unmarked install lines of a file that is not skipped. */
  ghost predicate Installs(g: Gate, f: File, n: nat) {
    !g.rx.installExcluded(f.path) && n == |InstallScan.HitsIn(g.rx.install, f.text)|
  }

  ghost predicate NoSite(g: Gate, path: string) {
    forall k :: 0 <= k < |g.sites| ==> g.sites[k].file != path
  }

  ghost predicate FirstSite(g: Gate, path: string, k: nat)
    requires k < |g.sites|
  {
    g.sites[k].file == path && forall m :: 0 <= m < k ==> g.sites[m].file != path
  }

  /** Rule 5: a model-list reader that neither filters nor is the helper nor is reviewed with a reason. */
  ghost predicate ReadsUnfiltered(g: Gate, f: File) {
    && f.path != "packages/core/ollama-cloud.ts" && g.rx.readsTags(f.text) && !g.rx.cloudFilter(f.text)
    && forall r :: r in g.reviewed && r.file == f.path ==> r.reason == ""
  }

  /** Rule 6: starting the daemon without turning its cloud models off. */
  ghost predicate ServesCloud(g: Gate, f: File) {
    g.rx.servesList(f.text) && g.rx.namesOllama(f.text) && !g.rx.noCloud(f.text)
  }

  // --- rules 1 and 2 -------------------------------------------------------

  ghost predicate NewHostIn(g: Gate, f: File) {
    exists h :: Spells(g, f, h) && NoEntry(g, h)
  }

  ghost predicate NewPathIn(g: Gate, f: File, k: nat)
    requires k < |g.sinks|
  {
    && !FileAllowed(f.path, g.sinks[k].files)
    && (Found(g.sinks[k], f.text) || exists h :: Spells(g, f, h) && FirstEntry(g, h, k))
  }

  ghost predicate ReachSaid(g: Gate, files: seq<File>, e: Event) {
    match e
    case Raise(None, Finding(NewHost, None, Some(path))) =>
      exists i :: 0 <= i < |files| && files[i].path == path && NewHostIn(g, files[i])
    case Raise(None, Finding(NewPath, Some(id), Some(path))) =>
      exists i, k :: 0 <= i < |files| && 0 <= k < |g.sinks|
        && files[i].path == path && g.sinks[k].id == id && NewPathIn(g, files[i], k)
    case _ => false
  }

  /** What one file's hosts and patterns raise. */
  ghost predicate FileReachSaid(g: Gate, f: File, e: Event) {
    || (e == Raise(None, Finding(NewHost, None, Some(f.path))) && NewHostIn(g, f))
    || exists k :: 0 <= k < |g.sinks| && NewPathIn(g, f, k)
         && e == Raise(None, Finding(NewPath, Some(g.sinks[k].id), Some(f.path)))
  }

  lemma HostsAreSpelled(g: Gate, f: File)
    ensures forall h :: h in HostsIn(g.rx, f.text) <==> Spells(g, f, h)
  {
    hide HostName, HostsOf;
    forall h {
      GateMeaning.HostsOfMember(g.rx, g.rx.hostTokens(f.text), h);
    }
  }

  lemma FirstOwner(g: Gate, h: string, o: nat)
    requires o == OwnerIndex(g.sinks, h)
    ensures NoEntry(g, h) <==> o == |g.sinks|
    ensures forall k :: 0 <= k < |g.sinks| ==> (FirstEntry(g, h, k) <==> k == o)
  {
    hide Claims;
  }

  lemma OneHostSaid(g: Gate, path: string, h: string, e: Event)
    ensures e in HostEvents(g, path)(h) <==>
            || (NoEntry(g, h) && e == Raise(None, Finding(NewHost, None, Some(path))))
            || (exists k :: 0 <= k < |g.sinks| && FirstEntry(g, h, k) && !FileAllowed(path, g.sinks[k].files)
                  && e == Raise(None, Finding(NewPath, Some(g.sinks[k].id), Some(path))))
  {
    var o := OwnerIndex(g.sinks, h);
    FirstOwner(g, h, o);
    hide Claims, FileAllowed, NoEntry, FirstEntry, OwnerIndex;
  }

  lemma OnePatternSaid(f: File, s: Sink, e: Event)
    ensures e in PatternEvents(f)(s) <==>
            Found(s, f.text) && !FileAllowed(f.path, s.files)
            && e == Raise(None, Finding(NewPath, Some(s.id), Some(f.path)))
  {
    hide FileAllowed;
  }

  lemma OneFileReach(g: Gate, f: File, e: Event)
    ensures e in ReachEvents(g)(f) <==> FileReachSaid(g, f, e)
  {
    hide HostEvents, PatternEvents, HostsIn, Spells, Found, FileAllowed, Flat, NoEntry, FirstEntry;
    var hosts := HostsIn(g.rx, f.text);
    HostsAreSpelled(g, f);
    FlatMember(hosts, HostEvents(g, f.path), e);
    FlatMember(g.sinks, PatternEvents(f), e);
    forall h {
      OneHostSaid(g, f.path, h, e);
    }
    forall k | 0 <= k < |g.sinks| {
      OnePatternSaid(f, g.sinks[k], e);
    }
    ReachSides(g, f, e, hosts);
  }

  lemma ReachSides(g: Gate, f: File, e: Event, hosts: seq<string>)
    requires forall h :: h in hosts <==> Spells(g, f, h)
    requires forall h :: e in HostEvents(g, f.path)(h) <==>
      || (NoEntry(g, h) && e == Raise(None, Finding(NewHost, None, Some(f.path))))
      || (exists k :: 0 <= k < |g.sinks| && FirstEntry(g, h, k) && !FileAllowed(f.path, g.sinks[k].files)
            && e == Raise(None, Finding(NewPath, Some(g.sinks[k].id), Some(f.path))))
    requires forall k :: 0 <= k < |g.sinks| ==>
      (e in PatternEvents(f)(g.sinks[k]) <==>
       Found(g.sinks[k], f.text) && !FileAllowed(f.path, g.sinks[k].files)
       && e == Raise(None, Finding(NewPath, Some(g.sinks[k].id), Some(f.path))))
    ensures (exists i :: 0 <= i < |hosts| && e in HostEvents(g, f.path)(hosts[i]))
            || (exists k :: 0 <= k < |g.sinks| && e in PatternEvents(f)(g.sinks[k]))
            <==> FileReachSaid(g, f, e)
  {
    hide HostEvents, PatternEvents, Spells, Found, FileAllowed, NoEntry, FirstEntry;
    if i :| 0 <= i < |hosts| && e in HostEvents(g, f.path)(hosts[i]) {
      assert Spells(g, f, hosts[i]);
    }
    if e == Raise(None, Finding(NewHost, None, Some(f.path))) && NewHostIn(g, f) {
      var h :| Spells(g, f, h) && NoEntry(g, h);
      assert h in hosts;
    }
    if k :|
      && 0 <= k < |g.sinks| && NewPathIn(g, f, k)
      && e == Raise(None, Finding(NewPath, Some(g.sinks[k].id), Some(f.path))) {
      if h :| Spells(g, f, h) && FirstEntry(g, h, k) {
        assert h in hosts;
      }
    }
  }

  lemma ReachExact(g: Gate, files: seq<File>, e: Event)
    ensures e in Flat(files, ReachEvents(g)) <==> ReachSaid(g, files, e)
  {
    hide ReachEvents, NewHostIn, NewPathIn;
    FlatMember(files, ReachEvents(g), e);
    forall i | 0 <= i < |files| {
      OneFileReach(g, files[i], e);
    }
  }

  // --- rules 3 and 4, and what is said about entries -----------------------

  ghost predicate SinkSaid(g: Gate, files: seq<File>, s: Sink, e: Event) {
    match e
    case Raise(Some(h), Finding(DefaultSink, Some(id), None)) =>
      h == Holder(s.id, s.waiver) && id == s.id && s.mode == Default
    case Raise(Some(h), Finding(GuardMissing, Some(id), Some(path))) =>
      && h == Holder(s.id, s.waiver) && id == s.id
      && exists gd :: gd in s.optIn && gd.file == path && GuardFails(files, s, gd)
    case Warn(GuardFileGone(id, path)) =>
      id == s.id && exists gd :: gd in s.optIn && gd.file == path && NoFile(files, path) && !FoundAnywhere(files, s)
    case Warn(GuardNotNeeded(id, path)) =>
      && id == s.id && s.patterns.Some? && !FoundAnywhere(files, s)
      && exists gd :: gd in s.optIn && gd.file == path && GuardLost(files, gd)
    case Warn(HostNotSeen(id, h)) =>
      && id == s.id && h in s.hosts
      && forall i, seen :: 0 <= i < |files| && Spells(g, files[i], seen) ==> !HostMatches(h, seen)
    case _ => false
  }

  lemma {:induction false} LookupAt(files: seq<File>, path: string, i: int)
    requires HasText(files, path, i)
    ensures Lookup(files, path) == Some(files[i].text)
  {
    if i > 0 {
      assert files[0].path != path && files[1..][i - 1] == files[i];
      assert forall j :: 0 <= j < i - 1 ==> files[1..][j] == files[j + 1];
      LookupAt(files[1..], path, i - 1);
    }
  }

  lemma {:induction false} LookupFinds(files: seq<File>, path: string) returns (i: nat)
    ensures i <= |files|
    ensures if i < |files| then HasText(files, path, i) else NoFile(files, path) && Lookup(files, path) == None
  {
    if files == [] || files[0].path == path {
      return 0;
    }
    var j := LookupFinds(files[1..], path);
    i := j + 1;
    assert forall k :: 0 < k < |files| ==> files[k] == files[1..][k - 1];
  }

  lemma LookupExact(files: seq<File>, path: string)
    ensures Lookup(files, path) == None <==> NoFile(files, path)
    ensures forall i :: HasText(files, path, i) ==> Lookup(files, path) == Some(files[i].text)
    ensures Lookup(files, path).Some? ==> exists i :: HasText(files, path, i)
  {
    hide Lookup;
    var i := LookupFinds(files, path);
    if i < |files| {
      LookupAt(files, path, i);
      assert !NoFile(files, path);
    }
    forall j | HasText(files, path, j)
      ensures Lookup(files, path) == Some(files[j].text)
    {
      LookupAt(files, path, j);
    }
  }

  lemma GuardLookup(files: seq<File>, gd: Guard)
    ensures Lookup(files, gd.file) == None <==> NoFile(files, gd.file)
    ensures GuardLost(files, gd) <==> Lookup(files, gd.file).Some? && !gd.mustMatch(Lookup(files, gd.file).value)
  {
    hide Lookup, NoFile;
    LookupExact(files, gd.file);
    if Lookup(files, gd.file).Some? {
      var i :| HasText(files, gd.file, i);
      assert Lookup(files, gd.file) == Some(files[i].text);
    }
  }

  lemma OneGuardSaid(files: seq<File>, s: Sink, gd: Guard, e: Event)
    ensures e in GuardEvents(files, s)(gd) <==>
            || (GuardFails(files, s, gd)
                && e == Raise(Some(Holder(s.id, s.waiver)), Finding(GuardMissing, Some(s.id), Some(gd.file))))
            || (NoFile(files, gd.file) && !FoundAnywhere(files, s) && e == Warn(GuardFileGone(s.id, gd.file)))
            || (GuardLost(files, gd) && s.patterns.Some? && !FoundAnywhere(files, s)
                && e == Warn(GuardNotNeeded(s.id, gd.file)))
  {
    assert PatternLive(s, files) == FoundAnywhere(files, s);
    GuardLookup(files, gd);
    hide Lookup, PatternLive, FoundAnywhere, NoFile, GuardLost;
    var missing := Raise(Some(HolderOf(s)), Finding(GuardMissing, Some(s.id), Some(gd.file)));
    assert GuardEvents(files, s)(gd) ==
      if GuardFails(files, s, gd) then [missing]
      else if NoFile(files, gd.file) then [Warn(GuardFileGone(s.id, gd.file))]
      else if GuardLost(files, gd) then [Warn(GuardNotNeeded(s.id, gd.file))]
      else [];
  }

  lemma UnseenSaid(g: Gate, files: seq<File>, s: Sink, e: Event)
    ensures e in Flat(s.hosts, UnseenHostEvents(g, files, s))
            <==> e.Warn? && e.warning.HostNotSeen? && SinkSaid(g, files, s, e)
  {
    hide Spells, HostMatches, HostsIn, Flat, NoFile, FoundAnywhere, GuardLost;
    FlatMember(s.hosts, UnseenHostEvents(g, files, s), e);
    forall i | 0 <= i < |files| {
      HostsAreSpelled(g, files[i]);
    }
  }

  lemma GuardsSaid(g: Gate, files: seq<File>, s: Sink, e: Event)
    ensures e in GateWarnings.OwnRaises(files, s) <==> SinkSaid(g, files, s, e) && !(e.Warn? && e.warning.HostNotSeen?)
  {
    hide Spells, HostMatches, GuardEvents, Flat, NoFile, FoundAnywhere, GuardLost, GuardFails;
    FlatMember(s.optIn, GuardEvents(files, s), e);
    forall gd | gd in s.optIn {
      OneGuardSaid(files, s, gd, e);
    }
    assert forall gd :: gd in s.optIn <==> exists i :: 0 <= i < |s.optIn| && s.optIn[i] == gd;
  }

  lemma OneSinkSaid(g: Gate, files: seq<File>, s: Sink, before: seq<Event>, e: Event)
    requires !(e.Warn? && e.warning.WaiverNotNeeded?)
    ensures e in SinkEvents(g, files, s, before) <==> SinkSaid(g, files, s, e)
  {
    hide SinkSaid, GateWarnings.OwnRaises, UnseenHostEvents, Names, Flat;
    GuardsSaid(g, files, s, e);
    UnseenSaid(g, files, s, e);
    SinkParts(g, files, s, before);
  }

  lemma SinkParts(g: Gate, files: seq<File>, s: Sink, before: seq<Event>)
    ensures
      var own := GateWarnings.OwnRaises(files, s);
      SinkEvents(g, files, s, before)
      == own + StaleWaiverEvents(g, s, before + own) + Flat(s.hosts, UnseenHostEvents(g, files, s))
  {
    hide Flat, StaleWaiverEvents, UnseenHostEvents;
  }

  lemma {:induction false} SinksExact(g: Gate, files: seq<File>, n: nat, before: seq<Event>, e: Event)
    requires n <= |g.sinks| && !(e.Warn? && e.warning.WaiverNotNeeded?)
    ensures e in AfterSinks(g, files, n, before)
            <==> e in before || exists k :: 0 <= k < n && SinkSaid(g, files, g.sinks[k], e)
  {
    hide SinkEvents, SinkSaid;
    if n > 0 {
      SinksExact(g, files, n - 1, before, e);
      OneSinkSaid(g, files, g.sinks[n - 1], AfterSinks(g, files, n - 1, before), e);
    }
  }

  // --- installs, model-list readers, the daemon, reviews -------------------

  /** Rules 7 and 8 for one file with n unmarked lines. */
  ghost predicate SiteSaid(g: Gate, path: string, n: nat, k: nat, e: Event)
    requires k < |g.sites|
  {
    var site := g.sites[k];
    || (n > site.max && e == Raise(None, Finding(NewInstall, None, Some(path))))
    || (n < site.max && e == Warn(SiteBelowMax(path)))
    || (site.mode == SiteDefault
        && e == Raise(Some(Holder("install:" + path, site.waiver)), Finding(DefaultInstall, None, Some(path))))
  }

  ghost predicate InstallSaid(g: Gate, f: File, e: Event) {
    exists n: nat :: Installs(g, f, n) &&
      if n == 0 then !NoSite(g, f.path) && e == Warn(SiteNotNeeded(f.path))
      else
        || (NoSite(g, f.path) && e == Raise(None, Finding(NewInstall, None, Some(f.path))))
        || exists k :: 0 <= k < |g.sites| && FirstSite(g, f.path, k) && SiteSaid(g, f.path, n, k, e)
  }

  lemma OneInstallSaid(g: Gate, f: File, e: Event)
    ensures e in InstallEvents(g)(f) <==> InstallSaid(g, f, e)
  {
    hide InstallScan.HitsIn;
    var o, n := SiteIndex(g.sites, f.path), |InstallScan.HitsIn(g.rx.install, f.text)|;
    assert Installs(g, f, n) <==> !g.rx.installExcluded(f.path);
    assert o < |g.sites| ==> FirstSite(g, f.path, o);
    assert forall k :: 0 <= k < |g.sites| && FirstSite(g, f.path, k) ==> k == o;
    assert o == |g.sites| <==> NoSite(g, f.path);
    hide Installs, FirstSite, NoSite;
    if o < |g.sites| && n > 0 {
      OneSiteSaid(g, f.path, n, o, e);
    }
  }

  lemma OneSiteSaid(g: Gate, path: string, n: nat, k: nat, e: Event)
    requires k < |g.sites| && g.sites[k].file == path && n > 0
    ensures e in SiteEvents(g.sites[k], n) <==> SiteSaid(g, path, n, k, e)
  {
  }

  ghost predicate OllamaSaid(g: Gate, f: File, e: Event) {
    || (ReadsUnfiltered(g, f) && e == Raise(None, Finding(TagsReader, None, Some(f.path))))
    || (ServesCloud(g, f) && e == Raise(None, Finding(ServeEnv, None, Some(f.path))))
  }

  lemma OneOllamaSaid(g: Gate, f: File, e: Event)
    ensures e in OllamaEvents(g)(f) <==> OllamaSaid(g, f, e)
  {
    assert IsReviewed(g, f.path) <==> exists r :: r in g.reviewed && r.file == f.path && r.reason != "";
    hide IsReviewed;
  }

  ghost predicate ReviewSaid(g: Gate, files: seq<File>, e: Event) {
    && e.Warn? && e.warning.ReviewNotNeeded?
    && (exists r :: r in g.reviewed && r.file == e.warning.file)
    && forall i :: HasText(files, e.warning.file, i) ==> !g.rx.readsTags(files[i].text)
  }

  lemma ReviewsExact(g: Gate, files: seq<File>, e: Event)
    ensures e in Flat(g.reviewed, ReviewEvents(g, files)) <==> ReviewSaid(g, files, e)
  {
    hide Lookup, HasText, NoFile, Flat;
    FlatMember(g.reviewed, ReviewEvents(g, files), e);
    forall r | r in g.reviewed {
      LookupExact(files, r.file);
    }
  }

  ghost predicate Distinct<T(!new)>(xs: seq<T>) {
    forall i, j :: 0 <= i < j < |xs| ==> xs[i] != xs[j]
  }

  /** Nothing is said twice of one host, entry, guard, review or file under one rule. */
  lemma SaidOnce(g: Gate, files: seq<File>, f: File, h: string, s: Sink, gd: Guard, r: Reviewed)
    ensures |HostEvents(g, f.path)(h)| <= 1 && |PatternEvents(f)(s)| <= 1 && |DefaultEvents(s)| <= 1
    ensures |GuardEvents(files, s)(gd)| <= 1 && |UnseenHostEvents(g, files, s)(h)| <= 1
    ensures |ReviewEvents(g, files)(r)| <= 1
    ensures Distinct(HostsIn(g.rx, f.text)) && Distinct(InstallEvents(g)(f)) && Distinct(OllamaEvents(g)(f))
  {
    hide *;
    ReachOnce(g, f.path, f, h, s);
    SinkOnce(g, files, h, s, gd);
    ReviewOnce(g, files, r);
    HostsOnce(g, f);
    InstallsOnce(g, f);
    OllamaOnce(g, f);
  }

  lemma ReachOnce(g: Gate, path: string, f: File, h: string, s: Sink)
    ensures |HostEvents(g, path)(h)| <= 1 && |PatternEvents(f)(s)| <= 1
  {
    hide FileAllowed, Claims, PatternHits;
  }

  lemma SinkOnce(g: Gate, files: seq<File>, h: string, s: Sink, gd: Guard)
    ensures |DefaultEvents(s)| <= 1 && |GuardEvents(files, s)(gd)| <= 1 && |UnseenHostEvents(g, files, s)(h)| <= 1
  {
    hide PatternLive, Lookup, HostSeen;
  }

  lemma ReviewOnce(g: Gate, files: seq<File>, r: Reviewed)
    ensures |ReviewEvents(g, files)(r)| <= 1
  {
    hide Lookup;
  }

  lemma HostsOnce(g: Gate, f: File)
    ensures Distinct(HostsIn(g.rx, f.text))
  {
    hide HostsOf;
    GateMeaning.HostsDistinct(g.rx, g.rx.hostTokens(f.text));
    assert Distinct(HostsOf(g.rx, g.rx.hostTokens(f.text)));
  }

  lemma InstallsOnce(g: Gate, f: File)
    ensures Distinct(InstallEvents(g)(f))
  {
    hide InstallScan.HitsIn, SiteEvents, Distinct;
    var o, n := SiteIndex(g.sites, f.path), |InstallScan.HitsIn(g.rx.install, f.text)|;
    if o < |g.sites| && n > 0 {
      SiteOnce(g.sites[o], n);
    }
    AtMostOne(InstallEvents(g)(f));
  }

  lemma SiteOnce(site: Site, n: nat)
    requires n > 0
    ensures Distinct(SiteEvents(site, n))
  {
    hide InstallId;
  }

  lemma AtMostOne(events: seq<Event>)
    ensures |events| <= 1 ==> Distinct(events)
  {
  }

  lemma OllamaOnce(g: Gate, f: File)
    ensures Distinct(OllamaEvents(g)(f))
  {
    hide BadTagsReader, BadServe;
  }

  // --- everything ----------------------------------------------------------

  /** Everything a run says, but for its reports on unneeded waivers. */
  ghost predicate Said(g: Gate, files: seq<File>, e: Event) {
    || ReachSaid(g, files, e)
    || (exists k :: 0 <= k < |g.sinks| && SinkSaid(g, files, g.sinks[k], e))
    || (exists i :: 0 <= i < |files| && (InstallSaid(g, files[i], e) || OllamaSaid(g, files[i], e)))
    || ReviewSaid(g, files, e)
  }

  lemma EventsExact(g: Gate, files: seq<File>, e: Event)
    requires !(e.Warn? && e.warning.WaiverNotNeeded?)
    ensures e in GateEvents(g, files) <==> Said(g, files, e)
  {
    hide ReachEvents, InstallEvents, OllamaEvents, ReviewEvents, AfterSinks, Flat,
         ReachSaid, SinkSaid, InstallSaid, OllamaSaid, ReviewSaid;
    ReachExact(g, files, e);
    SinksExact(g, files, |g.sinks|, Flat(files, ReachEvents(g)), e);
    FlatMember(files, InstallEvents(g), e);
    FlatMember(files, OllamaEvents(g), e);
    forall i | 0 <= i < |files|
      ensures e in InstallEvents(g)(files[i]) <==> InstallSaid(g, files[i], e)
      ensures e in OllamaEvents(g)(files[i]) <==> OllamaSaid(g, files[i], e)
    {
      OneInstallSaid(g, files[i], e);
      OneOllamaSaid(g, files[i], e);
    }
    ReviewsExact(g, files, e);
  }

  // --- the three lists -----------------------------------------------------

  /** The waiver stands on this day: an issue reference, a full date, and not yet past. */
  ghost predicate Stands(g: Gate, w: Waiver) {
    HasIssueRef(w.ref) && IsFullDate(w.expires) && !Less(w.expires, g.today)
  }

  /** A finding fails by its own: nothing could settle it, or there is no waiver, or waivers are off. */
  ghost predicate FailsAsItself(g: Gate, files: seq<File>, f: Finding) {
    || Said(g, files, Raise(None, f))
    || exists h :: Said(g, files, Raise(Some(h), f)) && (h.waiver.None? || g.noWaivers)
  }

  /** A finding's own entry has a waiver that does not stand. */
  ghost predicate WaiverFails(g: Gate, files: seq<File>, f: Finding) {
    && !g.noWaivers
    && exists h, found :: Said(g, files, Raise(Some(h), found))
         && h.waiver.Some? && !Stands(g, h.waiver.value) && f == Finding(WaiverRule, Some(h.id), None)
  }

  ghost predicate IsKnown(g: Gate, files: seq<File>, f: Finding) {
    && !g.noWaivers
    && exists h :: Said(g, files, Raise(Some(h), f)) && h.waiver.Some? && Stands(g, h.waiver.value)
  }

  /** What one event puts on the two lists. */
  lemma Settled(g: Gate, e: Event, f: Finding)
    ensures f in FailureOf(g)(e) <==>
            && e.Raise?
            && match e.holder
               case None => f == e.finding
               case Some(h) =>
                 if h.waiver.None? || g.noWaivers then f == e.finding
                 else !Stands(g, h.waiver.value) && f == Finding(WaiverRule, Some(h.id), None)
    ensures f in WaivedOf(g)(e) <==>
            && e.Raise? && e.holder.Some? && f == e.finding && !g.noWaivers
            && e.holder.value.waiver.Some? && Stands(g, e.holder.value.waiver.value)
  {
    hide HasIssueRef, IsFullDate, Less;
  }

  /** A finding is on the failing list exactly when it fails by its own or as a complaint about its entry's waiver. */
  lemma FailuresExact(g: Gate, files: seq<File>, f: Finding)
    ensures f in Failures(g, files) <==> FailsAsItself(g, files, f) || WaiverFails(g, files, f)
  {
    hide GateEvents, Said, Stands, Flat, FailureOf;
    var events := GateEvents(g, files);
    FlatMember(events, FailureOf(g), f);
    forall e: Event
      ensures e.Raise? ==> (e in events <==> Said(g, files, e))
      ensures f in FailureOf(g)(e) <==>
              && e.Raise?
              && match e.holder
                 case None => f == e.finding
                 case Some(h) =>
                   if h.waiver.None? || g.noWaivers then f == e.finding
                   else !Stands(g, h.waiver.value) && f == Finding(WaiverRule, Some(h.id), None)
    {
      if e.Raise? {
        EventsExact(g, files, e);
      }
      Settled(g, e, f);
    }
    if i :| 0 <= i < |events| && f in FailureOf(g)(events[i]) {
      assert Said(g, files, events[i]);
      var e := events[i];
      assert e == Raise(e.holder, e.finding);
      if e.holder.Some? {
        assert e == Raise(Some(e.holder.value), e.finding);
      }
    }
    if e :| Said(g, files, e) && e.Raise? && f in FailureOf(g)(e) {
      var i :| 0 <= i < |events| && events[i] == e;
      assert f in FailureOf(g)(events[i]);
    }
    if FailsAsItself(g, files, f) || WaiverFails(g, files, f) {
      SomethingFails(g, files, f);
    }
  }

  lemma SomethingFails(g: Gate, files: seq<File>, f: Finding)
    requires FailsAsItself(g, files, f) || WaiverFails(g, files, f)
    ensures exists e :: Said(g, files, e) && e.Raise? && f in FailureOf(g)(e)
  {
    hide Said, Stands, FailureOf;
    if Said(g, files, Raise(None, f)) {
      Settled(g, Raise(None, f), f);
    } else if h :| Said(g, files, Raise(Some(h), f)) && (h.waiver.None? || g.noWaivers) {
      Settled(g, Raise(Some(h), f), f);
    } else {
      var h, found :| Said(g, files, Raise(Some(h), found)) && h.waiver.Some? && !Stands(g, h.waiver.value)
        && f == Finding(WaiverRule, Some(h.id), None);
      Settled(g, Raise(Some(h), found), f);
    }
  }

  /** A finding is known exactly when its own entry's waiver stands. */
  lemma WaivedExact(g: Gate, files: seq<File>, f: Finding)
    ensures f in WaivedFindings(g, files) <==> IsKnown(g, files, f)
  {
    hide GateEvents, Said, Stands, Flat, WaivedOf;
    var events := GateEvents(g, files);
    FlatMember(events, WaivedOf(g), f);
    if i :| 0 <= i < |events| && f in WaivedOf(g)(events[i]) {
      Settled(g, events[i], f);
      EventsExact(g, files, events[i]);
      assert events[i] == Raise(Some(events[i].holder.value), f);
    }
    if IsKnown(g, files, f) {
      var h :| Said(g, files, Raise(Some(h), f)) && h.waiver.Some? && Stands(g, h.waiver.value);
      EventsExact(g, files, Raise(Some(h), f));
      Settled(g, Raise(Some(h), f), f);
      var i :| 0 <= i < |events| && events[i] == Raise(Some(h), f);
      assert f in WaivedOf(g)(events[i]);
    }
  }

  lemma WarningsExact(g: Gate, files: seq<File>, w: Warning)
    requires !w.WaiverNotNeeded?
    ensures w in Warnings(g, files) <==> Said(g, files, Warn(w))
  {
    hide GateEvents, Said;
    GateWarnings.ReportListed(GateEvents(g, files), w);
    EventsExact(g, files, Warn(w));
  }

  /** Rules 1, 5, 6 and 7 spelled out: a file is reported under each exactly when its own text breaks it. */
  lemma FindingsByRule(g: Gate, files: seq<File>, path: string)
    ensures Finding(NewHost, None, Some(path)) in Failures(g, files) <==>
      exists i :: 0 <= i < |files| && files[i].path == path && exists h :: Spells(g, files[i], h) && NoEntry(g, h)
    ensures Finding(TagsReader, None, Some(path)) in Failures(g, files) <==>
      exists i :: 0 <= i < |files| && files[i].path == path && path != "packages/core/ollama-cloud.ts"
        && g.rx.readsTags(files[i].text) && !g.rx.cloudFilter(files[i].text)
        && forall r :: r in g.reviewed && r.file == path ==> r.reason == ""
    ensures Finding(ServeEnv, None, Some(path)) in Failures(g, files) <==>
      exists i :: 0 <= i < |files| && files[i].path == path
        && g.rx.servesList(files[i].text) && g.rx.namesOllama(files[i].text) && !g.rx.noCloud(files[i].text)
    ensures Finding(NewInstall, None, Some(path)) in Failures(g, files) <==>
      exists i, n: nat :: 0 <= i < |files| && files[i].path == path && Installs(g, files[i], n) && n > 0
        && (NoSite(g, path) || exists k :: 0 <= k < |g.sites| && FirstSite(g, path, k) && n > g.sites[k].max)
  {
    hide Failures, Said, Spells, NoEntry, Installs, NoSite, FirstSite;
    DirectFinding(g, files, Finding(NewHost, None, Some(path)));
    DirectFinding(g, files, Finding(TagsReader, None, Some(path)));
    DirectFinding(g, files, Finding(ServeEnv, None, Some(path)));
    DirectFinding(g, files, Finding(NewInstall, None, Some(path)));
    SaidNewHost(g, files, path);
    SaidOllama(g, files, path);
    SaidNewInstall(g, files, path);
  }

  /** Only default sinks, guards and default install sites go through a waiver. */
  lemma HeldRules(g: Gate, files: seq<File>, h: Holder, f: Finding)
    requires Said(g, files, Raise(Some(h), f))
    ensures f.rule in {DefaultSink, GuardMissing, DefaultInstall}
  {
    hide GuardFails, Installs, NoSite, FirstSite, ReadsUnfiltered, ServesCloud;
  }

  lemma DirectFinding(g: Gate, files: seq<File>, f: Finding)
    requires f.rule in {NewHost, TagsReader, ServeEnv, NewInstall}
    ensures f in Failures(g, files) <==> Said(g, files, Raise(None, f))
  {
    hide Failures, Said;
    FailuresExact(g, files, f);
    forall h | Said(g, files, Raise(Some(h), f))
      ensures false
    {
      HeldRules(g, files, h, f);
    }
  }

  lemma SaidNewHost(g: Gate, files: seq<File>, path: string)
    ensures Said(g, files, Raise(None, Finding(NewHost, None, Some(path)))) <==>
      exists i :: 0 <= i < |files| && files[i].path == path && exists h :: Spells(g, files[i], h) && NoEntry(g, h)
  {
    hide Spells, NoEntry, NewPathIn, Installs, NoSite, FirstSite, ReadsUnfiltered, ServesCloud, GuardFails;
  }

  lemma SaidOllama(g: Gate, files: seq<File>, path: string)
    ensures Said(g, files, Raise(None, Finding(TagsReader, None, Some(path)))) <==>
      exists i :: 0 <= i < |files| && files[i].path == path && ReadsUnfiltered(g, files[i])
    ensures Said(g, files, Raise(None, Finding(ServeEnv, None, Some(path)))) <==>
      exists i :: 0 <= i < |files| && files[i].path == path && ServesCloud(g, files[i])
  {
    hide NewHostIn, NewPathIn, Installs, NoSite, FirstSite, ReadsUnfiltered, ServesCloud, GuardFails;
  }

  lemma SaidNewInstall(g: Gate, files: seq<File>, path: string)
    ensures Said(g, files, Raise(None, Finding(NewInstall, None, Some(path)))) <==>
      exists i, n: nat :: 0 <= i < |files| && files[i].path == path && Installs(g, files[i], n) && n > 0
        && (NoSite(g, path) || exists k :: 0 <= k < |g.sites| && FirstSite(g, path, k) && n > g.sites[k].max)
  {
    hide NewHostIn, NewPathIn, Installs, NoSite, FirstSite, ReadsUnfiltered, ServesCloud, GuardFails;
  }
}
