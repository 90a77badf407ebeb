/** The gate passes exactly when a declarative policy holds (scripts/local-first-gate.ts). */
module GateMeaning {
  import opened Seqs
  import opened Text
  import opened GateSpec
  import InstallScan

  // --- the policy ----------------------------------------------------------

  /** The first entry that claims the host exists and lists the file. */
  ghost predicate HostOk(g: Gate, path: string, host: string) {
    exists i :: 0 <= i < |g.sinks| && Claims(g.sinks[i], host)
      && (forall k :: 0 <= k < i ==> !Claims(g.sinks[k], host))
      && FileAllowed(path, g.sinks[i].files)
  }

  ghost predicate ReachOk(g: Gate, f: File) {
    && (forall t :: t in g.rx.hostTokens(f.text) && !g.rx.localHost(HostName(t)) ==> HostOk(g, f.path, HostName(t)))
    && (forall i :: 0 <= i < |g.sinks| && PatternHits(g.sinks[i], f.text) ==> FileAllowed(f.path, g.sinks[i].files))
  }

  /** A guard that counts as broken. A missing file counts only when one of the sink's patterns is found. */
  ghost predicate GuardBroken(files: seq<File>, s: Sink, gd: Guard) {
    match Lookup(files, gd.file)
    case None => PatternLive(s, files)
    case Some(text) => !gd.mustMatch(text) && (s.patterns.None? || PatternLive(s, files))
  }

  ghost predicate SinkOk(g: Gate, files: seq<File>, s: Sink) {
    && (s.mode == Default ==> Covers(g, HolderOf(s)))
    && (forall i :: 0 <= i < |s.optIn| && GuardBroken(files, s, s.optIn[i]) ==> Covers(g, HolderOf(s)))
  }

  /** Unmarked install text is on a listed file, within its pinned count, and waived when on a default path. */
  ghost predicate InstallOk(g: Gate, f: File) {
    var count := |InstallScan.HitsIn(g.rx.install, f.text)|;
    g.rx.installExcluded(f.path) || count == 0 ||
    exists i :: 0 <= i < |g.sites| && g.sites[i].file == f.path
      && (forall k :: 0 <= k < i ==> g.sites[k].file != f.path)
      && count <= g.sites[i].max
      && (g.sites[i].mode == SiteDefault ==> Covers(g, Holder(InstallId(f.path), g.sites[i].waiver)))
  }

  /** A reader of the model list is the helper, filters cloud models, or is reviewed with a reason. */
  ghost predicate TagsOk(g: Gate, f: File) {
    f.path != "packages/core/ollama-cloud.ts" && g.rx.readsTags(f.text) ==>
      g.rx.cloudFilter(f.text) || exists r :: r in g.reviewed && r.file == f.path && r.reason != ""
  }

  /** A file that starts the daemon turns its cloud models off. */
  ghost predicate ServeOk(g: Gate, f: File) {
    g.rx.servesList(f.text) && g.rx.namesOllama(f.text) ==> g.rx.noCloud(f.text)
  }

  ghost predicate Policy(g: Gate, files: seq<File>) {
    && (forall i :: 0 <= i < |files| ==> ReachOk(g, files[i]))
    && (forall k :: 0 <= k < |g.sinks| ==> SinkOk(g, files, g.sinks[k]))
    && (forall i :: 0 <= i < |files| ==> InstallOk(g, files[i]))
    && (forall i :: 0 <= i < |files| ==> TagsOk(g, files[i]) && ServeOk(g, files[i]))
  }

  // --- one step of each rule -----------------------------------------------

  ghost predicate Quiet(g: Gate, events: seq<Event>) {
    Flat(events, FailureOf(g)) == []
  }

  lemma QuietOne(g: Gate, e: Event)
    ensures Quiet(g, []) && (Quiet(g, [e]) <==> !Fails(g, e))
  {
    FlatPush([], e, FailureOf(g));
  }

  lemma QuietBoth(g: Gate, a: seq<Event>, b: seq<Event>)
    ensures Quiet(g, a + b) <==> Quiet(g, a) && Quiet(g, b)
  {
    FlatAppend(a, b, FailureOf(g));
  }

  /** A loop is quiet exactly when each of its turns is. */
  lemma QuietLoop<A>(g: Gate, xs: seq<A>, f: A -> seq<Event>)
    ensures Quiet(g, Flat(xs, f)) <==> forall i :: 0 <= i < |xs| ==> Quiet(g, f(xs[i]))
  {
    FlatFlatEmpty(xs, f, FailureOf(g));
    assert forall i :: 0 <= i < |xs| ==> (Quiet(g, f(xs[i])) <==> Flat(f(xs[i]), FailureOf(g)) == []);
  }

  lemma {:induction false} HostsOfMember(rx: Regexes, tokens: seq<string>, h: string)
    ensures h in HostsOf(rx, tokens) <==> exists t :: t in tokens && HostName(t) == h && !rx.localHost(h)
  {
    hide HostName;
    if tokens != [] {
      var init, last := tokens[..|tokens| - 1], tokens[|tokens| - 1];
      assert tokens == init + [last];
      HostsOfMember(rx, init, h);
    }
  }

  /** Each host is listed once, and hosts stand in the order in which the text first spells them. */
  lemma {:induction false} HostsDistinct(rx: Regexes, tokens: seq<string>)
    ensures
      var hosts := HostsOf(rx, tokens);
      && (forall i, j :: 0 <= i < j < |hosts| ==> hosts[i] != hosts[j])
      && (forall n :: 0 <= n <= |tokens| ==> HostsOf(rx, tokens[..n]) <= hosts)
  {
    hide HostName;
    if tokens != [] {
      var init := tokens[..|tokens| - 1];
      HostsDistinct(rx, init);
      forall n | 0 <= n <= |tokens|
        ensures HostsOf(rx, tokens[..n]) <= HostsOf(rx, tokens)
      {
        assert if n == |tokens| then tokens[..n] == tokens else tokens[..n] == init[..n];
      }
    }
  }

  lemma HostQuiet(g: Gate, path: string, host: string)
    ensures Quiet(g, HostEvents(g, path)(host)) <==> HostOk(g, path, host)
  {
    hide Quiet, Claims, FileAllowed, OwnerIndex;
    var i := OwnerIndex(g.sinks, host);
    QuietOne(g, Raise(None, Finding(NewHost, None, Some(path))));
    if i < |g.sinks| {
      QuietOne(g, Raise(None, Finding(NewPath, Some(g.sinks[i].id), Some(path))));
    }
  }

  lemma PatternQuiet(g: Gate, f: File, s: Sink)
    ensures Quiet(g, PatternEvents(f)(s)) <==> (PatternHits(s, f.text) ==> FileAllowed(f.path, s.files))
  {
    hide Quiet, FileAllowed;
    QuietOne(g, Raise(None, Finding(NewPath, Some(s.id), Some(f.path))));
  }

  lemma ReachQuiet(g: Gate, f: File)
    ensures Quiet(g, ReachEvents(g)(f)) <==> ReachOk(g, f)
  {
    hide Quiet, FileAllowed, PatternHits, HostOk, HostEvents, HostName, HostsOf;
    var hosts := HostsIn(g.rx, f.text);
    QuietBoth(g, Flat(hosts, HostEvents(g, f.path)), Flat(g.sinks, PatternEvents(f)));
    QuietLoop(g, hosts, HostEvents(g, f.path));
    QuietLoop(g, g.sinks, PatternEvents(f));
    forall h
      ensures h in hosts <==> exists t :: t in g.rx.hostTokens(f.text) && HostName(t) == h && !g.rx.localHost(h)
      ensures Quiet(g, HostEvents(g, f.path)(h)) <==> HostOk(g, f.path, h)
    {
      HostsOfMember(g.rx, g.rx.hostTokens(f.text), h);
      HostQuiet(g, f.path, h);
    }
    forall s: Sink
      ensures Quiet(g, PatternEvents(f)(s)) <==> (PatternHits(s, f.text) ==> FileAllowed(f.path, s.files))
    {
      PatternQuiet(g, f, s);
    }
    assert (forall i :: 0 <= i < |hosts| ==> Quiet(g, HostEvents(g, f.path)(hosts[i])))
           <==> (forall h :: h in hosts ==> HostOk(g, f.path, h));
  }

  lemma GuardQuiet(g: Gate, files: seq<File>, s: Sink, gd: Guard)
    ensures Quiet(g, GuardEvents(files, s)(gd)) <==> (GuardBroken(files, s, gd) ==> Covers(g, HolderOf(s)))
  {
    hide Quiet, Covers, PatternLive, Lookup;
    QuietOne(g, Raise(Some(HolderOf(s)), Finding(GuardMissing, Some(s.id), Some(gd.file))));
    QuietOne(g, Warn(GuardFileGone(s.id, gd.file)));
    QuietOne(g, Warn(GuardNotNeeded(s.id, gd.file)));
  }

  lemma WarnsQuiet(g: Gate, files: seq<File>, s: Sink, before: seq<Event>)
    ensures Quiet(g, StaleWaiverEvents(g, s, before))
    ensures Quiet(g, Flat(s.hosts, UnseenHostEvents(g, files, s)))
  {
    hide Quiet, Names, HostSeen;
    QuietOne(g, Warn(WaiverNotNeeded(s.id)));
    QuietLoop(g, s.hosts, UnseenHostEvents(g, files, s));
    forall i | 0 <= i < |s.hosts| {
      QuietOne(g, Warn(HostNotSeen(s.id, s.hosts[i])));
    }
  }

  lemma SinkQuiet(g: Gate, files: seq<File>, s: Sink, before: seq<Event>)
    ensures Quiet(g, SinkEvents(g, files, s, before)) <==> SinkOk(g, files, s)
  {
    hide Quiet, Covers, GuardBroken, GuardEvents, StaleWaiverEvents, UnseenHostEvents, Flat;
    var guards := Flat(s.optIn, GuardEvents(files, s));
    var raised := DefaultEvents(s) + guards;
    var stale := StaleWaiverEvents(g, s, before + raised);
    QuietBoth(g, raised + stale, Flat(s.hosts, UnseenHostEvents(g, files, s)));
    QuietBoth(g, raised, stale);
    QuietBoth(g, DefaultEvents(s), guards);
    WarnsQuiet(g, files, s, before + raised);
    QuietOne(g, Raise(Some(HolderOf(s)), Finding(DefaultSink, Some(s.id), None)));
    QuietLoop(g, s.optIn, GuardEvents(files, s));
    forall i | 0 <= i < |s.optIn| {
      GuardQuiet(g, files, s, s.optIn[i]);
    }
  }

  lemma {:induction false} SinksQuiet(g: Gate, files: seq<File>, n: nat, before: seq<Event>)
    requires n <= |g.sinks|
    ensures Quiet(g, AfterSinks(g, files, n, before))
            <==> Quiet(g, before) && forall k :: 0 <= k < n ==> SinkOk(g, files, g.sinks[k])
  {
    hide Quiet, SinkEvents, SinkOk;
    if n > 0 {
      var prior := AfterSinks(g, files, n - 1, before);
      SinksQuiet(g, files, n - 1, before);
      QuietBoth(g, prior, SinkEvents(g, files, g.sinks[n - 1], prior));
      SinkQuiet(g, files, g.sinks[n - 1], prior);
    }
  }

  lemma SiteQuiet(g: Gate, site: Site, count: nat)
    requires count > 0
    ensures Quiet(g, SiteEvents(site, count)) <==>
            && count <= site.max
            && (site.mode == SiteDefault ==> Covers(g, Holder(InstallId(site.file), site.waiver)))
  {
    hide Quiet, Covers, InstallId;
    var grown, below := Raise(None, Finding(NewInstall, None, Some(site.file))), Warn(SiteBelowMax(site.file));
    var e := Raise(Some(Holder(InstallId(site.file), site.waiver)), Finding(DefaultInstall, None, Some(site.file)));
    var pin := if count > site.max then [grown] else if count < site.max then [below] else [];
    var onDefault := if site.mode == SiteDefault then [e] else [];
    assert SiteEvents(site, count) == pin + onDefault;
    QuietOne(g, grown);
    QuietOne(g, below);
    QuietOne(g, e);
    QuietBoth(g, pin, onDefault);
  }

  lemma InstallQuiet(g: Gate, f: File)
    ensures Quiet(g, InstallEvents(g)(f)) <==> InstallOk(g, f)
  {
    hide Quiet, Covers, InstallScan.HitsIn, InstallId, SiteEvents, SiteIndex;
    var i, count := SiteIndex(g.sites, f.path), |InstallScan.HitsIn(g.rx.install, f.text)|;
    QuietOne(g, Raise(None, Finding(NewInstall, None, Some(f.path))));
    QuietOne(g, Warn(SiteNotNeeded(f.path)));
    if i < |g.sites| && count > 0 {
      SiteQuiet(g, g.sites[i], count);
    }
  }

  lemma OllamaQuiet(g: Gate, f: File)
    ensures Quiet(g, OllamaEvents(g)(f)) <==> TagsOk(g, f) && ServeOk(g, f)
  {
    assert IsReviewed(g, f.path) <==> exists r :: r in g.reviewed && r.file == f.path && r.reason != "";
    assert BadTagsReader(g, f) <==> !TagsOk(g, f);
    hide Quiet, BadTagsReader, IsReviewed, TagsOk;
    var tags := Raise(None, Finding(TagsReader, None, Some(f.path)));
    var serve := Raise(None, Finding(ServeEnv, None, Some(f.path)));
    QuietOne(g, tags);
    QuietOne(g, serve);
    QuietBoth(g, if BadTagsReader(g, f) then [tags] else [], if BadServe(g, f) then [serve] else []);
  }

  lemma ReviewsQuiet(g: Gate, files: seq<File>)
    ensures Quiet(g, Flat(g.reviewed, ReviewEvents(g, files)))
  {
    hide Quiet, Lookup;
    QuietLoop(g, g.reviewed, ReviewEvents(g, files));
    forall i | 0 <= i < |g.reviewed| {
      QuietOne(g, Warn(ReviewNotNeeded(g.reviewed[i].file)));
    }
  }

  /** A `*.` pattern claims exactly the hosts that end in its dotted suffix; any other pattern claims itself. */
  lemma HostPatternMeaning(suffix: string, pattern: string, host: string)
    ensures HostMatches("*." + suffix, host) <==> exists p: string :: host == p + ("." + suffix)
    ensures !("*." <= pattern) ==> (HostMatches(pattern, host) <==> host == pattern)
  {
    var dotted := "." + suffix;
    assert ("*." + suffix)[1..] == dotted;
    if EndsWith(host, dotted) {
      assert host == host[..|host| - |dotted|] + dotted;
    }
    if p: string :| host == p + dotted {
      assert host[|host| - |dotted|..] == dotted;
    }
  }

  /** A listed path ending in a slash covers exactly the files under it; any other covers itself. */
  lemma PathCoversMeaning(dir: string, path: string, file: string)
    ensures PathCovers(dir + "/", file) <==> exists rest: string :: file == (dir + "/") + rest
    ensures !EndsWith(path, "/") ==> (PathCovers(path, file) <==> file == path)
  {
    var d := dir + "/";
    assert d[|d| - 1..] == "/";
    if d <= file {
      assert file == d + file[|d|..];
    }
  }

  /** An entry claims a host by one of its patterns: a `*.` pattern by its dotted suffix, any other by equality. */
  lemma ClaimsMeaning(s: Sink, host: string)
    ensures Claims(s, host)
            <==> exists i :: && 0 <= i < |s.hosts|
                             && if "*." <= s.hosts[i] then exists p: string :: host == p + s.hosts[i][1..]
                                else host == s.hosts[i]
  {
    forall i | 0 <= i < |s.hosts| && "*." <= s.hosts[i]
      ensures HostMatches(s.hosts[i], host) <==> exists p: string :: host == p + s.hosts[i][1..]
    {
      var suffix := s.hosts[i][2..];
      assert s.hosts[i] == "*." + suffix && s.hosts[i][1..] == "." + suffix;
      HostPatternMeaning(suffix, "", host);
    }
    hide HostMatches;
    forall i | 0 <= i < |s.hosts| && !("*." <= s.hosts[i])
      ensures HostMatches(s.hosts[i], host) <==> host == s.hosts[i]
    {
      HostPatternMeaning("", s.hosts[i], host);
    }
    assert forall p :: p in s.hosts <==> exists i :: 0 <= i < |s.hosts| && s.hosts[i] == p;
  }

  /** Without a list every file is allowed; with one, the files listed and those below a listed directory. */
  lemma AllowedMeaning(file: string, allowed: Option<seq<string>>)
    ensures FileAllowed(file, allowed)
            <==> || allowed.None?
                 || exists i :: && 0 <= i < |allowed.value|
                                && var a := allowed.value[i];
                                   if a != "" && a[|a| - 1] == '/' then exists rest: string :: file == a + rest
                                   else file == a
  {
    if allowed.Some? {
      forall a: string
        ensures PathCovers(a, file) <==>
                if a != "" && a[|a| - 1] == '/' then exists rest: string :: file == a + rest else file == a
      {
        if a != "" && a[|a| - 1] == '/' {
          assert a == a[..|a| - 1] + "/";
          PathCoversMeaning(a[..|a| - 1], "", file);
        } else {
          assert a != "" ==> a[|a| - 1..] == [a[|a| - 1]];
          PathCoversMeaning("", a, file);
        }
      }
      hide PathCovers;
      assert forall a :: a in allowed.value <==> exists i :: 0 <= i < |allowed.value| && allowed.value[i] == a;
    }
  }

  /** c is d with an upper-case letter lowered. */
  ghost predicate Lowers(d: char, c: char) {
    && (forall j :: 0 <= j < 26 && d == UPPER[j] ==> c == LOWER[j])
    && (d !in UPPER ==> c == d)
  }

  lemma LowerMeaning(d: char)
    ensures Lowers(d, Lower(d))
  {
    Alphabet();
    if 'A' <= d <= 'Z' {
      assert UPPER[d as int - 65] == d;
    }
  }

  lemma {:induction false} StripMeaning(s: string)
    ensures
      var r := StripDots(s);
      && r <= s && (r != "" ==> r[|r| - 1] != '.') && (forall i :: |r| <= i < |s| ==> s[i] == '.')
  {
    if s != "" && s[|s| - 1] == '.' {
      StripMeaning(s[..|s| - 1]);
    }
  }

  /** A host's name is its token in lower case with the trailing dots gone, and only those. */
  lemma HostNameMeaning(token: string)
    ensures
      var h := HostName(token);
      && |h| <= |token| && (h != "" ==> h[|h| - 1] != '.')
      && (forall i :: 0 <= i < |h| ==> Lowers(token[i], h[i]))
      && (forall i :: |h| <= i < |token| ==> token[i] == '.')
  {
    StripMeaning(LowerAll(token));
    forall i | 0 <= i < |token|
      ensures Lowers(token[i], LowerAll(token)[i])
      ensures LowerAll(token)[i] == '.' ==> token[i] == '.'
    {
      LowerMeaning(token[i]);
    }
    hide StripDots, Lowers, Lower;
  }

  /** A reference counts when a digit follows a hash sign somewhere in it. */
  lemma IssueRefMeaning(ref: string)
    ensures HasIssueRef(ref) <==> exists a: string, d: char, b: string ::
      d in "0123456789" && ref == a + (['#', d] + b)
  {
    hide IsDigit;
    if i :| 0 <= i < |ref| - 1 && ref[i] == '#' && IsDigit(ref[i + 1]) {
      DigitSet(ref[i + 1]);
      CutAt(ref, i);
    }
    if a: string, d: char, b: string :| d in "0123456789" && ref == a + (['#', d] + b) {
      DigitSet(d);
      HashAt(a, d, b);
    }
  }

  lemma CutAt(ref: string, i: nat)
    requires i < |ref| - 1
    ensures ref == ref[..i] + ([ref[i], ref[i + 1]] + ref[i + 2..])
  {
  }

  lemma HashAt(a: string, d: char, b: string)
    requires IsDigit(d)
    ensures HasIssueRef(a + (['#', d] + b))
  {
    hide IsDigit;
    var ref := a + (['#', d] + b);
    assert ref[|a|] == '#' && ref[|a| + 1] == d;
  }

  lemma DigitSet(c: char)
    ensures IsDigit(c) <==> c in "0123456789"
  {
  }

  /** The gate's meaning, both directions. */
  lemma GateMeansPolicy(g: Gate, files: seq<File>)
    ensures Failures(g, files) == [] <==> Policy(g, files)
  {
    hide Flat, ReachEvents, InstallEvents, OllamaEvents, ReviewEvents, AfterSinks,
         ReachOk, SinkOk, InstallOk, TagsOk, ServeOk;
    var reach, installs := Flat(files, ReachEvents(g)), Flat(files, InstallEvents(g));
    var ollama, reviews := Flat(files, OllamaEvents(g)), Flat(g.reviewed, ReviewEvents(g, files));
    var sinks := AfterSinks(g, files, |g.sinks|, reach);
    QuietBoth(g, sinks + installs + ollama, reviews);
    QuietBoth(g, sinks + installs, ollama);
    QuietBoth(g, sinks, installs);
    SinksQuiet(g, files, |g.sinks|, reach);
    QuietLoop(g, files, ReachEvents(g));
    QuietLoop(g, files, InstallEvents(g));
    QuietLoop(g, files, OllamaEvents(g));
    ReviewsQuiet(g, files);
    forall i | 0 <= i < |files|
      ensures Quiet(g, ReachEvents(g)(files[i])) <==> ReachOk(g, files[i])
      ensures Quiet(g, InstallEvents(g)(files[i])) <==> InstallOk(g, files[i])
      ensures Quiet(g, OllamaEvents(g)(files[i])) <==> TagsOk(g, files[i]) && ServeOk(g, files[i])
    {
      ReachQuiet(g, files[i]);
      InstallQuiet(g, files[i]);
      OllamaQuiet(g, files[i]);
    }
  }
}
