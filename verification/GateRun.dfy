/** The gate as the script runs it: loops that push into shared lists (scripts/local-first-gate.ts). */
module GateRun {
  import opened Seqs
  import opened Text
  import opened GateSpec
  import InstallScan

  method HostList(rx: Regexes, text: string) returns (out: seq<string>)
    ensures out == HostsIn(rx, text)
  {
    var tokens := rx.hostTokens(text);
    out := [];
    for i := 0 to |tokens|
      invariant out == HostsOf(rx, tokens[..i])
    {
      assert tokens[..i + 1][..i] == tokens[..i];
      var h := HostName(tokens[i]);
      if !rx.localHost(h) && h !in out {
        out := out + [h];
      }
    }
    assert tokens[..|tokens|] == tokens;
  }

  class Run {
    const g: Gate
    var failures: seq<Finding>
    var waived: seq<Finding>
    var warnings: seq<Warning>
    var seenHosts: set<string>
    ghost var events: seq<Event>

    ghost predicate Valid() reads this {
      && failures == Flat(events, FailureOf(g))
      && waived == Flat(events, WaivedOf(g))
      && warnings == Flat(events, WarningOf())
    }

    constructor (g: Gate)
      ensures Valid() && this.g == g && events == [] && seenHosts == {}
    {
      this.g := g;
      failures, waived, warnings, seenHosts, events := [], [], [], {}, [];
    }

    method Fail(f: Finding)
      requires Valid()
      modifies this
      ensures Valid() && events == old(events) + [Raise(None, f)] && seenHosts == old(seenHosts)
    {
      ghost var e := Raise(None, f);
      FlatPush(events, e, FailureOf(g));
      FlatPush(events, e, WaivedOf(g));
      FlatPush(events, e, WarningOf());
      failures := failures + [f];
      events := events + [e];
    }

    method WarnAbout(w: Warning)
      requires Valid()
      modifies this
      ensures Valid() && events == old(events) + [Warn(w)] && seenHosts == old(seenHosts)
    {
      ghost var e := Warn(w);
      FlatPush(events, e, FailureOf(g));
      FlatPush(events, e, WaivedOf(g));
      FlatPush(events, e, WarningOf());
      warnings := warnings + [w];
      events := events + [e];
    }

    /** Records a finding under its holder's waiver: it fails, the waiver fails, or it is known. */
    method Settle(h: Holder, f: Finding)
      requires Valid()
      modifies this
      ensures Valid() && events == old(events) + [Raise(Some(h), f)] && seenHosts == old(seenHosts)
    {
      hide HasIssueRef, IsFullDate, Less, Flat;
      ghost var e := Raise(Some(h), f);
      FlatPush(events, e, FailureOf(g));
      FlatPush(events, e, WaivedOf(g));
      FlatPush(events, e, WarningOf());
      events := events + [e];
      if h.waiver == None || g.noWaivers {
        failures := failures + [f];
        return;
      }
      var w := h.waiver.value;
      if !HasIssueRef(w.ref) || !IsFullDate(w.expires) {
        failures := failures + [Finding(WaiverRule, Some(h.id), None)];
        return;
      }
      if Less(w.expires, g.today) {
        failures := failures + [Finding(WaiverRule, Some(h.id), None)];
        return;
      }
      waived := waived + [f];
    }

    method CheckHost(path: string, host: string)
      requires Valid()
      modifies this
      ensures Valid() && events == old(events) + HostEvents(g, path)(host)
      ensures seenHosts == old(seenHosts) + {host}
    {
      seenHosts := seenHosts + {host};
      var i := OwnerIndex(g.sinks, host);
      if i == |g.sinks| {
        Fail(Finding(NewHost, None, Some(path)));
        return;
      }
      var owner := g.sinks[i];
      if owner.files.Some? && !FileAllowed(path, owner.files) {
        Fail(Finding(NewPath, Some(owner.id), Some(path)));
      }
    }

    method CheckPatterns(f: File, s: Sink)
      requires Valid()
      modifies this
      ensures Valid() && events == old(events) + PatternEvents(f)(s) && seenHosts == old(seenHosts)
    {
      if s.patterns.None? || FileAllowed(f.path, s.files) {
        return;
      }
      if PatternHits(s, f.text) {
        Fail(Finding(NewPath, Some(s.id), Some(f.path)));
      }
    }

    method CheckReach(f: File)
      requires Valid()
      modifies this
      ensures Valid() && events == old(events) + ReachEvents(g)(f)
      ensures forall h :: h in seenHosts <==> h in old(seenHosts) || h in HostsIn(g.rx, f.text)
    {
      hide HostEvents, PatternEvents, Valid, HostsIn, Flat;
      var hosts := HostList(g.rx, f.text);
      FlatNone(hosts, HostEvents(g, f.path));
      for i := 0 to |hosts|
        invariant Valid()
        invariant events == old(events) + Flat(hosts[..i], HostEvents(g, f.path))
        invariant forall h :: h in seenHosts <==> h in old(seenHosts) || h in hosts[..i]
      {
        FlatStep(hosts, i, HostEvents(g, f.path));
        CheckHost(f.path, hosts[i]);
      }
      assert hosts[..|hosts|] == hosts;
      ghost var mid, seen := events, seenHosts;
      FlatNone(g.sinks, PatternEvents(f));
      for i := 0 to |g.sinks|
        invariant Valid() && seenHosts == seen
        invariant events == mid + Flat(g.sinks[..i], PatternEvents(f))
      {
        FlatStep(g.sinks, i, PatternEvents(f));
        CheckPatterns(f, g.sinks[i]);
      }
      assert g.sinks[..|g.sinks|] == g.sinks;
    }

    method CheckGuard(files: seq<File>, s: Sink, gd: Guard)
      requires Valid()
      modifies this
      ensures Valid() && events == old(events) + GuardEvents(files, s)(gd) && seenHosts == old(seenHosts)
    {
      var text := Lookup(files, gd.file);
      var live := PatternLive(s, files);
      if text == None {
        if live {
          Settle(HolderOf(s), Finding(GuardMissing, Some(s.id), Some(gd.file)));
        } else {
          WarnAbout(GuardFileGone(s.id, gd.file));
        }
        return;
      }
      if !gd.mustMatch(text.value) {
        if s.patterns.Some? && !live {
          WarnAbout(GuardNotNeeded(s.id, gd.file));
          return;
        }
        Settle(HolderOf(s), Finding(GuardMissing, Some(s.id), Some(gd.file)));
      }
    }

    method CheckStaleWaiver(s: Sink)
      requires Valid()
      modifies this
      ensures Valid() && events == old(events) + StaleWaiverEvents(g, s, old(events)) && seenHosts == old(seenHosts)
    {
      if s.waiver.Some? && !g.noWaivers && !Names(waived, s.id) && !Names(failures, s.id) {
        WarnAbout(WaiverNotNeeded(s.id));
      }
    }

    method CheckUnseen(files: seq<File>, s: Sink, h: string)
      requires Valid() && forall x :: x in seenHosts <==> Spelled(g, files, x)
      modifies this
      ensures Valid() && events == old(events) + UnseenHostEvents(g, files, s)(h) && seenHosts == old(seenHosts)
    {
      if !exists seen :: seen in seenHosts && HostMatches(h, seen) {
        WarnAbout(HostNotSeen(s.id, h));
      }
    }

    method CheckGuards(files: seq<File>, s: Sink)
      requires Valid()
      modifies this
      ensures Valid() && seenHosts == old(seenHosts)
      ensures events == old(events) + (DefaultEvents(s) + Flat(s.optIn, GuardEvents(files, s)))
    {
      hide GuardEvents, Valid;
      if s.mode == Default {
        Settle(HolderOf(s), Finding(DefaultSink, Some(s.id), None));
      }
      for i := 0 to |s.optIn|
        invariant Valid() && seenHosts == old(seenHosts)
        invariant events == old(events) + (DefaultEvents(s) + Flat(s.optIn[..i], GuardEvents(files, s)))
      {
        FlatStep(s.optIn, i, GuardEvents(files, s));
        CheckGuard(files, s, s.optIn[i]);
      }
      assert s.optIn[..|s.optIn|] == s.optIn;
    }

    method CheckHostsSeen(files: seq<File>, s: Sink)
      requires Valid() && forall x :: x in seenHosts <==> Spelled(g, files, x)
      modifies this
      ensures Valid() && seenHosts == old(seenHosts)
      ensures events == old(events) + Flat(s.hosts, UnseenHostEvents(g, files, s))
    {
      hide UnseenHostEvents, Valid, Spelled;
      for i := 0 to |s.hosts|
        invariant Valid() && seenHosts == old(seenHosts)
        invariant events == old(events) + Flat(s.hosts[..i], UnseenHostEvents(g, files, s))
      {
        FlatStep(s.hosts, i, UnseenHostEvents(g, files, s));
        CheckUnseen(files, s, s.hosts[i]);
      }
      assert s.hosts[..|s.hosts|] == s.hosts;
    }

    method CheckSink(files: seq<File>, s: Sink)
      requires Valid() && forall x :: x in seenHosts <==> Spelled(g, files, x)
      modifies this
      ensures Valid() && events == old(events) + SinkEvents(g, files, s, old(events)) && seenHosts == old(seenHosts)
    {
      hide GuardEvents, UnseenHostEvents, Valid, StaleWaiverEvents, Spelled, DefaultEvents, Flat;
      CheckGuards(files, s);
      CheckStaleWaiver(s);
      CheckHostsSeen(files, s);
    }

    method CheckInstalls(f: File)
      requires Valid()
      modifies this
      ensures Valid() && events == old(events) + InstallEvents(g)(f) && seenHosts == old(seenHosts)
    {
      if g.rx.installExcluded(f.path) {
        return;
      }
      var unmarked := InstallScan.InstallLines(g.rx.install, f.text);
      var i := SiteIndex(g.sites, f.path);
      if unmarked == [] {
        if i < |g.sites| {
          WarnAbout(SiteNotNeeded(f.path));
        }
        return;
      }
      if i == |g.sites| {
        Fail(Finding(NewInstall, None, Some(f.path)));
        return;
      }
      CheckSite(g.sites[i], |unmarked|);
    }

    method CheckSite(site: Site, count: nat)
      requires Valid() && count > 0
      modifies this
      ensures Valid() && events == old(events) + SiteEvents(site, count) && seenHosts == old(seenHosts)
    {
      hide Valid;
      if count > site.max {
        Fail(Finding(NewInstall, None, Some(site.file)));
      } else if count < site.max {
        WarnAbout(SiteBelowMax(site.file));
      }
      if site.mode == SiteDefault {
        Settle(Holder(InstallId(site.file), site.waiver), Finding(DefaultInstall, None, Some(site.file)));
      }
    }

    method CheckOllama(f: File)
      requires Valid()
      modifies this
      ensures Valid() && events == old(events) + OllamaEvents(g)(f) && seenHosts == old(seenHosts)
    {
      hide Valid;
      if BadTagsReader(g, f) {
        Fail(Finding(TagsReader, None, Some(f.path)));
      }
      if BadServe(g, f) {
        Fail(Finding(ServeEnv, None, Some(f.path)));
      }
    }

    method CheckReview(files: seq<File>, r: Reviewed)
      requires Valid()
      modifies this
      ensures Valid() && events == old(events) + ReviewEvents(g, files)(r) && seenHosts == old(seenHosts)
    {
      var text := Lookup(files, r.file);
      if text == None || !g.rx.readsTags(text.value) {
        WarnAbout(ReviewNotNeeded(r.file));
      }
    }

    method CheckAllReach(files: seq<File>)
      requires Valid() && seenHosts == {}
      modifies this
      ensures Valid() && events == old(events) + Flat(files, ReachEvents(g))
      ensures forall x :: x in seenHosts <==> Spelled(g, files, x)
    {
      hide Valid, ReachEvents, HostsIn;
      for i := 0 to |files|
        invariant Valid()
        invariant events == old(events) + Flat(files[..i], ReachEvents(g))
        invariant forall x :: x in seenHosts <==> exists k :: 0 <= k < i && x in HostsIn(g.rx, files[k].text)
      {
        FlatStep(files, i, ReachEvents(g));
        CheckReach(files[i]);
      }
      assert files[..|files|] == files;
    }

    method CheckAllSinks(files: seq<File>)
      requires Valid() && forall x :: x in seenHosts <==> Spelled(g, files, x)
      modifies this
      ensures Valid() && events == AfterSinks(g, files, |g.sinks|, old(events))
    {
      hide Valid, SinkEvents, Spelled;
      for i := 0 to |g.sinks|
        invariant Valid() && seenHosts == old(seenHosts)
        invariant events == AfterSinks(g, files, i, old(events))
      {
        CheckSink(files, g.sinks[i]);
      }
    }

    method CheckAllInstalls(files: seq<File>)
      requires Valid()
      modifies this
      ensures Valid() && events == old(events) + Flat(files, InstallEvents(g))
    {
      hide Valid, InstallEvents;
      for i := 0 to |files|
        invariant Valid()
        invariant events == old(events) + Flat(files[..i], InstallEvents(g))
      {
        FlatStep(files, i, InstallEvents(g));
        CheckInstalls(files[i]);
      }
      assert files[..|files|] == files;
    }

    method CheckAllOllama(files: seq<File>)
      requires Valid()
      modifies this
      ensures Valid()
      ensures events == old(events) + Flat(files, OllamaEvents(g)) + Flat(g.reviewed, ReviewEvents(g, files))
    {
      hide Valid, OllamaEvents, ReviewEvents;
      for i := 0 to |files|
        invariant Valid()
        invariant events == old(events) + Flat(files[..i], OllamaEvents(g))
      {
        FlatStep(files, i, OllamaEvents(g));
        CheckOllama(files[i]);
      }
      assert files[..|files|] == files;
      ghost var mid := events;
      for i := 0 to |g.reviewed|
        invariant Valid()
        invariant events == mid + Flat(g.reviewed[..i], ReviewEvents(g, files))
      {
        FlatStep(g.reviewed, i, ReviewEvents(g, files));
        CheckReview(files, g.reviewed[i]);
      }
      assert g.reviewed[..|g.reviewed|] == g.reviewed;
    }

    /** The whole run: afterwards the three lists are exactly the specified ones. */
    method Execute(files: seq<File>)
      requires Valid() && events == [] && seenHosts == {}
      modifies this
      ensures Valid() && events == GateEvents(g, files)
      ensures failures == Failures(g, files)
      ensures waived == WaivedFindings(g, files)
      ensures warnings == Warnings(g, files)
    {
      hide ReachEvents, InstallEvents, OllamaEvents, ReviewEvents, AfterSinks, Flat, Spelled;
      CheckAllReach(files);
      assert events == Flat(files, ReachEvents(g));
      CheckAllSinks(files);
      CheckAllInstalls(files);
      CheckAllOllama(files);
    }
  }
}
