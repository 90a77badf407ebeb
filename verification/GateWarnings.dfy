/** "This waiver is no longer needed" is said exactly of waivers no finding needs (scripts/local-first-gate.ts). */
module GateWarnings {
  import opened Seqs
  import opened GateSpec
  import InstallScan

  ghost predicate NamesId(g: Gate, e: Event, id: string) {
    e.Raise? && Recorded(g, e).sink == Some(id)
  }

  ghost predicate Named(g: Gate, events: seq<Event>, id: string) {
    exists e :: e in events && NamesId(g, e, id)
  }

  /** Events that neither name the entry nor report its waiver. */
  ghost predicate Silent(g: Gate, events: seq<Event>, id: string) {
    !Named(g, events, id) && Warn(WaiverNotNeeded(id)) !in events
  }

  lemma NamedIffListed(g: Gate, events: seq<Event>, id: string)
    ensures Named(g, events, id)
            <==> Names(Flat(events, WaivedOf(g)), id) || Names(Flat(events, FailureOf(g)), id)
  {
    hide Covers, Recorded, Flat;
    var waived, failing := Flat(events, WaivedOf(g)), Flat(events, FailureOf(g));
    forall f
      ensures f in waived || f in failing
              <==> exists i :: 0 <= i < |events| && events[i].Raise? && f == Recorded(g, events[i])
    {
      FlatMember(events, WaivedOf(g), f);
      FlatMember(events, FailureOf(g), f);
    }
    if Named(g, events, id) {
      var e :| e in events && NamesId(g, e, id);
      assert Recorded(g, e) in waived || Recorded(g, e) in failing;
    }
    if Names(waived, id) || Names(failing, id) {
      var f :| (f in waived || f in failing) && f.sink == Some(id);
      var i :| 0 <= i < |events| && events[i].Raise? && f == Recorded(g, events[i]);
      assert events[i] in events && NamesId(g, events[i], id);
    }
  }

  lemma ReportListed(events: seq<Event>, w: Warning)
    ensures w in Flat(events, WarningOf()) <==> Warn(w) in events
  {
    FlatMember(events, WarningOf(), w);
    if Warn(w) in events {
      var i :| 0 <= i < |events| && events[i] == Warn(w);
      assert w in WarningOf()(events[i]);
    }
  }

  lemma NamedAppend(g: Gate, a: seq<Event>, b: seq<Event>, id: string)
    ensures Named(g, a + b, id) <==> Named(g, a, id) || Named(g, b, id)
  {
    hide NamesId;
  }

  lemma SilentLoop<A>(g: Gate, xs: seq<A>, f: A -> seq<Event>, id: string)
    requires forall i :: 0 <= i < |xs| ==> Silent(g, f(xs[i]), id)
    ensures Silent(g, Flat(xs, f), id)
  {
    hide NamesId, Flat;
    forall e | e in Flat(xs, f)
      ensures !NamesId(g, e, id) && e != Warn(WaiverNotNeeded(id))
    {
      FlatMember(xs, f, e);
    }
  }

  lemma NoReportWhileReaching(g: Gate, files: seq<File>, id: string)
    ensures Warn(WaiverNotNeeded(id)) !in Flat(files, ReachEvents(g))
  {
    hide Flat, FileAllowed, PatternHits, HostsOf;
    var w := Warn(WaiverNotNeeded(id));
    FlatMember(files, ReachEvents(g), w);
    forall i | 0 <= i < |files|
      ensures w !in ReachEvents(g)(files[i])
    {
      FlatMember(HostsIn(g.rx, files[i].text), HostEvents(g, files[i].path), w);
      FlatMember(g.sinks, PatternEvents(files[i]), w);
    }
  }

  /** The raises of one entry, before its waiver is looked at. */
  ghost function OwnRaises(files: seq<File>, s: Sink): seq<Event> {
    DefaultEvents(s) + Flat(s.optIn, GuardEvents(files, s))
  }

  lemma GuardSilent(g: Gate, files: seq<File>, s: Sink, gd: Guard, id: string)
    requires s.id != id
    ensures Silent(g, GuardEvents(files, s)(gd), id)
  {
    hide Covers, Lookup, PatternLive;
    assert !NamesId(g, Raise(Some(HolderOf(s)), Finding(GuardMissing, Some(s.id), Some(gd.file))), id);
    DirectSilent(g, id);
  }

  lemma OwnRaisesSilent(g: Gate, files: seq<File>, s: Sink, id: string)
    ensures Warn(WaiverNotNeeded(id)) !in OwnRaises(files, s)
    ensures s.id != id ==> Silent(g, OwnRaises(files, s), id)
  {
    hide Flat, Covers, Lookup, PatternLive;
    var w := Warn(WaiverNotNeeded(id));
    FlatMember(s.optIn, GuardEvents(files, s), w);
    if s.id != id {
      forall i | 0 <= i < |s.optIn|
        ensures Silent(g, GuardEvents(files, s)(s.optIn[i]), id)
      {
        GuardSilent(g, files, s, s.optIn[i], id);
      }
      SilentLoop(g, s.optIn, GuardEvents(files, s), id);
      NamedAppend(g, DefaultEvents(s), Flat(s.optIn, GuardEvents(files, s)), id);
    }
  }

  lemma UnseenSilent(g: Gate, files: seq<File>, s: Sink, id: string)
    ensures Silent(g, Flat(s.hosts, UnseenHostEvents(g, files, s)), id)
  {
    hide Flat, HostSeen;
    SilentLoop(g, s.hosts, UnseenHostEvents(g, files, s), id);
  }

  lemma OtherSinkSilent(g: Gate, files: seq<File>, s: Sink, before: seq<Event>, id: string)
    requires s.id != id
    ensures Silent(g, SinkEvents(g, files, s, before), id)
  {
    hide Flat, Names, UnseenHostEvents, Covers;
    OwnRaisesSilent(g, files, s, id);
    UnseenSilent(g, files, s, id);
    var stale := StaleWaiverEvents(g, s, before + OwnRaises(files, s));
    NamedAppend(g, OwnRaises(files, s) + stale, Flat(s.hosts, UnseenHostEvents(g, files, s)), id);
    NamedAppend(g, OwnRaises(files, s), stale, id);
  }

  lemma InstallSilent(g: Gate, f: File, id: string)
    requires InstallId(f.path) != id
    ensures Silent(g, InstallEvents(g)(f), id)
  {
    hide Covers, InstallId, InstallScan.HitsIn, SiteEvents;
    var k, count := SiteIndex(g.sites, f.path), |InstallScan.HitsIn(g.rx.install, f.text)|;
    DirectSilent(g, id);
    if k < |g.sites| && count > 0 {
      SiteSilent(g, g.sites[k], count, id);
    }
  }

  lemma OllamaSilent(g: Gate, f: File, id: string)
    ensures Silent(g, OllamaEvents(g)(f), id)
  {
    hide BadTagsReader, BadServe, NamesId;
    DirectSilent(g, id);
  }

  lemma ReviewSilent(g: Gate, files: seq<File>, r: Reviewed, id: string)
    ensures Silent(g, ReviewEvents(g, files)(r), id)
  {
    hide Lookup, NamesId;
    DirectSilent(g, id);
  }

  lemma RestSilent(g: Gate, files: seq<File>, id: string)
    requires forall i :: 0 <= i < |files| ==> InstallId(files[i].path) != id
    ensures Silent(g, Flat(files, InstallEvents(g)) + Flat(files, OllamaEvents(g))
                      + Flat(g.reviewed, ReviewEvents(g, files)), id)
  {
    hide Flat, InstallEvents, OllamaEvents, ReviewEvents, Named, InstallId;
    var installs, ollama := Flat(files, InstallEvents(g)), Flat(files, OllamaEvents(g));
    var reviews := Flat(g.reviewed, ReviewEvents(g, files));
    forall i | 0 <= i < |files|
      ensures Silent(g, InstallEvents(g)(files[i]), id) && Silent(g, OllamaEvents(g)(files[i]), id)
    {
      InstallSilent(g, files[i], id);
      OllamaSilent(g, files[i], id);
    }
    forall i | 0 <= i < |g.reviewed|
      ensures Silent(g, ReviewEvents(g, files)(g.reviewed[i]), id)
    {
      ReviewSilent(g, files, g.reviewed[i], id);
    }
    SilentLoop(g, files, InstallEvents(g), id);
    SilentLoop(g, files, OllamaEvents(g), id);
    SilentLoop(g, g.reviewed, ReviewEvents(g, files), id);
    NamedAppend(g, installs + ollama, reviews, id);
    NamedAppend(g, installs, ollama, id);
  }

  lemma DirectSilent(g: Gate, id: string)
    ensures forall f: Finding :: f.sink == None ==> !NamesId(g, Raise(None, f), id)
    ensures forall w :: !NamesId(g, Warn(w), id)
  {
  }

  lemma SiteSilent(g: Gate, site: Site, count: nat, id: string)
    requires count > 0 && InstallId(site.file) != id
    ensures Silent(g, SiteEvents(site, count), id)
  {
    hide Covers, InstallId;
  }

  /** Whether entry k's waiver is reported, and what names it, is settled by the time entry k is done. */
  lemma {:induction false} ReportedOnce(g: Gate, files: seq<File>, k: nat, n: nat, before: seq<Event>)
    requires k < |g.sinks| && n <= |g.sinks|
    requires forall i, j :: 0 <= i < j < |g.sinks| ==> g.sinks[i].id != g.sinks[j].id
    requires Warn(WaiverNotNeeded(g.sinks[k].id)) !in before
    ensures
      var s, w := g.sinks[k], Warn(WaiverNotNeeded(g.sinks[k].id));
      var all := AfterSinks(g, files, n, before);
      && (n <= k ==> w !in all)
      && (n > k ==> (w in all <==> s.waiver.Some? && !g.noWaivers && !Named(g, all, s.id)))
  {
    hide SinkEvents, Named;
    if n > 0 {
      var id := g.sinks[k].id;
      var prior := AfterSinks(g, files, n - 1, before);
      ReportedOnce(g, files, k, n - 1, before);
      NamedAppend(g, prior, SinkEvents(g, files, g.sinks[n - 1], prior), id);
      if n - 1 == k {
        OwnReport(g, files, g.sinks[k], prior);
      } else {
        OtherSinkSilent(g, files, g.sinks[n - 1], prior, id);
      }
    }
  }

  lemma OwnReport(g: Gate, files: seq<File>, s: Sink, prior: seq<Event>)
    ensures
      var own := SinkEvents(g, files, s, prior);
      Warn(WaiverNotNeeded(s.id)) in own
      <==> s.waiver.Some? && !g.noWaivers && !Named(g, prior, s.id) && !Named(g, own, s.id)
  {
    hide Flat, Names, UnseenHostEvents, NamesId, DefaultEvents, GuardEvents;
    var raised, unseen := OwnRaises(files, s), Flat(s.hosts, UnseenHostEvents(g, files, s));
    var stale := StaleWaiverEvents(g, s, prior + raised);
    OwnRaisesSilent(g, files, s, s.id);
    UnseenSilent(g, files, s, s.id);
    DirectSilent(g, s.id);
    NamedIffListed(g, prior + raised, s.id);
    NamedAppend(g, prior, raised, s.id);
    NamedAppend(g, raised + stale, unseen, s.id);
    NamedAppend(g, raised, stale, s.id);
  }

  lemma NamesMeaning(findings: seq<Finding>, id: string)
    ensures Names(findings, id) <==> exists f :: f in findings && f.sink == Some(id)
  {
    if f :| f in findings && f.sink == Some(id) {
      var i :| 0 <= i < |findings| && findings[i] == f;
    }
  }

  /** With distinct entry ids: the report is made exactly of a waiver, in force, that no finding of the run needs. */
  lemma WaiverReportExact(g: Gate, files: seq<File>, k: nat)
    requires k < |g.sinks|
    requires forall i, j :: 0 <= i < j < |g.sinks| ==> g.sinks[i].id != g.sinks[j].id
    requires forall i :: 0 <= i < |files| ==> InstallId(files[i].path) != g.sinks[k].id
    ensures
      var s := g.sinks[k];
      WaiverNotNeeded(s.id) in Warnings(g, files)
      <==> && s.waiver.Some? && !g.noWaivers
           && (forall f :: f in Failures(g, files) || f in WaivedFindings(g, files) ==> f.sink != Some(s.id))
  {
    hide Flat, ReachEvents, InstallEvents, OllamaEvents, ReviewEvents, AfterSinks, Named, Names;
    var s, events := g.sinks[k], GateEvents(g, files);
    var reach := Flat(files, ReachEvents(g));
    var sinks := AfterSinks(g, files, |g.sinks|, reach);
    var rest := Flat(files, InstallEvents(g)) + Flat(files, OllamaEvents(g)) + Flat(g.reviewed, ReviewEvents(g, files));
    NoReportWhileReaching(g, files, s.id);
    ReportedOnce(g, files, k, |g.sinks|, reach);
    RestSilent(g, files, s.id);
    assert events == sinks + rest;
    NamedAppend(g, sinks, rest, s.id);
    NamedIffListed(g, events, s.id);
    ReportListed(events, WaiverNotNeeded(s.id));
    NamesMeaning(Failures(g, files), s.id);
    NamesMeaning(WaivedFindings(g, files), s.id);
  }
}
