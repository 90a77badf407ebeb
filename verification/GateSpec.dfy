/**
 * What the local-first gate (scripts/local-first-gate.ts) reports, as a list of events.
 *
 * Regular expressions are function values about which nothing is assumed. A file map is a list of
 * entries in insertion order. Message texts are left out: a finding is its rule, sink and file.
 */
module GateSpec {
  import opened Seqs
  import opened Text
  import InstallScan

  type Test = string -> bool

  datatype Waiver = Waiver(ref: string, expires: string)
  datatype Guard = Guard(file: string, mustMatch: Test)
  datatype Mode = OptIn | Command | Default | Pull | Inert
  datatype Sink = Sink(
    id: string, mode: Mode, hosts: seq<string>, patterns: Option<seq<Test>>,
    files: Option<seq<string>>, optIn: seq<Guard>, waiver: Option<Waiver>)
  datatype SiteMode = SiteOptIn | SiteFallback | SiteDefault
  datatype Site = Site(file: string, mode: SiteMode, max: nat, waiver: Option<Waiver>)
  datatype Reviewed = Reviewed(file: string, reason: string)
  datatype File = File(path: string, text: string)

  /** The fixed tests of the script; `hostTokens` is the list of URL hosts a text spells. */
  datatype Regexes = Regexes(
    hostTokens: string -> seq<string>, localHost: Test, install: InstallScan.Tests,
    installExcluded: Test, readsTags: Test, cloudFilter: Test,
    servesList: Test, namesOllama: Test, noCloud: Test)

  datatype Gate = Gate(
    sinks: seq<Sink>, sites: seq<Site>, reviewed: seq<Reviewed>, rx: Regexes,
    noWaivers: bool, today: string)

  datatype Rule =
    | NewHost | NewPath | GuardMissing | DefaultSink | WaiverRule
    | TagsReader | ServeEnv | NewInstall | DefaultInstall
  datatype Finding = Finding(rule: Rule, sink: Option<string>, file: Option<string>)
  datatype Warning =
    | GuardFileGone(sink: string, file: string)
    | GuardNotNeeded(sink: string, file: string)
    | WaiverNotNeeded(sink: string)
    | HostNotSeen(sink: string, host: string)
    | SiteNotNeeded(file: string)
    | SiteBelowMax(file: string)
    | ReviewNotNeeded(file: string)

  /** Who can settle a finding: the entry's id and its waiver. */
  datatype Holder = Holder(id: string, waiver: Option<Waiver>)

  /** One thing the gate says. A raise with a holder goes through `settle`; one without is pushed directly. */
  datatype Event = Raise(holder: Option<Holder>, finding: Finding) | Warn(warning: Warning)

  const OLLAMA_CLOUD_HELPER := "packages/core/ollama-cloud.ts"

  // --- hosts and paths -----------------------------------------------------

  predicate HostMatches(pattern: string, host: string) {
    if "*." <= pattern then EndsWith(host, pattern[1..]) else host == pattern
  }

  predicate PathCovers(a: string, file: string) {
    if EndsWith(a, "/") then a <= file else file == a
  }

  predicate FileAllowed(file: string, allowed: Option<seq<string>>) {
    allowed.Some? ==> exists a :: a in allowed.value && PathCovers(a, file)
  }

  function Lower(c: char): char {
    if 'A' <= c <= 'Z' then (c as int + 32) as char else c
  }

  function LowerAll(s: string): string {
    seq(|s|, i requires 0 <= i < |s| => Lower(s[i]))
  }

  function StripDots(s: string): string {
    if s != "" && s[|s| - 1] == '.' then StripDots(s[..|s| - 1]) else s
  }

  function HostName(token: string): string {
    StripDots(LowerAll(token))
  }

  /** Distinct host names among some tokens, this machine's removed, in order of first appearance. */
  function HostsOf(rx: Regexes, tokens: seq<string>): seq<string> {
    if tokens == [] then []
    else
      var before := HostsOf(rx, tokens[..|tokens| - 1]);
      var h := HostName(tokens[|tokens| - 1]);
      if rx.localHost(h) || h in before then before else before + [h]
  }

  function HostsIn(rx: Regexes, text: string): seq<string> {
    HostsOf(rx, rx.hostTokens(text))
  }

  /** First index whose sink claims the host, or the number of sinks. */
  function OwnerIndex(sinks: seq<Sink>, host: string): (i: nat)
    ensures i <= |sinks|
    ensures i < |sinks| ==> Claims(sinks[i], host)
    ensures forall k :: 0 <= k < i ==> !Claims(sinks[k], host)
  {
    if sinks == [] then 0
    else if Claims(sinks[0], host) then 0
    else
      var r := OwnerIndex(sinks[1..], host);
      assert forall k :: 1 <= k <= r ==> sinks[k] == sinks[1..][k - 1] || k == |sinks|;
      1 + r
  }

  predicate Claims(s: Sink, host: string) {
    exists p :: p in s.hosts && HostMatches(p, host)
  }

  predicate PatternHits(s: Sink, text: string) {
    s.patterns.Some? && exists i :: 0 <= i < |s.patterns.value| && s.patterns.value[i](text)
  }

  predicate PatternLive(s: Sink, files: seq<File>) {
    exists i :: 0 <= i < |files| && PatternHits(s, files[i].text)
  }

  function Lookup(files: seq<File>, path: string): Option<string> {
    if files == [] then None
    else if files[0].path == path then Some(files[0].text)
    else Lookup(files[1..], path)
  }

  // --- settling a finding --------------------------------------------------

  predicate HasIssueRef(ref: string) {
    exists i :: 0 <= i < |ref| - 1 && ref[i] == '#' && IsDigit(ref[i + 1])
  }

  predicate IsFullDate(d: string) {
    && |d| == 10 && d[4] == '-' && d[7] == '-'
    && forall i :: 0 <= i < 10 && i != 4 && i != 7 ==> IsDigit(d[i])
  }

  predicate WellFormed(w: Waiver) {
    HasIssueRef(w.ref) && IsFullDate(w.expires)
  }

  /** Does this holder's waiver cover a finding today? */
  predicate Covers(g: Gate, h: Holder) {
    h.waiver.Some? && !g.noWaivers && WellFormed(h.waiver.value) && !Less(h.waiver.value.expires, g.today)
  }

  predicate Waived(g: Gate, e: Event) {
    e.Raise? && e.holder.Some? && Covers(g, e.holder.value)
  }

  predicate Fails(g: Gate, e: Event) {
    e.Raise? && !Waived(g, e)
  }

  /** The finding recorded for a raise: the raise's own, or a complaint about the waiver itself. */
  function Recorded(g: Gate, e: Event): Finding
    requires e.Raise?
  {
    if Fails(g, e) && e.holder.Some? && e.holder.value.waiver.Some? && !g.noWaivers
    then Finding(WaiverRule, Some(e.holder.value.id), None)
    else e.finding
  }

  function FailureOf(g: Gate): Event -> seq<Finding> {
    (e: Event) => if Fails(g, e) then [Recorded(g, e)] else []
  }

  function WaivedOf(g: Gate): Event -> seq<Finding> {
    (e: Event) => if Waived(g, e) then [Recorded(g, e)] else []
  }

  function WarningOf(): Event -> seq<Warning> {
    (e: Event) => if e.Warn? then [e.warning] else []
  }

  predicate Names(findings: seq<Finding>, id: string) {
    exists i :: 0 <= i < |findings| && findings[i].sink == Some(id)
  }

  // --- rules 1 and 2: hosts and patterns -----------------------------------

  function HostEvents(g: Gate, path: string): string -> seq<Event> {
    (host: string) =>
      var i := OwnerIndex(g.sinks, host);
      if i == |g.sinks| then [Raise(None, Finding(NewHost, None, Some(path)))]
      else if !FileAllowed(path, g.sinks[i].files)
      then [Raise(None, Finding(NewPath, Some(g.sinks[i].id), Some(path)))]
      else []
  }

  function PatternEvents(file: File): Sink -> seq<Event> {
    (s: Sink) =>
      if s.patterns.None? || FileAllowed(file.path, s.files) || !PatternHits(s, file.text) then []
      else [Raise(None, Finding(NewPath, Some(s.id), Some(file.path)))]
  }

  function ReachEvents(g: Gate): File -> seq<Event> {
    (f: File) => Flat(HostsIn(g.rx, f.text), HostEvents(g, f.path)) + Flat(g.sinks, PatternEvents(f))
  }

  // --- rules 3 and 4: guards and default sinks -----------------------------

  function HolderOf(s: Sink): Holder { Holder(s.id, s.waiver) }

  function DefaultEvents(s: Sink): seq<Event> {
    if s.mode == Default then [Raise(Some(HolderOf(s)), Finding(DefaultSink, Some(s.id), None))] else []
  }

  function GuardEvents(files: seq<File>, s: Sink): Guard -> seq<Event> {
    (gd: Guard) =>
      var missing := Raise(Some(HolderOf(s)), Finding(GuardMissing, Some(s.id), Some(gd.file)));
      match Lookup(files, gd.file)
      case None =>
        if PatternLive(s, files) then [missing] else [Warn(GuardFileGone(s.id, gd.file))]
      case Some(text) =>
        if gd.mustMatch(text) then []
        else if s.patterns.None? || PatternLive(s, files) then [missing]
        else [Warn(GuardNotNeeded(s.id, gd.file))]
  }

  /** The waiver of a sink no finding names so far is reported as no longer needed. */
  function StaleWaiverEvents(g: Gate, s: Sink, before: seq<Event>): seq<Event> {
    if && s.waiver.Some? && !g.noWaivers
       && !Names(Flat(before, WaivedOf(g)), s.id) && !Names(Flat(before, FailureOf(g)), s.id)
    then [Warn(WaiverNotNeeded(s.id))]
    else []
  }

  predicate Spelled(g: Gate, files: seq<File>, h: string) {
    exists i :: 0 <= i < |files| && h in HostsIn(g.rx, files[i].text)
  }

  ghost predicate HostSeen(g: Gate, files: seq<File>, pattern: string) {
    exists h :: Spelled(g, files, h) && HostMatches(pattern, h)
  }

  ghost function UnseenHostEvents(g: Gate, files: seq<File>, s: Sink): string -> seq<Event> {
    (h: string) => if HostSeen(g, files, h) then [] else [Warn(HostNotSeen(s.id, h))]
  }

  ghost function SinkEvents(g: Gate, files: seq<File>, s: Sink, before: seq<Event>): seq<Event> {
    var raised := DefaultEvents(s) + Flat(s.optIn, GuardEvents(files, s));
    raised + StaleWaiverEvents(g, s, before + raised) + Flat(s.hosts, UnseenHostEvents(g, files, s))
  }

  /** Events after the first n sinks, on top of the events before them. */
  ghost function AfterSinks(g: Gate, files: seq<File>, n: nat, before: seq<Event>): seq<Event>
    requires n <= |g.sinks|
  {
    if n == 0 then before
    else
      var prior := AfterSinks(g, files, n - 1, before);
      prior + SinkEvents(g, files, g.sinks[n - 1], prior)
  }

  // --- rules 7 and 8: installs ---------------------------------------------

  function SiteIndex(sites: seq<Site>, path: string): (i: nat)
    ensures i <= |sites|
    ensures i < |sites| ==> sites[i].file == path
    ensures forall k :: 0 <= k < i ==> sites[k].file != path
  {
    if sites == [] then 0
    else if sites[0].file == path then 0
    else
      var r := SiteIndex(sites[1..], path);
      assert forall k :: 1 <= k <= r ==> sites[k] == sites[1..][k - 1] || k == |sites|;
      1 + r
  }

  function InstallId(path: string): string { "install:" + path }

  function SiteEvents(site: Site, count: nat): seq<Event>
    requires count > 0
  {
    (if count > site.max then [Raise(None, Finding(NewInstall, None, Some(site.file)))]
     else if count < site.max then [Warn(SiteBelowMax(site.file))]
     else [])
    + if site.mode == SiteDefault
      then [Raise(Some(Holder(InstallId(site.file), site.waiver)), Finding(DefaultInstall, None, Some(site.file)))]
      else []
  }

  function InstallEvents(g: Gate): File -> seq<Event> {
    (f: File) =>
      var count := |InstallScan.HitsIn(g.rx.install, f.text)|;
      var i := SiteIndex(g.sites, f.path);
      if g.rx.installExcluded(f.path) then []
      else if count == 0 then if i < |g.sites| then [Warn(SiteNotNeeded(f.path))] else []
      else if i == |g.sites| then [Raise(None, Finding(NewInstall, None, Some(f.path)))]
      else SiteEvents(g.sites[i], count)
  }

  // --- rules 5 and 6: model-list readers, the daemon -----------------------

  predicate IsReviewed(g: Gate, path: string) {
    exists i :: 0 <= i < |g.reviewed| && g.reviewed[i].file == path && g.reviewed[i].reason != ""
  }

  predicate BadTagsReader(g: Gate, f: File) {
    && f.path != OLLAMA_CLOUD_HELPER && g.rx.readsTags(f.text)
    && !g.rx.cloudFilter(f.text) && !IsReviewed(g, f.path)
  }

  predicate BadServe(g: Gate, f: File) {
    g.rx.servesList(f.text) && g.rx.namesOllama(f.text) && !g.rx.noCloud(f.text)
  }

  function OllamaEvents(g: Gate): File -> seq<Event> {
    (f: File) =>
      (if BadTagsReader(g, f) then [Raise(None, Finding(TagsReader, None, Some(f.path)))] else [])
      + (if BadServe(g, f) then [Raise(None, Finding(ServeEnv, None, Some(f.path)))] else [])
  }

  function ReviewEvents(g: Gate, files: seq<File>): Reviewed -> seq<Event> {
    (r: Reviewed) =>
      var text := Lookup(files, r.file);
      if text.Some? && g.rx.readsTags(text.value) then [] else [Warn(ReviewNotNeeded(r.file))]
  }

  /** Everything the gate says, in the order it says it. */
  ghost function GateEvents(g: Gate, files: seq<File>): seq<Event> {
    AfterSinks(g, files, |g.sinks|, Flat(files, ReachEvents(g)))
    + Flat(files, InstallEvents(g)) + Flat(files, OllamaEvents(g))
    + Flat(g.reviewed, ReviewEvents(g, files))
  }

  ghost function Failures(g: Gate, files: seq<File>): seq<Finding> {
    Flat(GateEvents(g, files), FailureOf(g))
  }

  ghost function WaivedFindings(g: Gate, files: seq<File>): seq<Finding> {
    Flat(GateEvents(g, files), WaivedOf(g))
  }

  ghost function Warnings(g: Gate, files: seq<File>): seq<Warning> {
    Flat(GateEvents(g, files), WarningOf())
  }
}
