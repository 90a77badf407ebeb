/** What waivers and dates change about a gate run (scripts/local-first-gate.ts). */
module GateWaivers {
  import opened Seqs
  import opened Text
  import opened GateSpec
  import opened Dates
  import InstallScan

  function RaiseOf(): Event -> seq<Event> {
    (e: Event) => if e.Raise? then [e] else []
  }

  /** The findings before settlement. */
  ghost function Raises(g: Gate, files: seq<File>): seq<Event> {
    Flat(GateEvents(g, files), RaiseOf())
  }

  // --- the findings themselves do not depend on waivers or the date --------

  lemma RaisesOfSink(g: Gate, files: seq<File>, s: Sink, before: seq<Event>)
    ensures Flat(SinkEvents(g, files, s, before), RaiseOf())
            == Flat(DefaultEvents(s) + Flat(s.optIn, GuardEvents(files, s)), RaiseOf())
  {
    hide DefaultEvents, GuardEvents, Flat, Names, HostSeen;
    var raised := DefaultEvents(s) + Flat(s.optIn, GuardEvents(files, s));
    var stale, unseen := StaleWaiverEvents(g, s, before + raised), Flat(s.hosts, UnseenHostEvents(g, files, s));
    FlatAppend(raised + stale, unseen, RaiseOf());
    FlatAppend(raised, stale, RaiseOf());
    FlatEmpty(stale, RaiseOf());
    FlatFlatEmpty(s.hosts, UnseenHostEvents(g, files, s), RaiseOf());
    forall i | 0 <= i < |s.hosts|
      ensures Flat(UnseenHostEvents(g, files, s)(s.hosts[i]), RaiseOf()) == []
    {
      FlatEmpty(UnseenHostEvents(g, files, s)(s.hosts[i]), RaiseOf());
    }
  }

  lemma {:induction false} RaisesOfSinks(g: Gate, h: Gate, files: seq<File>, n: nat, before: seq<Event>)
    requires h == g.(noWaivers := h.noWaivers, today := h.today) && n <= |g.sinks|
    ensures Flat(AfterSinks(g, files, n, before), RaiseOf()) == Flat(AfterSinks(h, files, n, before), RaiseOf())
  {
    hide SinkEvents, DefaultEvents, GuardEvents, Flat;
    if n > 0 {
      var s := g.sinks[n - 1];
      var pg, ph := AfterSinks(g, files, n - 1, before), AfterSinks(h, files, n - 1, before);
      RaisesOfSinks(g, h, files, n - 1, before);
      RaisesOfSink(g, files, s, pg);
      RaisesOfSink(h, files, s, ph);
      FlatAppend(pg, SinkEvents(g, files, s, pg), RaiseOf());
      FlatAppend(ph, SinkEvents(h, files, s, ph), RaiseOf());
    }
  }

  lemma StepsAgree(g: Gate, h: Gate, files: seq<File>)
    requires h == g.(noWaivers := h.noWaivers, today := h.today)
    ensures Flat(files, ReachEvents(g)) == Flat(files, ReachEvents(h))
    ensures Flat(files, InstallEvents(g)) == Flat(files, InstallEvents(h))
    ensures Flat(files, OllamaEvents(g)) == Flat(files, OllamaEvents(h))
    ensures Flat(g.reviewed, ReviewEvents(g, files)) == Flat(h.reviewed, ReviewEvents(h, files))
  {
    hide Flat, FileAllowed, OwnerIndex, SiteEvents, SiteIndex, PatternEvents, HostsOf;
    forall f: File
      ensures ReachEvents(g)(f) == ReachEvents(h)(f)
    {
      FlatSame(HostsIn(g.rx, f.text), HostEvents(g, f.path), HostEvents(h, f.path));
    }
    FlatSame(files, ReachEvents(g), ReachEvents(h));
    FlatSame(files, InstallEvents(g), InstallEvents(h));
    FlatSame(files, OllamaEvents(g), OllamaEvents(h));
    FlatSame(g.reviewed, ReviewEvents(g, files), ReviewEvents(h, files));
  }

  /** Neither `noWaivers` nor `today` changes what is found, only how it is settled. */
  lemma SameRaises(g: Gate, h: Gate, files: seq<File>)
    requires h == g.(noWaivers := h.noWaivers, today := h.today)
    ensures Raises(g, files) == Raises(h, files)
  {
    hide Flat, AfterSinks, ReachEvents, InstallEvents, OllamaEvents, ReviewEvents;
    var before, installs := Flat(files, ReachEvents(g)), Flat(files, InstallEvents(g));
    var ollama, reviews := Flat(files, OllamaEvents(g)), Flat(g.reviewed, ReviewEvents(g, files));
    StepsAgree(g, h, files);
    RaisesOfSinks(g, h, files, |g.sinks|, before);
    var sg, sh := AfterSinks(g, files, |g.sinks|, before), AfterSinks(h, files, |g.sinks|, before);
    RaisesOfTail(sg, installs, ollama, reviews);
    RaisesOfTail(sh, installs, ollama, reviews);
  }

  lemma RaisesOfTail(a: seq<Event>, b: seq<Event>, c: seq<Event>, d: seq<Event>)
    ensures Flat(a + b + c + d, RaiseOf())
            == Flat(a, RaiseOf()) + Flat(b, RaiseOf()) + Flat(c, RaiseOf()) + Flat(d, RaiseOf())
  {
    hide Flat;
    FlatAppend(a + b + c, d, RaiseOf());
    FlatAppend(a + b, c, RaiseOf());
    FlatAppend(a, b, RaiseOf());
  }

  lemma {:induction false} OnlyRaisesSettle(g: Gate, events: seq<Event>)
    ensures Flat(events, FailureOf(g)) == Flat(Flat(events, RaiseOf()), FailureOf(g))
    ensures Flat(events, WaivedOf(g)) == Flat(Flat(events, RaiseOf()), WaivedOf(g))
    ensures forall i :: 0 <= i < |Flat(events, RaiseOf())| ==> Flat(events, RaiseOf())[i].Raise?
  {
    hide Covers, Recorded;
    if events != [] {
      var n := |events| - 1;
      var prior := Flat(events[..n], RaiseOf());
      OnlyRaisesSettle(g, events[..n]);
      if events[n].Raise? {
        FlatPush(prior, events[n], FailureOf(g));
        FlatPush(prior, events[n], WaivedOf(g));
      } else {
        assert Flat(events, RaiseOf()) == prior;
      }
    }
  }

  // --- who settles a finding -----------------------------------------------

  /** The entry whose waiver settles a finding; findings of the other rules have none. */
  function HolderId(f: Finding): Option<string> {
    match f.rule
    case DefaultSink => f.sink
    case GuardMissing => f.sink
    case DefaultInstall => if f.file.Some? then Some(InstallId(f.file.value)) else None
    case _ => None
  }

  /** What is recorded instead of a finding when the waiver of its own entry does not cover it. */
  function Complaint(original: Finding): Finding {
    Finding(WaiverRule, HolderId(original), None)
  }

  /** A raise goes through the entry its finding belongs to. */
  ghost predicate Held(e: Event) {
    e.Raise? ==> HolderId(e.finding) == if e.holder.Some? then Some(e.holder.value.id) else None
  }

  ghost predicate AllHeld(events: seq<Event>) {
    forall e :: e in events ==> Held(e)
  }

  lemma HeldLoop<A>(xs: seq<A>, f: A -> seq<Event>)
    requires forall i :: 0 <= i < |xs| ==> AllHeld(f(xs[i]))
    ensures AllHeld(Flat(xs, f))
  {
    hide Held;
    forall e | e in Flat(xs, f)
      ensures Held(e)
    {
      FlatMember(xs, f, e);
    }
  }

  lemma ReachHeld(g: Gate, files: seq<File>)
    ensures AllHeld(Flat(files, ReachEvents(g)))
  {
    hide FileAllowed, PatternHits, HostsOf, OwnerIndex, Flat;
    forall f: File
      ensures AllHeld(ReachEvents(g)(f))
    {
      HeldLoop(HostsIn(g.rx, f.text), HostEvents(g, f.path));
      HeldLoop(g.sinks, PatternEvents(f));
    }
    HeldLoop(files, ReachEvents(g));
  }

  lemma GuardHeld(files: seq<File>, s: Sink, gd: Guard)
    ensures AllHeld(GuardEvents(files, s)(gd))
  {
    hide Lookup, PatternLive;
    assert Held(Raise(Some(HolderOf(s)), Finding(GuardMissing, Some(s.id), Some(gd.file))));
  }

  lemma SiteHeld(site: Site, count: nat)
    requires count > 0
    ensures AllHeld(SiteEvents(site, count))
  {
    hide InstallId;
  }

  lemma InstallHeld(g: Gate, f: File)
    ensures AllHeld(InstallEvents(g)(f))
  {
    hide SiteIndex, InstallScan.HitsIn, SiteEvents;
    var i, count := SiteIndex(g.sites, f.path), |InstallScan.HitsIn(g.rx.install, f.text)|;
    if i < |g.sites| && count > 0 {
      SiteHeld(g.sites[i], count);
    }
  }

  lemma SinkHeld(g: Gate, files: seq<File>, s: Sink, before: seq<Event>)
    ensures AllHeld(SinkEvents(g, files, s, before))
  {
    hide GuardEvents, Names, HostSeen, Flat;
    forall i | 0 <= i < |s.optIn| {
      GuardHeld(files, s, s.optIn[i]);
    }
    HeldLoop(s.optIn, GuardEvents(files, s));
    HeldLoop(s.hosts, UnseenHostEvents(g, files, s));
  }

  lemma {:induction false} SinksHeld(g: Gate, files: seq<File>, n: nat, before: seq<Event>)
    requires n <= |g.sinks| && AllHeld(before)
    ensures AllHeld(AfterSinks(g, files, n, before))
  {
    hide SinkEvents, Held;
    if n > 0 {
      SinksHeld(g, files, n - 1, before);
      SinkHeld(g, files, g.sinks[n - 1], AfterSinks(g, files, n - 1, before));
    }
  }

  lemma RestHeld(g: Gate, files: seq<File>)
    ensures AllHeld(Flat(files, InstallEvents(g))) && AllHeld(Flat(files, OllamaEvents(g)))
    ensures AllHeld(Flat(g.reviewed, ReviewEvents(g, files)))
  {
    hide BadTagsReader, BadServe, Lookup, InstallEvents, Flat;
    forall i | 0 <= i < |files| {
      InstallHeld(g, files[i]);
    }
    HeldLoop(files, InstallEvents(g));
    HeldLoop(files, OllamaEvents(g));
    HeldLoop(g.reviewed, ReviewEvents(g, files));
  }

  /** Every finding of a run is settled by the waiver of its own entry and no other. */
  lemma RaisesHeld(g: Gate, files: seq<File>)
    ensures AllHeld(Raises(g, files))
  {
    hide Held, ReachEvents, InstallEvents, OllamaEvents, ReviewEvents, AfterSinks, Flat;
    ReachHeld(g, files);
    SinksHeld(g, files, |g.sinks|, Flat(files, ReachEvents(g)));
    RestHeld(g, files);
    assert AllHeld(GateEvents(g, files));
    forall e | e in Raises(g, files)
      ensures Held(e)
    {
      FlatMember(GateEvents(g, files), RaiseOf(), e);
    }
  }

  // --- conservation --------------------------------------------------------

  /** A failure recorded for an original finding: the finding itself, or a complaint about its own entry's waiver. */
  ghost predicate StandsFor(f: Finding, original: Finding) {
    f == original || (HolderId(original).Some? && f == Complaint(original))
  }

  /** `all` is an order-preserving merge of the findings behind `failing` and those in `waived`. */
  ghost predicate Merge(all: seq<Finding>, failing: seq<Finding>, waived: seq<Finding>) {
    if all == [] then failing == [] && waived == []
    else
      var n := |all| - 1;
      || (failing != [] && StandsFor(failing[|failing| - 1], all[n])
          && Merge(all[..n], failing[..|failing| - 1], waived))
      || (waived != [] && waived[|waived| - 1] == all[n]
          && Merge(all[..n], failing, waived[..|waived| - 1]))
  }

  lemma {:induction false} MergeCounts(all: seq<Finding>, failing: seq<Finding>, waived: seq<Finding>)
    requires Merge(all, failing, waived)
    ensures |all| == |failing| + |waived|
  {
    if all != [] {
      var n := |all| - 1;
      if && failing != [] && StandsFor(failing[|failing| - 1], all[n])
         && Merge(all[..n], failing[..|failing| - 1], waived) {
        MergeCounts(all[..n], failing[..|failing| - 1], waived);
      } else {
        MergeCounts(all[..n], failing, waived[..|waived| - 1]);
      }
    }
  }

  lemma {:induction false} RaisesMerge(g: Gate, strict: Gate, raises: seq<Event>)
    requires strict == g.(noWaivers := true)
    requires forall i :: 0 <= i < |raises| ==> raises[i].Raise?
    requires AllHeld(raises)
    ensures Merge(Flat(raises, FailureOf(strict)), Flat(raises, FailureOf(g)), Flat(raises, WaivedOf(g)))
    ensures Flat(raises, WaivedOf(strict)) == []
  {
    hide Covers, Recorded, FailureOf, WaivedOf, Held;
    if raises == [] {
      assert Flat(raises, FailureOf(strict)) == Flat(raises, FailureOf(g)) == [];
    } else {
      hide *;
      var n := |raises| - 1;
      RaisesMerge(g, strict, raises[..n]);
      RaiseMerge(g, strict, raises[..n], raises[n]);
      assert raises == raises[..n] + [raises[n]];
    }
  }

  lemma RaiseMerge(g: Gate, strict: Gate, prior: seq<Event>, e: Event)
    requires strict == g.(noWaivers := true) && e.Raise? && Held(e)
    requires Merge(Flat(prior, FailureOf(strict)), Flat(prior, FailureOf(g)), Flat(prior, WaivedOf(g)))
    requires Flat(prior, WaivedOf(strict)) == []
    ensures Merge(Flat(prior + [e], FailureOf(strict)), Flat(prior + [e], FailureOf(g)), Flat(prior + [e], WaivedOf(g)))
    ensures Flat(prior + [e], WaivedOf(strict)) == []
  {
    hide Flat, WellFormed, Less;
    FlatPush(prior, e, FailureOf(strict));
    FlatPush(prior, e, FailureOf(g));
    FlatPush(prior, e, WaivedOf(g));
    FlatPush(prior, e, WaivedOf(strict));
    var all, failing, waived := Flat(prior, FailureOf(strict)), Flat(prior, FailureOf(g)), Flat(prior, WaivedOf(g));
    assert Flat(prior + [e], FailureOf(strict)) == all + [e.finding];
    assert (all + [e.finding])[..|all|] == all;
    if Waived(g, e) {
      assert (waived + [e.finding])[..|waived|] == waived && failing + [] == failing;
      assert WaivedOf(g)(e) == [e.finding] && FailureOf(g)(e) == [];
    } else {
      var r := Recorded(g, e);
      assert StandsFor(r, e.finding) && FailureOf(g)(e) == [r] && WaivedOf(g)(e) == [];
      assert (failing + [r])[..|failing|] == failing && waived + [] == waived;
    }
  }

  /** Findings without waivers are, one for one and in order, the failing and the waived findings with them. */
  lemma WaiverConservation(g: Gate, files: seq<File>)
    ensures
      var strict := g.(noWaivers := true);
      && Merge(Failures(strict, files), Failures(g, files), WaivedFindings(g, files))
      && |Failures(strict, files)| == |Failures(g, files)| + |WaivedFindings(g, files)|
      && WaivedFindings(strict, files) == []
  {
    hide Flat, GateEvents, Merge, Held;
    var strict := g.(noWaivers := true);
    RaisesHeld(g, files);
    SameRaises(g, strict, files);
    OnlyRaisesSettle(g, GateEvents(g, files));
    OnlyRaisesSettle(strict, GateEvents(strict, files));
    RaisesMerge(g, strict, Raises(g, files));
    MergeCounts(Failures(strict, files), Failures(g, files), WaivedFindings(g, files));
  }

  // --- the date ------------------------------------------------------------

  lemma {:induction false} RaisesAge(g: Gate, later: Gate, raises: seq<Event>)
    requires later == g.(today := later.today) && !Less(later.today, g.today)
    ensures Subsequence(Flat(raises, FailureOf(g)), Flat(raises, FailureOf(later)))
    ensures Subsequence(Flat(raises, WaivedOf(later)), Flat(raises, WaivedOf(g)))
  {
    if raises != [] {
      var n := |raises| - 1;
      RaisesAge(g, later, raises[..n]);
      hide Less, WellFormed;
      EventAges(g, later, raises[n]);
      Extend(Flat(raises[..n], FailureOf(g)), FailureOf(g)(raises[n]),
             Flat(raises[..n], FailureOf(later)), FailureOf(later)(raises[n]));
      Extend(Flat(raises[..n], WaivedOf(later)), WaivedOf(later)(raises[n]),
             Flat(raises[..n], WaivedOf(g)), WaivedOf(g)(raises[n]));
    }
  }

  lemma EventAges(g: Gate, later: Gate, e: Event)
    requires later == g.(today := later.today) && !Less(later.today, g.today)
    ensures FailureOf(g)(e) == FailureOf(later)(e) || FailureOf(g)(e) == []
    ensures WaivedOf(g)(e) == WaivedOf(later)(e) || WaivedOf(later)(e) == []
  {
    hide WellFormed;
    if e.Raise? && e.holder.Some? && e.holder.value.waiver.Some? {
      var expires := e.holder.value.waiver.value.expires;
      if Less(expires, g.today) {
        LessMonotone(expires, g.today, later.today);
      }
    }
  }

  lemma SubsequencePush<T>(a: seq<T>, b: seq<T>, v: T)
    requires Subsequence(a, b)
    ensures Subsequence(a, b + [v]) && Subsequence(a + [v], b + [v])
  {
    assert (b + [v])[..|b|] == b && (a + [v])[..|a|] == a;
  }

  lemma Extend<T>(a: seq<T>, x: seq<T>, b: seq<T>, y: seq<T>)
    requires Subsequence(a, b) && (x == y || x == []) && |y| <= 1
    ensures Subsequence(a + x, b + y)
  {
    hide Subsequence;
    assert a + [] == a && b + [] == b;
    if y != [] {
      assert y == [y[0]];
      SubsequencePush(a, b, y[0]);
    }
  }

  /** What becomes of one finding between two days: it fails on both, is known on both, or its waiver has run out. */
  datatype Fate = Failing(recorded: Finding) | Known(found: Finding) | Expired(original: Finding, expires: string)

  function FateOf(g: Gate, later: Gate): Event -> seq<Fate> {
    (e: Event) =>
      if !e.Raise? then []
      else if Waived(later, e) then [Known(e.finding)]
      else if Waived(g, e) then [Expired(e.finding, e.holder.value.waiver.value.expires)]
      else [Failing(Recorded(g, e))]
  }

  function FailsNow(): Fate -> seq<Finding> {
    (t: Fate) => if t.Failing? then [t.recorded] else []
  }

  function FailsLater(): Fate -> seq<Finding> {
    (t: Fate) => if t.Failing? then [t.recorded] else if t.Expired? then [Complaint(t.original)] else []
  }

  function KnownNow(): Fate -> seq<Finding> {
    (t: Fate) => if t.Known? then [t.found] else if t.Expired? then [t.original] else []
  }

  function KnownLater(): Fate -> seq<Finding> {
    (t: Fate) => if t.Known? then [t.found] else []
  }

  /** The finding had an entry of its own, whose waiver still held on the one day and no longer on the other. */
  ghost predicate RanOut(g: Gate, later: Gate, t: Fate) {
    t.Expired? ==>
      HolderId(t.original).Some? && IsFullDate(t.expires) && !Less(t.expires, g.today) && Less(t.expires, later.today)
  }

  lemma EventFate(g: Gate, later: Gate, e: Event)
    requires later == g.(today := later.today) && !Less(later.today, g.today) && Held(e)
    ensures
      var fate := FateOf(g, later)(e);
      && |fate| <= 1 && (forall t :: t in fate ==> RanOut(g, later, t))
      && FailureOf(g)(e) == (if fate == [] then [] else FailsNow()(fate[0]))
      && FailureOf(later)(e) == (if fate == [] then [] else FailsLater()(fate[0]))
      && WaivedOf(g)(e) == (if fate == [] then [] else KnownNow()(fate[0]))
      && WaivedOf(later)(e) == (if fate == [] then [] else KnownLater()(fate[0]))
  {
    hide HasIssueRef, IsFullDate, HolderId;
    if e.Raise? && e.holder.Some? && e.holder.value.waiver.Some? {
      var expires := e.holder.value.waiver.value.expires;
      if Less(expires, g.today) {
        LessMonotone(expires, g.today, later.today);
      }
    }
  }

  lemma FlatAtMostOne<A, B>(xs: seq<A>, f: A -> seq<B>)
    requires |xs| <= 1
    ensures Flat(xs, f) == if xs == [] then [] else f(xs[0])
  {
    assert Flat(xs[..0], f) == [];
  }

  lemma {:induction false} RaisesFates(g: Gate, later: Gate, raises: seq<Event>)
    requires later == g.(today := later.today) && !Less(later.today, g.today) && AllHeld(raises)
    ensures
      var fates := Flat(raises, FateOf(g, later));
      && (forall t :: t in fates ==> RanOut(g, later, t))
      && Flat(raises, FailureOf(g)) == Flat(fates, FailsNow())
      && Flat(raises, FailureOf(later)) == Flat(fates, FailsLater())
      && Flat(raises, WaivedOf(g)) == Flat(fates, KnownNow())
      && Flat(raises, WaivedOf(later)) == Flat(fates, KnownLater())
  {
    if raises != [] {
      hide Held, RanOut, FateOf, FailsNow, FailsLater, KnownNow, KnownLater, FailureOf, WaivedOf, Less;
      var init, e := raises[..|raises| - 1], raises[|raises| - 1];
      var before, fate := Flat(init, FateOf(g, later)), FateOf(g, later)(e);
      RaisesFates(g, later, init);
      EventFate(g, later, e);
      FlatAppend(before, fate, FailsNow());
      FlatAppend(before, fate, FailsLater());
      FlatAppend(before, fate, KnownNow());
      FlatAppend(before, fate, KnownLater());
      FlatAtMostOne(fate, FailsNow());
      FlatAtMostOne(fate, FailsLater());
      FlatAtMostOne(fate, KnownNow());
      FlatAtMostOne(fate, KnownLater());
      hide Flat;
    }
  }

  /**
   * As days pass, a finding only moves from waived to failing, and each that does so leaves the one list as
   * itself and joins the other, in its place, as the complaint about its own entry's waiver. Read in order,
   * the fates of the findings spell out all four lists.
   */
  lemma DateOnlyExpires(g: Gate, later: Gate, files: seq<File>)
    requires later == g.(today := later.today) && !Less(later.today, g.today)
    ensures
      var fates := Flat(Raises(g, files), FateOf(g, later));
      && (forall t :: t in fates ==> RanOut(g, later, t))
      && Failures(g, files) == Flat(fates, FailsNow())
      && Failures(later, files) == Flat(fates, FailsLater())
      && WaivedFindings(g, files) == Flat(fates, KnownNow())
      && WaivedFindings(later, files) == Flat(fates, KnownLater())
  {
    hide Flat, GateEvents, Held, RanOut, FateOf;
    SameRaises(g, later, files);
    OnlyRaisesSettle(g, GateEvents(g, files));
    OnlyRaisesSettle(later, GateEvents(later, files));
    RaisesHeld(g, files);
    RaisesFates(g, later, Raises(g, files));
  }

  /** So earlier failures stay, the waived list only shrinks, both keep their order, and the total is unchanged. */
  lemma LaterDayCounts(g: Gate, later: Gate, files: seq<File>)
    requires later == g.(today := later.today) && !Less(later.today, g.today)
    ensures Subsequence(Failures(g, files), Failures(later, files))
    ensures Subsequence(WaivedFindings(later, files), WaivedFindings(g, files))
    ensures |Failures(g, files)| + |WaivedFindings(g, files)|
            == |Failures(later, files)| + |WaivedFindings(later, files)|
  {
    hide Flat, GateEvents, Subsequence;
    SameRaises(g, later, files);
    OnlyRaisesSettle(g, GateEvents(g, files));
    OnlyRaisesSettle(later, GateEvents(later, files));
    RaisesAge(g, later, Raises(g, files));
    WaiverConservation(g, files);
    WaiverConservation(later, files);
    SameRaises(g.(noWaivers := true), later.(noWaivers := true), files);
    OnlyRaisesSettle(g.(noWaivers := true), GateEvents(g.(noWaivers := true), files));
    OnlyRaisesSettle(later.(noWaivers := true), GateEvents(later.(noWaivers := true), files));
    StrictIgnoresDate(g.(noWaivers := true), later.(noWaivers := true), Raises(g.(noWaivers := true), files));
  }

  lemma {:induction false} StrictIgnoresDate(g: Gate, later: Gate, raises: seq<Event>)
    requires later == g.(today := later.today) && g.noWaivers
    ensures Flat(raises, FailureOf(g)) == Flat(raises, FailureOf(later))
  {
    FlatSame(raises, FailureOf(g), FailureOf(later));
  }

  /** A waiver covers through its expiry day by the calendar. */
  lemma CoversByCalendar(g: Gate, h: Holder)
    requires h.waiver.Some? && IsFullDate(g.today)
    ensures Covers(g, h) <==>
            var w := h.waiver.value;
            !g.noWaivers && HasIssueRef(w.ref) && IsFullDate(w.expires) && !Earlier(w.expires, g.today)
  {
    hide Less, IsFullDate, Earlier;
    if IsFullDate(h.waiver.value.expires) {
      StringOrderIsCalendarOrder(h.waiver.value.expires, g.today);
    }
  }
}
