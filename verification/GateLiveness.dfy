/**
 * The gate's guard rule read by what reaches the sink (scripts/local-first-gate.ts).
 *
 * The code's own comment (line 223) says a missing guard file is "not a pass for a live sink", and its
 * warning (line 242) drops a guard when "nothing reaches the sink any more". Here they are taken at their
 * word for the guard rule alone; the other rules stay as they are coded.
 */
module GateLiveness {
  import opened Seqs
  import opened Text
  import opened GateSpec
  import opened GateMeaning
  import opened GateWording
  import InstallScan

  ghost predicate HostReached(g: Gate, files: seq<File>, s: Sink) {
    exists i :: 0 <= i < |s.hosts| && HostSeen(g, files, s.hosts[i])
  }

  /** Something in the source reaches the sink: a file matches one of its patterns or spells one of its hosts. */
  ghost predicate Live(g: Gate, files: seq<File>, s: Sink) {
    PatternLive(s, files) || HostReached(g, files, s)
  }

  /** The guard rule with that test: a guard of a live sink that is not there, with its file or without. */
  ghost predicate LiveAndBroken(g: Gate, files: seq<File>, s: Sink, gd: Guard) {
    Live(g, files, s) && !GuardHolds(files, gd)
  }

  /** Reached through a host only, and the code does not look at hosts: it looks for patterns, or finds no file. */
  ghost predicate LetThrough(g: Gate, files: seq<File>, s: Sink, gd: Guard) {
    && HostReached(g, files, s) && !PatternLive(s, files) && !GuardHolds(files, gd)
    && (s.patterns.Some? || Lookup(files, gd.file).None?)
  }

  /** An entry without patterns counts as live although no file spells a host of it. */
  ghost predicate HeldBack(g: Gate, files: seq<File>, s: Sink, gd: Guard) {
    && !HostReached(g, files, s) && s.patterns.None?
    && Lookup(files, gd.file).Some? && !gd.mustMatch(Lookup(files, gd.file).value)
  }

  /** Broken in code and under the liveness reading. */
  ghost predicate BrokenEitherWay(g: Gate, files: seq<File>, s: Sink, gd: Guard) {
    && !GuardHolds(files, gd)
    && (PatternLive(s, files) || (HostReached(g, files, s) && s.patterns.None? && Lookup(files, gd.file).Some?))
  }

  type GuardTest = (Sink, Guard) -> bool

  /** Some sink has a guard of this kind, and no waiver covers the sink. */
  ghost predicate SomeUncovered(g: Gate, kind: GuardTest) {
    exists k, i :: 0 <= k < |g.sinks| && 0 <= i < |g.sinks[k].optIn|
      && kind(g.sinks[k], g.sinks[k].optIn[i]) && !Covers(g, HolderOf(g.sinks[k]))
  }

  ghost function Coded(files: seq<File>): GuardTest {
    (s: Sink, gd: Guard) => GuardBroken(files, s, gd)
  }

  ghost function AskingLive(g: Gate, files: seq<File>): GuardTest {
    (s: Sink, gd: Guard) => LiveAndBroken(g, files, s, gd)
  }

  ghost function Through(g: Gate, files: seq<File>): GuardTest {
    (s: Sink, gd: Guard) => LetThrough(g, files, s, gd)
  }

  ghost function Back(g: Gate, files: seq<File>): GuardTest {
    (s: Sink, gd: Guard) => HeldBack(g, files, s, gd)
  }

  ghost function Either(g: Gate, files: seq<File>): GuardTest {
    (s: Sink, gd: Guard) => BrokenEitherWay(g, files, s, gd)
  }

  /** Every rule of the coded policy but the guard rule. */
  ghost predicate OtherRulesOk(g: Gate, files: seq<File>) {
    && (forall i :: 0 <= i < |files| ==> ReachOk(g, files[i]))
    && (forall k :: 0 <= k < |g.sinks| && g.sinks[k].mode == Default ==> Covers(g, HolderOf(g.sinks[k])))
    && (forall i :: 0 <= i < |files| ==> InstallOk(g, files[i]))
    && (forall i :: 0 <= i < |files| ==> TagsOk(g, files[i]) && ServeOk(g, files[i]))
  }

  /** The coded policy, its guard rule read by what reaches the sink. */
  ghost predicate LivePolicy(g: Gate, files: seq<File>) {
    OtherRulesOk(g, files) && !SomeUncovered(g, AskingLive(g, files))
  }

  lemma PolicyParts(g: Gate, files: seq<File>)
    ensures Policy(g, files) <==> OtherRulesOk(g, files) && !SomeUncovered(g, Coded(files))
  {
    hide Covers, GuardBroken, ReachOk, InstallOk, TagsOk, ServeOk;
    if SomeUncovered(g, Coded(files)) {
      var k, i :| 0 <= k < |g.sinks| && 0 <= i < |g.sinks[k].optIn|
        && Coded(files)(g.sinks[k], g.sinks[k].optIn[i]) && !Covers(g, HolderOf(g.sinks[k]));
      assert !SinkOk(g, files, g.sinks[k]);
    } else {
      forall k | 0 <= k < |g.sinks|
        ensures SinkOk(g, files, g.sinks[k])
                <==> (g.sinks[k].mode == Default ==> Covers(g, HolderOf(g.sinks[k])))
      {
        forall i | 0 <= i < |g.sinks[k].optIn| && GuardBroken(files, g.sinks[k], g.sinks[k].optIn[i])
          ensures Covers(g, HolderOf(g.sinks[k]))
        {
          assert Coded(files)(g.sinks[k], g.sinks[k].optIn[i]);
        }
      }
    }
  }

  /** One guard: code and liveness part in exactly these two ways, and the first lets a broken guard pass. */
  lemma GuardRuleGap(g: Gate, files: seq<File>, s: Sink, gd: Guard)
    ensures LiveAndBroken(g, files, s, gd) && !GuardBroken(files, s, gd) <==> LetThrough(g, files, s, gd)
    ensures GuardBroken(files, s, gd) && !LiveAndBroken(g, files, s, gd) <==> HeldBack(g, files, s, gd)
    ensures GuardBroken(files, s, gd) && LiveAndBroken(g, files, s, gd) <==> BrokenEitherWay(g, files, s, gd)
  {
    hide HostReached, Lookup;
    if s.patterns.None? {
      assert !PatternLive(s, files);
    }
  }

  /** Uncovered guards of a kind that is two kinds put together. */
  lemma UncoveredSplit(g: Gate, both: GuardTest, a: GuardTest, b: GuardTest)
    requires forall s, gd :: both(s, gd) <==> a(s, gd) || b(s, gd)
    ensures SomeUncovered(g, both) <==> SomeUncovered(g, a) || SomeUncovered(g, b)
  {
    hide Covers;
    if SomeUncovered(g, both) {
      var k, i :| 0 <= k < |g.sinks| && 0 <= i < |g.sinks[k].optIn|
        && both(g.sinks[k], g.sinks[k].optIn[i]) && !Covers(g, HolderOf(g.sinks[k]));
      assert a(g.sinks[k], g.sinks[k].optIn[i]) || b(g.sinks[k], g.sinks[k].optIn[i]);
    }
    if SomeUncovered(g, a) {
      var k, i :| 0 <= k < |g.sinks| && 0 <= i < |g.sinks[k].optIn|
        && a(g.sinks[k], g.sinks[k].optIn[i]) && !Covers(g, HolderOf(g.sinks[k]));
      assert both(g.sinks[k], g.sinks[k].optIn[i]);
    }
    if SomeUncovered(g, b) {
      var k, i :| 0 <= k < |g.sinks| && 0 <= i < |g.sinks[k].optIn|
        && b(g.sinks[k], g.sinks[k].optIn[i]) && !Covers(g, HolderOf(g.sinks[k]));
      assert both(g.sinks[k], g.sinks[k].optIn[i]);
    }
  }

  /**
   * When the gate's guard rule is the liveness rule. A gate that passes meets it exactly when no uncovered
   * guard is let through; where it holds, the gate passes exactly when none is held back. Verdict and policy
   * agree exactly when another rule fails both, or a guard is broken either way, or guards are let through
   * and held back at once, or neither happens.
   */
  lemma GateMeetsLiveness(g: Gate, files: seq<File>)
    ensures Failures(g, files) == [] ==>
      (LivePolicy(g, files) <==> !SomeUncovered(g, Through(g, files)))
    ensures LivePolicy(g, files) ==>
      (Failures(g, files) == [] <==> !SomeUncovered(g, Back(g, files)))
    ensures (Failures(g, files) == [] <==> LivePolicy(g, files))
      <==> || !OtherRulesOk(g, files) || SomeUncovered(g, Either(g, files))
           || (SomeUncovered(g, Through(g, files)) <==> SomeUncovered(g, Back(g, files)))
  {
    hide Failures, Policy, OtherRulesOk, SomeUncovered, GuardBroken, LiveAndBroken,
         LetThrough, HeldBack, BrokenEitherWay;
    GateMeansPolicy(g, files);
    PolicyParts(g, files);
    forall s, gd
      ensures LiveAndBroken(g, files, s, gd) <==> LetThrough(g, files, s, gd) || BrokenEitherWay(g, files, s, gd)
      ensures GuardBroken(files, s, gd) <==> HeldBack(g, files, s, gd) || BrokenEitherWay(g, files, s, gd)
    {
      GuardRuleGap(g, files, s, gd);
    }
    UncoveredSplit(g, AskingLive(g, files), Through(g, files), Either(g, files));
    UncoveredSplit(g, Coded(files), Back(g, files), Either(g, files));
  }

  /** The header, which asks nothing about liveness, is stricter than both. */
  lemma HeaderIsStricter(g: Gate, files: seq<File>)
    ensures HeaderPolicy(g, files) ==> Failures(g, files) == [] && LivePolicy(g, files)
  {
    hide Failures, Policy, OtherRulesOk, Gap, Covers, Live, GuardHolds;
    GateMeetsHeader(g, files);
    GateMeansPolicy(g, files);
    PolicyParts(g, files);
  }

  // --- inputs on which they part -------------------------------------------

  /** A plain gate of one entry and no install sites or patterns. */
  function OneSinkGate(s: Sink, tokens: string -> seq<string>): Gate {
    PlainGate([s], [], tokens, [])
  }

  /** Such a gate passes exactly when its entry's guards do, if every host it finds is the entry's own. */
  lemma OneSinkPasses(s: Sink, tokens: string -> seq<string>, files: seq<File>)
    requires s.mode == OptIn && s.files.None?
    requires forall i, t :: 0 <= i < |files| && t in tokens(files[i].text) ==> Claims(s, HostName(t))
    ensures OtherRulesOk(OneSinkGate(s, tokens), files)
  {
    hide HostName, Claims, PatternHits, InstallScan.HitsIn;
    var g := OneSinkGate(s, tokens);
    forall i | 0 <= i < |files|
      ensures ReachOk(g, files[i])
    {
      forall t | t in tokens(files[i].text)
        ensures HostOk(g, files[i].path, HostName(t))
      {
        assert g.sinks[0] == s;
      }
    }
    forall i | 0 <= i < |files| {
      NoInstalls(g, files[i]);
    }
  }

  lemma OneGuardUncovered(s: Sink, tokens: string -> seq<string>, kind: GuardTest)
    requires |s.optIn| == 1
    ensures SomeUncovered(OneSinkGate(s, tokens), kind) <==> kind(s, s.optIn[0])
  {
    var g := OneSinkGate(s, tokens);
    assert g.sinks[0] == s && g.noWaivers;
  }

  /** An entry with one host, a guard whose text is never found, and the given patterns. */
  function Vendor(patterns: Option<seq<Test>>): Sink {
    Sink("v", OptIn, [HOST], patterns, None, [Guard("guard.ts", (t: string) => false)], None)
  }

  /** The entry's host is reached exactly when the texts spell it. */
  lemma VendorReached(s: Sink, f: File)
    requires s.hosts == [HOST]
    ensures HostReached(OneSinkGate(s, Spells()), [f], s)
    ensures !HostReached(OneSinkGate(s, SpellsNothing()), [f], s)
  {
    hide HostName, HostMatches;
    PlainHost(s);
    var g := OneSinkGate(s, Spells());
    HostsOfMember(g.rx, g.rx.hostTokens(f.text), HOST);
    assert HOST in [HOST] && HOST in HostsIn(g.rx, f.text);
    assert [f][0] == f;
    assert Spelled(g, [f], HOST) && HostSeen(g, [f], s.hosts[0]);
  }

  lemma FindOnly(f: File, path: string)
    ensures Lookup([f], path) == if f.path == path then Some(f.text) else None
  {
    assert [f][1..] == [];
  }

  /** How the two rules judge the vendor's guard. */
  lemma VendorGuard(g: Gate, s: Sink, f: File)
    requires s == Vendor(None) || s == Vendor(Some([(t: string) => false]))
    ensures LiveAndBroken(g, [f], s, s.optIn[0]) <==> HostReached(g, [f], s)
    ensures GuardBroken([f], s, s.optIn[0]) <==> f.path == "guard.ts" && s.patterns.None?
  {
    FindOnly(f, "guard.ts");
    assert !PatternLive(s, [f]);
    assert s.optIn == [Guard("guard.ts", s.optIn[0].mustMatch)] && !s.optIn[0].mustMatch(f.text);
    hide Lookup, HostReached, PatternLive;
  }

  /** A host-only entry whose guard file is gone passes, although its host is spelled and nothing waives it. */
  lemma GuardRuleGapExample(f: File)
    requires f.path != "guard.ts"
    ensures
      var g := OneSinkGate(Vendor(None), Spells());
      Failures(g, [f]) == [] && !LivePolicy(g, [f]) && !HeaderPolicy(g, [f])
  {
    hide *;
    VendorByReach(Vendor(None), Spells(), f);
    HeaderIsStricter(OneSinkGate(Vendor(None), Spells()), [f]);
  }

  /** So does an entry whose patterns are not found, its guard's file there and the guard's text gone from it. */
  lemma GuardTextGapExample(f: File)
    requires f.path == "guard.ts"
    ensures
      var g := OneSinkGate(Vendor(Some([(t: string) => false])), Spells());
      Failures(g, [f]) == [] && !LivePolicy(g, [f]) && !HeaderPolicy(g, [f])
  {
    hide *;
    var s := Vendor(Some([(t: string) => false]));
    VendorByReach(s, Spells(), f);
    PatternsOf(Some([(t: string) => false]));
    HeaderIsStricter(OneSinkGate(s, Spells()), [f]);
  }

  /** And a host-only entry fails on its guard's text, as the header has it, although no file spells its host. */
  lemma HeldBackExample(f: File)
    requires f.path == "guard.ts"
    ensures
      var g := OneSinkGate(Vendor(None), SpellsNothing());
      Failures(g, [f]) != [] && LivePolicy(g, [f]) && !HeaderPolicy(g, [f])
  {
    hide *;
    HeaderIsStricter(OneSinkGate(Vendor(None), SpellsNothing()), [f]);
    VendorByReach(Vendor(None), SpellsNothing(), f);
    PatternsOf(None);
  }

  lemma PatternsOf(patterns: Option<seq<Test>>)
    ensures Vendor(patterns).patterns == patterns
  {
  }

  lemma VendorByReach(s: Sink, tokens: string -> seq<string>, f: File)
    requires s == Vendor(None) || s == Vendor(Some([(t: string) => false]))
    requires tokens == Spells() || tokens == SpellsNothing()
    ensures
      var g := OneSinkGate(s, tokens);
      && (LivePolicy(g, [f]) <==> tokens != Spells())
      && (Failures(g, [f]) == [] <==> !(f.path == "guard.ts" && s.patterns.None?))
    ensures Spells() != SpellsNothing()
  {
    assert s.hosts == [HOST] && |s.optIn| == 1 && s.mode == OptIn && s.files.None?;
    assert Spells()("") == [HOST] && SpellsNothing()("") == [];
    hide Failures, LivePolicy, HostName, Claims, HostReached, GuardBroken, LiveAndBroken;
    PlainHost(s);
    VendorReached(s, f);
    VendorGuard(OneSinkGate(s, tokens), s, f);
    GapBySink(s, tokens, [f]);
  }

  lemma GapBySink(s: Sink, tokens: string -> seq<string>, files: seq<File>)
    requires s.mode == OptIn && s.files.None? && |s.optIn| == 1
    requires forall i, t :: 0 <= i < |files| && t in tokens(files[i].text) ==> Claims(s, HostName(t))
    ensures
      var g := OneSinkGate(s, tokens);
      && (LivePolicy(g, files) <==> !LiveAndBroken(g, files, s, s.optIn[0]))
      && (Failures(g, files) == [] <==> !GuardBroken(files, s, s.optIn[0]))
  {
    hide HostName, Claims, Failures, Policy, OtherRulesOk, GuardBroken, LiveAndBroken, SomeUncovered;
    var g := OneSinkGate(s, tokens);
    OneSinkPasses(s, tokens, files);
    GateMeansPolicy(g, files);
    PolicyParts(g, files);
    OneGuardUncovered(s, tokens, AskingLive(g, files));
    OneGuardUncovered(s, tokens, Coded(files));
  }
}
