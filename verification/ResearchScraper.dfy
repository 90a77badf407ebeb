/** Queue deduplication of the research scraper (scripts/research-scraper.ts). */
module ResearchScraper {
  datatype Spec = Spec(name: string, description: string)

  /** Lower-casing and splitting into words are functions about which nothing is assumed. */
  datatype Lexis = Lexis(lower: string -> string, words: string -> seq<string>)

  // --- similarity ----------------------------------------------------------

  function LongWords(words: seq<string>): set<string> {
    set w | w in words && |w| > 3
  }

  function Matches(words: seq<string>, known: set<string>): nat {
    if words == [] then 0
    else
      var w := words[|words| - 1];
      Matches(words[..|words| - 1], known) + if |w| > 3 && w in known then 1 else 0
  }

  /** wordOverlap(a, b) > 0.6, without the division. */
  predicate Overlaps(lx: Lexis, a: string, b: string) {
    var known := LongWords(lx.words(a));
    5 * Matches(lx.words(b), known) > 3 * (if |known| > 1 then |known| else 1)
  }

  predicate TooSimilar(lx: Lexis, desc: string, existing: seq<string>) {
    exists i :: 0 <= i < |existing| && Overlaps(lx, lx.lower(desc), existing[i])
  }

  method IsTooSimilar(lx: Lexis, desc: string, existing: seq<string>) returns (similar: bool)
    ensures similar == TooSimilar(lx, desc, existing)
  {
    var lower := lx.lower(desc);
    for i := 0 to |existing|
      invariant forall k :: 0 <= k < i ==> !Overlaps(lx, lower, existing[k])
    {
      var close := WordOverlapAbove(lx, lower, existing[i]);
      if close {
        return true;
      }
    }
    return false;
  }

  method WordOverlapAbove(lx: Lexis, a: string, b: string) returns (above: bool)
    ensures above == Overlaps(lx, a, b)
  {
    var known := LongWords(lx.words(a));
    var words := lx.words(b);
    var matches := 0;
    for i := 0 to |words|
      invariant matches == Matches(words[..i], known)
    {
      assert words[..i + 1][..i] == words[..i];
      if |words[i]| > 3 && words[i] in known {
        matches := matches + 1;
      }
    }
    assert words[..|words|] == words;
    var maxLen := if |known| > 1 then |known| else 1;
    above := 5 * matches > 3 * maxLen;
  }

  // --- the filter ----------------------------------------------------------

  /** The names and descriptions the run starts from: the queue's, and the tool files' names. */
  datatype Known = Known(names: set<string>, descs: seq<string>)

  datatype State = State(added: seq<Spec>, skipped: seq<string>, session: set<string>, descs: seq<string>)

  function Truncate(s: Spec): Spec {
    if |s.description| > 200 then s.(description := s.description[..200]) else s
  }

  predicate Skips(lx: Lexis, names: set<string>, st: State, c: Spec) {
    lx.lower(c.name) in names || lx.lower(c.name) in st.session || TooSimilar(lx, c.description, st.descs)
  }

  function SkipLabel(lx: Lexis, names: set<string>, st: State, c: Spec): string {
    if lx.lower(c.name) in names || lx.lower(c.name) in st.session then c.name else c.name + " (similar desc)"
  }

  function Step(lx: Lexis, names: set<string>, st: State, c: Spec): State {
    if Skips(lx, names, st, c) then st.(skipped := st.skipped + [SkipLabel(lx, names, st, c)])
    else
      var kept := Truncate(c);
      State(st.added + [kept], st.skipped, st.session + {lx.lower(c.name)}, st.descs + [lx.lower(kept.description)])
  }

  function Filtered(lx: Lexis, k: Known, candidates: seq<Spec>): State {
    if candidates == [] then State([], [], {}, k.descs)
    else Step(lx, k.names, Filtered(lx, k, candidates[..|candidates| - 1]), candidates[|candidates| - 1])
  }

  class Run {
    const lx: Lexis
    const known: Known
    var newSpecs: seq<Spec>
    var skippedNames: seq<string>
    var sessionNames: set<string>
    var existingDescs: seq<string>
    ghost var seen: seq<Spec>

    ghost function Abstract(): State reads this {
      State(newSpecs, skippedNames, sessionNames, existingDescs)
    }

    ghost predicate Valid() reads this {
      Abstract() == Filtered(lx, known, seen)
    }

    constructor (lx: Lexis, known: Known)
      ensures Valid() && seen == [] && this.lx == lx && this.known == known
    {
      this.lx, this.known := lx, known;
      newSpecs, skippedNames, sessionNames, existingDescs, seen := [], [], {}, known.descs, [];
    }

    method FilterAndAdd(spec: Spec)
      requires Valid()
      modifies this
      ensures Valid() && seen == old(seen) + [spec]
    {
      hide TooSimilar;
      seen := seen + [spec];
      assert seen[..|seen| - 1] == old(seen);
      var nameKey := lx.lower(spec.name);
      if nameKey in known.names || nameKey in sessionNames {
        skippedNames := skippedNames + [spec.name];
        return;
      }
      var similar := IsTooSimilar(lx, spec.description, existingDescs);
      if similar {
        skippedNames := skippedNames + [spec.name + " (similar desc)"];
        return;
      }
      var kept := if |spec.description| > 200 then spec.(description := spec.description[..200]) else spec;
      newSpecs := newSpecs + [kept];
      sessionNames := sessionNames + {nameKey};
      existingDescs := existingDescs + [lx.lower(kept.description)];
    }
  }

  // --- what the filter guarantees ------------------------------------------

  function LowerNames(lx: Lexis, specs: seq<Spec>): seq<string> {
    seq(|specs|, i requires 0 <= i < |specs| => lx.lower(specs[i].name))
  }

  function LowerDescs(lx: Lexis, specs: seq<Spec>): seq<string> {
    seq(|specs|, i requires 0 <= i < |specs| => lx.lower(specs[i].description))
  }

  /**
   * Additions have pairwise distinct lower-cased names, none of them known before; every candidate is
   * added or skipped; and the descriptions compared against are the known ones and the additions'.
   */
  lemma {:induction false} FilterInvariant(lx: Lexis, k: Known, candidates: seq<Spec>)
    ensures
      var st := Filtered(lx, k, candidates);
      var names := LowerNames(lx, st.added);
      && (forall i, j :: 0 <= i < j < |names| ==> names[i] != names[j])
      && (forall i :: 0 <= i < |names| ==> names[i] !in k.names)
      && (forall n :: n in st.session <==> n in names)
      && |st.added| + |st.skipped| == |candidates|
      && st.descs == k.descs + LowerDescs(lx, st.added)
  {
    if candidates != [] {
      hide TooSimilar;
      var before := Filtered(lx, k, candidates[..|candidates| - 1]);
      FilterInvariant(lx, k, candidates[..|candidates| - 1]);
      var c := candidates[|candidates| - 1];
      if !Skips(lx, k.names, before, c) {
        var st := Filtered(lx, k, candidates);
        assert LowerNames(lx, st.added) == LowerNames(lx, before.added) + [lx.lower(c.name)];
        assert LowerDescs(lx, st.added) == LowerDescs(lx, before.added) + [lx.lower(Truncate(c).description)];
      }
    }
  }

  /** What a run loads: lower-cased queue names with the tool names, and lower-cased queue descriptions. */
  function Load(lx: Lexis, queue: seq<Spec>, tools: set<string>): Known {
    Known((set n | n in LowerNames(lx, queue)) + tools, LowerDescs(lx, queue))
  }

  /** The queue's names and the tools' are known, and the queue's descriptions in order. */
  lemma LoadMeaning(lx: Lexis, queue: seq<Spec>, tools: set<string>)
    ensures
      var k := Load(lx, queue, tools);
      && (forall n :: n in k.names <==> n in tools || exists s :: s in queue && lx.lower(s.name) == n)
      && |k.descs| == |queue| && forall i :: 0 <= i < |queue| ==> k.descs[i] == lx.lower(queue[i].description)
  {
    forall n
      ensures n in LowerNames(lx, queue) <==> exists s :: s in queue && lx.lower(s.name) == n
    {
      if s :| s in queue && lx.lower(s.name) == n {
        var i :| 0 <= i < |queue| && queue[i] == s;
        assert LowerNames(lx, queue)[i] == n;
      }
    }
  }

  lemma {:induction false} EarlierIsKnown(lx: Lexis, k: Known, candidates: seq<Spec>, n: nat)
    requires n <= |candidates|
    ensures Filtered(lx, k, candidates[..n]).session <= Filtered(lx, k, candidates).session
    ensures Filtered(lx, k, candidates[..n]).descs <= Filtered(lx, k, candidates).descs
    decreases |candidates| - n
  {
    if n == |candidates| {
      assert candidates[..n] == candidates;
    } else {
      hide Skips;
      EarlierIsKnown(lx, k, candidates, n + 1);
      assert candidates[..n + 1][..n] == candidates[..n];
    }
  }

  /** Each candidate of a run would be skipped against everything the run ended up knowing. */
  lemma SkippedAfterwards(lx: Lexis, k: Known, candidates: seq<Spec>, i: nat)
    requires i < |candidates|
    ensures
      var end := Filtered(lx, k, candidates);
      lx.lower(candidates[i].name) in k.names + end.session || TooSimilar(lx, candidates[i].description, end.descs)
  {
    hide Overlaps;
    EarlierIsKnown(lx, k, candidates, i);
    EarlierIsKnown(lx, k, candidates, i + 1);
    assert candidates[..i + 1][..i] == candidates[..i];
  }

  lemma {:induction false} NothingNew(lx: Lexis, k: Known, candidates: seq<Spec>)
    requires forall i :: 0 <= i < |candidates| ==>
      lx.lower(candidates[i].name) in k.names || TooSimilar(lx, candidates[i].description, k.descs)
    ensures Filtered(lx, k, candidates).added == [] && Filtered(lx, k, candidates).descs == k.descs
  {
    if candidates != [] {
      hide TooSimilar;
      NothingNew(lx, k, candidates[..|candidates| - 1]);
    }
  }

  /** Once the additions are in the queue, a new run over the same candidates adds nothing. */
  lemma RerunAddsNothing(lx: Lexis, queue: seq<Spec>, tools: set<string>, candidates: seq<Spec>)
    ensures
      var first := Filtered(lx, Load(lx, queue, tools), candidates);
      Filtered(lx, Load(lx, queue + first.added, tools), candidates).added == []
  {
    hide TooSimilar, Filtered;
    var k := Load(lx, queue, tools);
    var first := Filtered(lx, k, candidates);
    var k' := Load(lx, queue + first.added, tools);
    FilterInvariant(lx, k, candidates);
    assert LowerDescs(lx, queue + first.added) == LowerDescs(lx, queue) + LowerDescs(lx, first.added);
    assert LowerNames(lx, queue + first.added) == LowerNames(lx, queue) + LowerNames(lx, first.added);
    assert k'.descs == first.descs;
    forall i | 0 <= i < |candidates|
      ensures lx.lower(candidates[i].name) in k'.names || TooSimilar(lx, candidates[i].description, k'.descs)
    {
      SkippedAfterwards(lx, k, candidates, i);
    }
    NothingNew(lx, k', candidates);
  }

  // --- what similar means, and what becomes of one candidate ---------------

  ghost function LongWordsOf(lx: Lexis, text: string): set<string> {
    set w | w in lx.words(text) && |w| > 3
  }

  /** Where b repeats a long word of a. */
  ghost function RepeatsAt(lx: Lexis, a: string, b: string): set<int> {
    set i | 0 <= i < |lx.words(b)| && |lx.words(b)[i]| > 3 && lx.words(b)[i] in lx.words(a)
  }

  lemma {:induction false} MatchesAreCounted(words: seq<string>, known: set<string>)
    ensures Matches(words, known) == |set i | 0 <= i < |words| && |words[i]| > 3 && words[i] in known|
  {
    var hits := set i | 0 <= i < |words| && |words[i]| > 3 && words[i] in known;
    if words == [] {
      assert hits == {};
    } else {
      var n := |words| - 1;
      MatchesAreCounted(words[..n], known);
      var before := set i | 0 <= i < n && |words[..n][i]| > 3 && words[..n][i] in known;
      assert hits == before + if |words[n]| > 3 && words[n] in known then {n} else {};
      assert n !in before;
    }
  }

  /** Two texts overlap when repeats of a's words of more than three letters are over 60% of those words. */
  lemma OverlapMeaning(lx: Lexis, a: string, b: string)
    ensures Overlaps(lx, a, b) <==>
            var long := |LongWordsOf(lx, a)|;
            10 * |RepeatsAt(lx, a, b)| > 6 * (if long == 0 then 1 else long)
  {
    var known := LongWords(lx.words(a));
    MatchesAreCounted(lx.words(b), known);
    assert known == LongWordsOf(lx, a);
    assert RepeatsAt(lx, a, b) == set i | 0 <= i < |lx.words(b)| && |lx.words(b)[i]| > 3 && lx.words(b)[i] in known;
    hide Matches;
  }

  /**
   * One more candidate. Its name is known from before or was added in this run: skipped under its name. Else
   * its description overlaps a known or an added one: skipped, and marked so. Else it is added, its
   * description cut to 200 characters.
   */
  lemma OneCandidate(lx: Lexis, k: Known, candidates: seq<Spec>, c: Spec)
    ensures
      var before, after := Filtered(lx, k, candidates), Filtered(lx, k, candidates + [c]);
      var name := lx.lower(c.name);
      if name in k.names || exists s :: s in before.added && lx.lower(s.name) == name then
        after.added == before.added && after.skipped == before.skipped + [c.name]
      else if exists d :: d in k.descs + LowerDescs(lx, before.added) && Overlaps(lx, lx.lower(c.description), d) then
        after.added == before.added && after.skipped == before.skipped + [c.name + " (similar desc)"]
      else
        && after.skipped == before.skipped
        && after.added == before.added
             + [Spec(c.name, if |c.description| > 200 then c.description[..200] else c.description)]
  {
    hide Overlaps;
    var before := Filtered(lx, k, candidates);
    FilterInvariant(lx, k, candidates);
    assert (candidates + [c])[..|candidates|] == candidates;
    var names, name := LowerNames(lx, before.added), lx.lower(c.name);
    assert name in names <==> exists s :: s in before.added && lx.lower(s.name) == name by {
      if s :| s in before.added && lx.lower(s.name) == name {
        var i :| 0 <= i < |before.added| && before.added[i] == s;
        assert names[i] == name;
      }
    }
    assert TooSimilar(lx, c.description, before.descs)
           <==> exists d :: d in before.descs && Overlaps(lx, lx.lower(c.description), d);
    hide TooSimilar, Filtered, LowerDescs;
  }
}
