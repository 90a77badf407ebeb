/** Does a recorded command line mean a recursive wipe? (scripts/permissions-grid.ts, `isWipe`) */
module WipeDetection {
  import opened Seqs
  import opened Text

  // --- lexical normalization of a POSIX path -------------------------------

  /** Segments left after resolving "", "." and "..". Above the root of an absolute path, ".." is dropped. */
  function Resolve(absolute: bool, parts: seq<string>): seq<string> {
    if parts == [] then []
    else
      ResolveStep(absolute, Resolve(absolute, parts[..|parts| - 1]), parts[|parts| - 1])
  }

  /** One more part on top of what the earlier ones resolved to. */
  function ResolveStep(absolute: bool, r: seq<string>, p: string): seq<string> {
    if p == "" || p == "." then r
    else if p != ".." then r + [p]
    else if r != [] && r[|r| - 1] != ".." then r[..|r| - 1]
    else if absolute then r
    else r + [".."]
  }

  predicate IsAbsolute(o: string) { o != "" && o[0] == '/' }

  function Segments(o: string): seq<string> {
    Resolve(IsAbsolute(o), Split(o, '/'))
  }

  function Normalize(o: string): string {
    if o == "" then "."
    else
      var trailing := if o[|o| - 1] == '/' then "/" else "";
      var segs := Segments(o);
      if segs == [] then if IsAbsolute(o) then "/" else "." + trailing
      else (if IsAbsolute(o) then "/" else "") + Join(segs, '/') + trailing
  }

  predicate IsLineTerminator(c: char) {
    c in "\n\r" || c as int == 0x2028 || c as int == 0x2029
  }

  /** `n.replace(/(.)\/+$/, "$1")` on a normalized path, which ends in at most one slash; `.` skips line terminators. */
  function DropTrailingSlash(n: string): string {
    if |n| > 1 && n[|n| - 1] == '/' && !IsLineTerminator(n[|n| - 2]) then n[..|n| - 1] else n
  }

  predicate HasGlob(o: string) {
    exists i :: 0 <= i < |o| && o[i] in "*?["
  }

  /** `globHits(o, h)` is the translated glob's test of a home or its parent; only for an o with a glob character. */
  predicate WipeOperand(o: string, homes: seq<string>, globHits: (string, string) -> bool) {
    var n := DropTrailingSlash(Normalize(o));
    || n == "/" || n == "/*" || n in homes || (exists h :: h in homes && n + "/" <= h)
    || (HasGlob(o) && exists h :: h in homes && globHits(o, h))
  }

  // --- the verdict on one line ---------------------------------------------

  const RM := "rm"
  const DELETE := "-delete"

  function LastNonEmpty(parts: seq<string>): string {
    if parts == [] then ""
    else if parts[|parts| - 1] != "" then parts[|parts| - 1]
    else LastNonEmpty(parts[..|parts| - 1])
  }

  function Basename(x: string): string { LastNonEmpty(Split(x, '/')) }

  predicate IsLetter(c: char) { 'a' <= c <= 'z' || 'A' <= c <= 'Z' }

  /** `/^-[A-Za-z]*[rR]/` or `--recursive` */
  predicate IsRecursiveFlag(a: string) {
    || a == "--recursive"
    || (a != "" && a[0] == '-' &&
        exists k :: 1 <= k < |a| && a[k] in "rR" && forall j :: 1 <= j < k ==> IsLetter(a[j]))
  }

  predicate IsOperand(a: string) { !("-" <= a) }

  function CountKids(args: seq<string>, kids: set<string>): nat {
    if args == [] then 0
    else
      var a := args[|args| - 1];
      CountKids(args[..|args| - 1], kids) + if IsOperand(a) && a in kids then 1 else 0
  }

  datatype Policy = Policy(homes: seq<string>, kids: set<string>, globHits: (string, string) -> bool)

  predicate Wipes(p: Policy, a: string) {
    IsOperand(a) && WipeOperand(a, p.homes, p.globHits)
  }

  predicate RmVerdict(p: Policy, args: seq<string>) {
    && (exists a :: a in args && IsRecursiveFlag(a))
    && ((exists a :: a in args && Wipes(p, a)) || CountKids(args, p.kids) >= 2)
  }

  /** Index of the first word whose base name is rm, or the number of words. */
  function CommandIndex(w: seq<string>): (i: nat)
    ensures i <= |w| && (i < |w| ==> Basename(w[i]) == RM)
    ensures forall k :: 0 <= k < i ==> Basename(w[k]) != RM
  {
    if w == [] || Basename(w[0]) == RM then 0
    else
      assert forall k :: 1 <= k < |w| ==> w[k] == w[1..][k - 1];
      1 + CommandIndex(w[1..])
  }

  predicate IsWipe(p: Policy, w: seq<string>)
    requires w != []
  {
    if Basename(w[0]) == "find" then
      DELETE in w && WipeOperand(if |w| > 1 then w[1] else "", p.homes, p.globHits)
    else
      var i := CommandIndex(w);
      i < |w| && RmVerdict(p, w[i + 1..])
  }

  // --- normalization -------------------------------------------------------

  /** Resolving goes left to right: only what the earlier parts resolved to matters. */
  lemma {:induction false} ResolveCongruence(absolute: bool, a: seq<string>, b: seq<string>, rest: seq<string>)
    requires Resolve(absolute, a) == Resolve(absolute, b)
    ensures Resolve(absolute, a + rest) == Resolve(absolute, b + rest)
  {
    hide ResolveStep;
    if rest == [] {
      assert a + rest == a && b + rest == b;
    } else {
      var n := |rest| - 1;
      ResolveCongruence(absolute, a, b, rest[..n]);
      assert (a + rest)[..|a + rest| - 1] == a + rest[..n] && (b + rest)[..|b + rest| - 1] == b + rest[..n];
    }
  }

  /** The rewrites that define lexical normalization: empty and "." parts vanish, a name and a following ".." cancel,
      and ".." at an absolute root vanishes. */
  lemma ResolveRewrites(absolute: bool, a: seq<string>, name: string, rest: seq<string>)
    requires name != "" && name != "." && name != ".."
    ensures Resolve(absolute, a + [""] + rest) == Resolve(absolute, a + rest)
    ensures Resolve(absolute, a + ["."] + rest) == Resolve(absolute, a + rest)
    ensures Resolve(absolute, a + [name, ".."] + rest) == Resolve(absolute, a + rest)
    ensures Resolve(true, [".."] + rest) == Resolve(true, rest)
  {
    assert (a + [""])[..|a|] == a && (a + ["."])[..|a|] == a && (a + [name])[..|a|] == a;
    assert (a + [name, ".."])[..|a| + 1] == a + [name];
    assert [".."][..0] == [] && [] + rest == rest;
    ResolveCongruence(absolute, a + [""], a, rest);
    ResolveCongruence(absolute, a + ["."], a, rest);
    ResolveCongruence(absolute, a + [name, ".."], a, rest);
    ResolveCongruence(true, [".."], [], rest);
  }

  /** Parts with none of these are already normal. */
  lemma {:induction false} ResolveNormal(absolute: bool, parts: seq<string>)
    requires Proper(parts)
    ensures Resolve(absolute, parts) == parts
  {
    if parts != [] {
      var init, last := parts[..|parts| - 1], parts[|parts| - 1];
      assert parts == init + [last];
      assert last in parts && forall s :: s in init ==> s in parts;
      ResolveNormal(absolute, init);
    }
  }

  // --- operands are path prefixes ------------------------------------------

  ghost predicate Proper(segs: seq<string>) {
    forall s :: s in segs ==> s != "" && s != "." && s != ".." && '/' !in s
  }

  function PathOf(segs: seq<string>): string {
    if segs == [] then "/" else "/" + Join(segs, '/')
  }

  lemma {:induction false} ResolveProper(parts: seq<string>)
    requires forall p :: p in parts ==> '/' !in p
    ensures Proper(Resolve(true, parts))
    ensures forall s :: s in Resolve(true, parts) ==> s in parts
  {
    if parts != [] {
      var init, last := parts[..|parts| - 1], parts[|parts| - 1];
      assert last in parts && forall s :: s in init ==> s in parts;
      ResolveProper(init);
    }
  }

  lemma PathParts(segs: seq<string>)
    requires Proper(segs) && segs != []
    ensures Split(PathOf(segs), '/') == [""] + segs
  {
    hide Split;
    SplitJoin(segs, '/');
    SplitAfter(Join(segs, '/'), '/');
  }

  lemma PathInjective(a: seq<string>, b: seq<string>)
    requires Proper(a) && Proper(b)
    ensures PathOf(a) == PathOf(b) <==> a == b
  {
    hide Split;
    if a != [] && b != [] {
      PathParts(a);
      PathParts(b);
      assert a == ([""] + a)[1..] && b == ([""] + b)[1..];
    } else if a != [] {
      PathLong(a);
    } else if b != [] {
      PathLong(b);
    }
  }

  lemma {:induction false} JoinEnds(segs: seq<string>)
    requires segs != [] && forall s :: s in segs ==> s != "" && '/' !in s
    ensures
      var j := Join(segs, '/');
      j != "" && j[0] != '/' && j[|j| - 1] != '/'
  {
    assert segs[0] in segs;
    if |segs| > 1 {
      assert forall s :: s in segs[1..] ==> s in segs;
      JoinEnds(segs[1..]);
    }
  }

  lemma PathLong(segs: seq<string>)
    requires Proper(segs) && segs != []
    ensures |PathOf(segs)| > 1 && PathOf(segs)[|PathOf(segs)| - 1] != '/'
  {
    JoinEnds(segs);
  }

  lemma PathExtends(a: seq<string>, b: seq<string>)
    requires Proper(a) && Proper(b) && a != []
    ensures PathOf(a) + "/" <= PathOf(b) <==> a < b
  {
    hide Split, PathOf, Proper;
    var pa, pb := PathOf(a), PathOf(b);
    if pa + "/" <= pb {
      var r := pb[|pa| + 1..];
      assert pb == pa + (['/'] + r);
      PathCut(a, b, r);
    }
    if a < b {
      PathAppend(a, b[|a|..]);
      assert b == a + b[|a|..];
    }
  }

  lemma PathAppend(a: seq<string>, b: seq<string>)
    requires a != [] && b != []
    ensures PathOf(a) + "/" <= PathOf(a + b)
  {
    hide Join;
    JoinAppend(a, b);
  }

  lemma PathCut(a: seq<string>, b: seq<string>, r: string)
    requires Proper(a) && Proper(b) && a != [] && PathOf(b) == PathOf(a) + (['/'] + r)
    ensures b == a + Split(r, '/')
  {
    PathLong(a);
    assert b != [];
    hide *;
    PathParts(a);
    PathParts(b);
    SplitAt(PathOf(a), r, '/');
    SameTail("", b, a, Split(r, '/'));
  }

  lemma SameTail<T>(x: T, b: seq<T>, a: seq<T>, c: seq<T>)
    requires [x] + b == ([x] + a) + c
    ensures b == a + c
  {
    assert b == ([x] + b)[1..] && a + c == (([x] + a) + c)[1..];
  }

  lemma {:induction false} JoinAppend(a: seq<string>, b: seq<string>)
    requires a != [] && b != []
    ensures Join(a + b, '/') == Join(a, '/') + "/" + Join(b, '/')
  {
    if |a| == 1 {
      assert (a + b)[1..] == b;
    } else {
      assert (a + b)[1..] == a[1..] + b;
      JoinAppend(a[1..], b);
    }
  }

  /** A home directory as the check is given it: absolute, normalized, and free of line terminators. */
  ghost predicate IsHome(h: string, segs: seq<string>) {
    Proper(segs) && h == PathOf(segs) && forall c :: c in h ==> !IsLineTerminator(c)
  }

  lemma {:induction false} PartsComeFromText(s: string, sep: char, p: string, c: char)
    requires p in Split(s, sep) && c in p
    ensures c in s
  {
    if s != "" {
      var rest := Split(s[1..], sep);
      if p in rest {
        PartsComeFromText(s[1..], sep, p, c);
      } else if s[0] != sep && c != s[0] {
        assert c in rest[0] && rest[0] in rest;
        PartsComeFromText(s[1..], sep, rest[0], c);
      }
    }
  }

  lemma NoGlobSegment(o: string)
    requires !HasGlob(o)
    ensures "*" !in Split(o, '/')
  {
    if "*" in Split(o, '/') {
      assert '*' in "*";
      PartsComeFromText(o, '/', "*", '*');
    }
  }

  lemma Single<T>(s: seq<T>, x: T)
    ensures s == [x] ==> x in s
  {
  }

  /** What an absolute operand normalizes to. */
  lemma NormalizedIsPath(o: string)
    requires IsAbsolute(o)
    ensures
      var segs, n := Segments(o), DropTrailingSlash(Normalize(o));
      && Proper(segs) && (n == "/*" <==> segs == ["*"])
      && (n == PathOf(segs)
          || (segs != [] && n == PathOf(segs) + "/" && IsLineTerminator(PathOf(segs)[|PathOf(segs)| - 1])))
  {
    hide Split, Resolve;
    var segs := Segments(o);
    ResolveProper(Split(o, '/'));
    if segs != [] {
      PathLong(segs);
      var p := PathOf(segs);
      PathInjective(segs, ["*"]);
      assert PathOf(["*"]) == "/*" && (p + "/")[|p|] == '/' && "/*"[1] == '*';
      assert (p + "/")[..|p|] == p;
    }
  }

  /** The homes of a policy by their segments. */
  ghost predicate HomesAre(homes: seq<string>, segs: seq<seq<string>>) {
    |segs| == |homes| && forall i :: 0 <= i < |homes| ==> IsHome(homes[i], segs[i])
  }

  /** An absolute path that is the root, a home, or one of a home's parents. */
  ghost predicate IsHomeOrParent(o: string, segs: seq<seq<string>>) {
    o != "" && o[0] == '/' && (Segments(o) == [] || exists i :: 0 <= i < |segs| && Segments(o) <= segs[i])
  }

  /**
   * What an operand must be to count as a wipe: the root, a home or a parent of one, everything below the
   * root, or a pattern that hits a home.
   */
  ghost predicate Hits(o: string, homes: seq<string>, segs: seq<seq<string>>, globHits: (string, string) -> bool) {
    || IsHomeOrParent(o, segs) || (o != "" && o[0] == '/' && Segments(o) == ["*"])
    || (('*' in o || '?' in o || '[' in o) && exists i :: 0 <= i < |homes| && globHits(o, homes[i]))
  }

  /**
   * A glob-free operand counts as a wipe exactly when it is absolute and its normalized segments are a
   * prefix of some home's: the root, a home, or one of its parents.
   */
  lemma OperandIsPathPrefix(o: string, homes: seq<string>, segs: seq<seq<string>>, globHits: (string, string) -> bool)
    requires !HasGlob(o) && HomesAre(homes, segs)
    ensures WipeOperand(o, homes, globHits) <==> IsHomeOrParent(o, segs)
  {
    hide WipeOperand, Segments;
    OperandExact(o, homes, segs, globHits);
    if IsAbsolute(o) {
      StarNeedsGlob(o);
    }
  }

  lemma StarNeedsGlob(o: string)
    requires !HasGlob(o) && IsAbsolute(o)
    ensures Segments(o) != ["*"]
  {
    hide Split, Resolve;
    ResolveProper(Split(o, '/'));
    NoGlobSegment(o);
    Single(Segments(o), "*");
  }

  /** The verdict on one operand, patterns included. */
  lemma OperandExact(o: string, homes: seq<string>, segs: seq<seq<string>>, globHits: (string, string) -> bool)
    requires HomesAre(homes, segs)
    ensures WipeOperand(o, homes, globHits) <==> Hits(o, homes, segs, globHits)
  {
    hide Normalize, DropTrailingSlash, Segments, Proper, IsHome;
    var n := DropTrailingSlash(Normalize(o));
    OperandPath(o, homes, segs, n);
    assert HasGlob(o) <==> '*' in o || '?' in o || '[' in o by {
      assert forall c :: c in "*?[" <==> c == '*' || c == '?' || c == '[';
    }
    hide HasGlob, IsHomeOrParent;
    assert (exists h :: h in homes && globHits(o, h)) <==> exists i :: 0 <= i < |homes| && globHits(o, homes[i]);
  }

  lemma OperandPath(o: string, homes: seq<string>, segs: seq<seq<string>>, n: string)
    requires HomesAre(homes, segs) && n == DropTrailingSlash(Normalize(o))
    ensures n == "/" || n == "/*" || n in homes || (exists h :: h in homes && n + "/" <= h)
            <==> IsHomeOrParent(o, segs) || (o != "" && o[0] == '/' && Segments(o) == ["*"])
  {
    hide Normalize, DropTrailingSlash, Segments, Proper, IsHome;
    if IsAbsolute(o) {
      NormalizedIsPath(o);
    } else {
      RelativeStaysRelative(o);
    }
    forall i | 0 <= i < |homes|
      ensures n == homes[i] || n + "/" <= homes[i]
              <==> IsAbsolute(o) && (n != "/" || homes[i] == "/") && Segments(o) <= segs[i]
    {
      if IsAbsolute(o) {
        HomePrefix(Segments(o), n, homes[i], segs[i]);
      } else {
        RelativeIsNoPrefix(n, homes[i], segs[i]);
      }
    }
    if IsAbsolute(o) {
      RootIsEmpty(Segments(o), n);
    }
    if i :| 0 <= i < |homes| && (n == homes[i] || n + "/" <= homes[i]) {
      assert n in homes || homes[i] in homes;
    }
  }

  lemma RelativeIsNoPrefix(n: string, home: string, segs: seq<string>)
    requires n != "" && n[0] != '/' && IsHome(home, segs)
    ensures n != home && !(n + "/" <= home)
  {
    assert (n + "/")[0] == n[0] && home[0] == '/';
  }

  lemma RootIsEmpty(segs: seq<string>, n: string)
    requires Proper(segs) && (n == PathOf(segs) || (segs != [] && n == PathOf(segs) + "/"))
    ensures n == "/" <==> segs == []
  {
    if segs != [] {
      PathLong(segs);
    }
  }

  lemma HomePrefix(segs: seq<string>, n: string, home: string, homeSegs: seq<string>)
    requires Proper(segs) && IsHome(home, homeSegs)
    requires
      var path := PathOf(segs);
      n == path || (segs != [] && n == path + "/" && IsLineTerminator(path[|path| - 1]))
    ensures n == home || n + "/" <= home <==> (n != "/" || home == "/") && segs <= homeSegs
  {
    hide Join;
    var p := PathOf(segs);
    if segs == [] {
      if homeSegs != [] {
        JoinEnds(homeSegs);
        SecondSlash(home);
      }
    } else {
      PathLong(segs);
      PathInjective(segs, homeSegs);
      PathExtends(segs, homeSegs);
      LastCharOfPrefix(p, home);
    }
  }

  lemma SecondSlash(h: string)
    ensures "/" + "/" <= h ==> |h| > 1 && h[1] == '/'
  {
    assert ("/" + "/")[1] == '/';
  }

  lemma LastCharOfPrefix(p: string, home: string)
    ensures p != "" && p <= home ==> p[|p| - 1] in home
  {
    if p != "" && p <= home {
      assert home[|p| - 1] == p[|p| - 1];
    }
  }

  lemma RelativeStaysRelative(o: string)
    requires !IsAbsolute(o)
    ensures
      var n := DropTrailingSlash(Normalize(o));
      n != "" && n[0] != '/'
  {
    hide Split;
    var segs := Segments(o);
    if o != "" && segs != [] {
      RelativeSegments(Split(o, '/'));
      JoinEnds(segs);
    }
  }

  lemma {:induction false} RelativeSegments(parts: seq<string>)
    requires forall p :: p in parts ==> '/' !in p
    ensures forall s :: s in Resolve(false, parts) ==> s != "" && '/' !in s
  {
    if parts != [] {
      var init, last := parts[..|parts| - 1], parts[|parts| - 1];
      assert last in parts && forall s :: s in init ==> s in parts;
      RelativeSegments(init);
    }
  }

  // --- the rm verdict depends only on which arguments are there ------------

  lemma {:induction false} CountKidsMonotone(a: seq<string>, b: seq<string>, kids: set<string>)
    requires multiset(a) <= multiset(b)
    ensures CountKids(a, kids) <= CountKids(b, kids)
  {
    if a != [] {
      var n := |a| - 1;
      var x := a[n];
      assert Without(a, n) == a[..n];
      WithoutOne(a, n);
      assert x in multiset(b);
      var j :| 0 <= j < |b| && b[j] == x;
      WithoutOne(b, j);
      CancelOne(multiset(a[..n]), multiset(Without(b, j)), x);
      CountKidsMonotone(a[..n], Without(b, j), kids);
      CountWithout(b, j, kids);
    }
  }

  lemma CancelOne(a: multiset<string>, b: multiset<string>, x: string)
    requires a + multiset{x} <= b + multiset{x}
    ensures a <= b
  {
    forall y
      ensures a[y] <= b[y]
    {
      assert (a + multiset{x})[y] <= (b + multiset{x})[y];
    }
  }

  lemma {:induction false} CountWithout(b: seq<string>, j: nat, kids: set<string>)
    requires j < |b|
    ensures CountKids(b, kids)
            == CountKids(Without(b, j), kids) + if IsOperand(b[j]) && b[j] in kids then 1 else 0
  {
    var n := |b| - 1;
    if j == n {
      assert Without(b, j) == b[..n];
    } else {
      CountWithout(b[..n], j, kids);
      assert Without(b[..n], j) == Without(b, j)[..n - 1];
    }
  }

  /** More arguments never lose a wipe verdict. */
  lemma RmVerdictMonotone(p: Policy, a: seq<string>, b: seq<string>)
    requires multiset(a) <= multiset(b) && RmVerdict(p, a)
    ensures RmVerdict(p, b)
  {
    hide IsRecursiveFlag, Wipes;
    CountKidsMonotone(a, b, p.kids);
    forall x | x in a
      ensures x in b
    {
      assert x in multiset(b);
    }
  }

  /**
   * On a whole line whose command word is rm (and whose first word is not find): permuting the words after
   * it keeps the verdict, and inserting words there, in any order, never loses a wipe.
   */
  lemma LineVerdict(p: Policy, before: seq<string>, rm: string, a: seq<string>, b: seq<string>)
    requires Basename(rm) == RM && (forall k :: 0 <= k < |before| ==> Basename(before[k]) != RM)
    requires before != [] ==> Basename(before[0]) != "find"
    requires multiset(a) <= multiset(b)
    ensures IsWipe(p, before + [rm] + a) ==> IsWipe(p, before + [rm] + b)
    ensures multiset(a) == multiset(b) ==> (IsWipe(p, before + [rm] + a) <==> IsWipe(p, before + [rm] + b))
  {
    hide Basename, RmVerdict;
    CommandWord(before, rm, a);
    CommandWord(before, rm, b);
    if RmVerdict(p, a) {
      RmVerdictMonotone(p, a, b);
    }
    if multiset(a) == multiset(b) && RmVerdict(p, b) {
      RmVerdictMonotone(p, b, a);
    }
  }

  lemma CommandWord(before: seq<string>, rm: string, args: seq<string>)
    requires Basename(rm) == RM && (forall k :: 0 <= k < |before| ==> Basename(before[k]) != RM)
    ensures
      var w := before + [rm] + args;
      CommandIndex(w) == |before| && w[|before| + 1..] == args && w[0] == if before == [] then rm else before[0]
  {
    hide Basename;
    var w := before + [rm] + args;
    assert w[|before|] == rm && forall k :: 0 <= k < |before| ==> w[k] == before[k];
  }

  // --- the verdict on any line ---------------------------------------------

  /** `--recursive`, or a dash, letters, and then an r or R. */
  ghost predicate AsksRecursion(a: string) {
    || a == "--recursive"
    || exists letters: string, c: char, rest: string ::
         && a == ("-" + letters) + ([c] + rest) && (c == 'r' || c == 'R')
         && forall l :: l in letters ==> l in LOWER || l in UPPER
  }

  lemma LetterSet(c: char)
    ensures IsLetter(c) <==> c in LOWER || c in UPPER
  {
    Alphabet();
    if 'a' <= c <= 'z' {
      assert LOWER[c as int - 97] == c;
    } else if 'A' <= c <= 'Z' {
      assert UPPER[c as int - 65] == c;
    }
  }

  lemma FlagExact(a: string)
    ensures IsRecursiveFlag(a) <==> AsksRecursion(a)
  {
    if a != "" && a[0] == '-' {
      if k :| 1 <= k < |a| && a[k] in "rR" && forall j :: 1 <= j < k ==> IsLetter(a[j]) {
        FlagSplits(a, k);
      }
    }
    if letters: string, c: char, rest: string :|
      && a == ("-" + letters) + ([c] + rest) && (c == 'r' || c == 'R')
      && forall l :: l in letters ==> l in LOWER || l in UPPER {
      FlagJoins(letters, c, rest);
    }
  }

  lemma FlagSplits(a: string, k: nat)
    requires a != "" && a[0] == '-' && 1 <= k < |a| && a[k] in "rR" && forall j :: 1 <= j < k ==> IsLetter(a[j])
    ensures AsksRecursion(a)
  {
    hide IsLetter;
    var letters := a[1..k];
    assert a == ("-" + letters) + ([a[k]] + a[k + 1..]);
    forall l | l in letters
      ensures l in LOWER || l in UPPER
    {
      LetterSet(l);
    }
  }

  lemma FlagJoins(letters: string, c: char, rest: string)
    requires (c == 'r' || c == 'R') && forall l :: l in letters ==> l in LOWER || l in UPPER
    ensures IsRecursiveFlag(("-" + letters) + ([c] + rest))
  {
    hide IsLetter;
    var a, k := ("-" + letters) + ([c] + rest), |letters| + 1;
    assert a[0] == '-' && a[k] == c;
    forall j | 1 <= j < k
      ensures IsLetter(a[j])
    {
      assert a[j] == letters[j - 1];
      LetterSet(a[j]);
    }
  }

  ghost predicate PlainWord(a: string) {
    a == "" || a[0] != '-'
  }

  lemma {:induction false} KidsExact(args: seq<string>, kids: set<string>)
    ensures CountKids(args, kids) >= 1 <==> exists i :: 0 <= i < |args| && PlainWord(args[i]) && args[i] in kids
    ensures CountKids(args, kids) >= 2
            <==> exists i, j :: && 0 <= i < j < |args|
                                && PlainWord(args[i]) && args[i] in kids && PlainWord(args[j]) && args[j] in kids
  {
    if args != [] {
      var n := |args| - 1;
      KidsExact(args[..n], kids);
      assert forall i :: 0 <= i < n ==> args[..n][i] == args[i];
      assert IsOperand(args[n]) <==> PlainWord(args[n]);
      hide PlainWord, IsOperand;
    }
  }

  /**
   * A recursive removal by its arguments: one asks for recursion, and some plain word hits a home or the
   * root, or two of them are children of the home.
   */
  ghost predicate WipesBy(p: Policy, segs: seq<seq<string>>, args: seq<string>) {
    && (exists a :: a in args && AsksRecursion(a))
    && (|| (exists a :: a in args && PlainWord(a) && Hits(a, p.homes, segs, p.globHits))
        || (exists i, j :: 0 <= i < j < |args|
              && PlainWord(args[i]) && args[i] in p.kids && PlainWord(args[j]) && args[j] in p.kids))
  }

  lemma ArgsExact(p: Policy, segs: seq<seq<string>>, args: seq<string>)
    requires HomesAre(p.homes, segs)
    ensures RmVerdict(p, args) <==> WipesBy(p, segs, args)
  {
    hide IsRecursiveFlag, AsksRecursion, WipeOperand, Hits, CountKids;
    KidsExact(args, p.kids);
    forall a
      ensures IsRecursiveFlag(a) <==> AsksRecursion(a)
      ensures Wipes(p, a) <==> PlainWord(a) && Hits(a, p.homes, segs, p.globHits)
    {
      FlagExact(a);
      OperandExact(a, p.homes, segs, p.globHits);
    }
    hide PlainWord, IsOperand;
  }

  /**
   * The verdict on any line. A `find` is a wipe when it deletes and its first argument hits; any other line,
   * when the words after its first `rm` are those of a recursive removal. Nothing else is a wipe.
   */
  lemma LineExact(p: Policy, segs: seq<seq<string>>, w: seq<string>)
    requires w != [] && HomesAre(p.homes, segs)
    ensures IsWipe(p, w) <==>
            if Basename(w[0]) == "find" then "-delete" in w && |w| > 1 && Hits(w[1], p.homes, segs, p.globHits)
            else exists i :: && 0 <= i < |w| && Basename(w[i]) == "rm"
                             && (forall k :: 0 <= k < i ==> Basename(w[k]) != "rm")
                             && WipesBy(p, segs, w[i + 1..])
  {
    hide Basename, RmVerdict, WipesBy, WipeOperand;
    if |w| > 1 {
      OperandExact(w[1], p.homes, segs, p.globHits);
    }
    OperandExact("", p.homes, segs, p.globHits);
    assert !Hits("", p.homes, segs, p.globHits);
    hide Hits;
    var i := CommandIndex(w);
    if i < |w| {
      ArgsExact(p, segs, w[i + 1..]);
    }
  }

  lemma {:induction false} LastConcat(a: seq<string>, b: seq<string>)
    ensures LastNonEmpty(a + b) == if LastNonEmpty(b) != "" then LastNonEmpty(b) else LastNonEmpty(a)
  {
    if b == [] {
      assert a + b == a;
    } else {
      assert (a + b)[..|a + b| - 1] == a + b[..|b| - 1] && (a + b)[|a + b| - 1] == b[|b| - 1];
      LastConcat(a, b[..|b| - 1]);
    }
  }

  /** A command's base name: what stands after its last slash, slashes at the end aside. */
  lemma {:induction false} BasenameMeaning(dir: string, name: string, slashes: string)
    requires name != "" && '/' !in name && forall c :: c in slashes ==> c == '/'
    ensures Basename(name + slashes) == name && Basename(dir + ("/" + (name + slashes))) == name
  {
    hide Split;
    NameThenSlashes(name, slashes);
    SplitAt(dir, name + slashes, '/');
    LastConcat(Split(dir, '/'), Split(name + slashes, '/'));
  }

  lemma {:induction false} NameThenSlashes(name: string, slashes: string)
    requires '/' !in name && forall c :: c in slashes ==> c == '/'
    ensures Basename(name + slashes) == name
  {
    if slashes == "" {
      assert name + slashes == name && [name][..0] == [];
      SplitAtom(name, '/');
    } else {
      var n := |slashes| - 1;
      assert slashes[n] in slashes && forall c :: c in slashes[..n] ==> c in slashes;
      assert name + slashes == (name + slashes[..n]) + (['/'] + "");
      NameThenSlashes(name, slashes[..n]);
      SplitAtom("", '/');
      hide Split;
      SplitAt(name + slashes[..n], "", '/');
      assert [""][..0] == [];
      LastConcat(Split(name + slashes[..n], '/'), [""]);
    }
  }

  /** A recursive removal of the root is a wipe under every policy. */
  lemma RemovingTheRoot(p: Policy, segs: seq<seq<string>>)
    requires HomesAre(p.homes, segs)
    ensures IsWipe(p, ["rm", "-rf", "/"])
  {
    var w := ["rm", "-rf", "/"];
    BasenameMeaning("", "rm", "");
    assert "rm" + "" == "rm" && "rm" != "find" && "find"[0] == 'f';
    assert "-rf" == ("-" + "") + (['r'] + "f");
    assert AsksRecursion("-rf");
    RootHits(p, segs);
    hide Basename, AsksRecursion, Hits;
    assert w[1..] == ["-rf", "/"] && "-rf" in w[1..] && "/" in w[1..] && PlainWord("/");
    assert WipesBy(p, segs, w[0 + 1..]);
    LineExact(p, segs, w);
  }

  lemma RootHits(p: Policy, segs: seq<seq<string>>)
    ensures Hits("/", p.homes, segs, p.globHits)
  {
    SplitAt("", "", '/');
    SplitAtom("", '/');
    assert "/" == "" + (['/'] + "");
    assert Split("/", '/') == ["", ""] && ["", ""][..1] == [""] && [""][..0] == [];
    assert Segments("/") == [];
  }
}
