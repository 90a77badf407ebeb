/**
 * Checking bundled packages against the versions their dependents accept (scripts/check-bundle-versions.ts).
 *
 * A directory is its root-relative list of segments; the disk and semver matching are functions.
 */
module BundleVersions {
  import opened Seqs

  type Dir = seq<string>
  datatype Dep = Dep(name: Dir, range: string)
  datatype Pkg = Pkg(version: Option<string>, dependencies: seq<Dep>)

  datatype Disk = Disk(
    hasManifest: Dir -> bool, manifest: Dir -> Option<Pkg>,
    notSemver: string -> bool, satisfies: (string, string) -> bool)

  /** A package folder: where its node_modules sits, and the package's name (one segment, or two with a scope). */
  datatype Bundled = Bundled(parent: Dir, name: Dir)

  const NODE_MODULES := "node_modules"

  function Candidate(at: Dir, name: Dir): Dir { at + [NODE_MODULES] + name }

  function PathOf(b: Bundled): Dir { Candidate(b.parent, b.name) }

  // --- nearest resolution --------------------------------------------------

  function Resolve(disk: Disk, from: Dir, name: Dir): Option<Dir> {
    if disk.hasManifest(Candidate(from, name)) then Some(Candidate(from, name))
    else if from == [] then None
    else Resolve(disk, from[..|from| - 1], name)
  }

  method ResolveDep(disk: Disk, fromDir: Dir, dep: Dir) returns (r: Option<Dir>)
    ensures r == Resolve(disk, fromDir, dep)
  {
    var cur := fromDir;
    while true
      invariant Resolve(disk, cur, dep) == Resolve(disk, fromDir, dep)
      decreases |cur|
    {
      var cand := Candidate(cur, dep);
      if disk.hasManifest(cand) {
        return Some(cand);
      }
      if |cur| <= 1 {
        break;
      }
      cur := cur[..|cur| - 1];
    }
    var top := Candidate([], dep);
    return if disk.hasManifest(top) then Some(top) else None;
  }

  lemma {:induction false} NearestCandidate(disk: Disk, from: Dir, name: Dir)
    ensures
      match Resolve(disk, from, name)
      case None => forall k :: 0 <= k <= |from| ==> !disk.hasManifest(Candidate(from[..k], name))
      case Some(r) =>
        exists k :: 0 <= k <= |from| && r == Candidate(from[..k], name) && disk.hasManifest(r)
          && forall j :: k < j <= |from| ==> !disk.hasManifest(Candidate(from[..j], name))
  {
    assert from[..|from|] == from;
    if from != [] && !disk.hasManifest(Candidate(from, name)) {
      var init := from[..|from| - 1];
      NearestCandidate(disk, init, name);
      assert forall k :: 0 <= k <= |init| ==> init[..k] == from[..k];
      var r := Resolve(disk, init, name);
      if r.Some? {
        var k :| 0 <= k <= |init| && r.value == Candidate(init[..k], name)
          && forall j :: k < j <= |init| ==> !disk.hasManifest(Candidate(init[..j], name));
        assert r.value == Candidate(from[..k], name);
      }
    }
  }

  /** The match at the longest prefix of the starting directory, the root included; none when no prefix has one. */
  lemma ResolveIsNearest(disk: Disk, from: Dir, name: Dir)
    ensures
      match Resolve(disk, from, name)
      case None => forall k :: 0 <= k <= |from| ==> !disk.hasManifest(from[..k] + ["node_modules"] + name)
      case Some(r) =>
        exists k :: 0 <= k <= |from| && r == from[..k] + ["node_modules"] + name && disk.hasManifest(r)
          && forall j :: k < j <= |from| ==> !disk.hasManifest(from[..j] + ["node_modules"] + name)
  {
    NearestCandidate(disk, from, name);
    hide Resolve;
    assert forall k :: 0 <= k <= |from| ==> Candidate(from[..k], name) == from[..k] + ["node_modules"] + name;
  }

  // --- Node's own rule -----------------------------------------------------

  /** A directory that is itself called node_modules. */
  predicate IsModulesDir(dir: Dir) {
    dir != [] && dir[|dir| - 1] == NODE_MODULES
  }

  /** Node's walk: a directory called node_modules is passed over. */
  function NodeResolve(disk: Disk, from: Dir, name: Dir): Option<Dir> {
    if !IsModulesDir(from) && disk.hasManifest(Candidate(from, name)) then Some(Candidate(from, name))
    else if from == [] then None
    else NodeResolve(disk, from[..|from| - 1], name)
  }

  /** Some prefix longer than the k-th has a match and is not itself called node_modules. */
  ghost predicate NodeLooksFirst(disk: Disk, from: Dir, name: Dir, k: nat)
    requires k <= |from|
  {
    exists j :: k < j <= |from| && !IsModulesDir(from[..j]) && disk.hasManifest(Candidate(from[..j], name))
  }

  /** Every match inside a directory called node_modules is hidden by a nearer match that Node accepts. */
  ghost predicate ModulesDirsHidden(disk: Disk, from: Dir, name: Dir) {
    forall k :: 0 <= k <= |from| && IsModulesDir(from[..k]) && disk.hasManifest(Candidate(from[..k], name)) ==>
      NodeLooksFirst(disk, from, name, k)
  }

  lemma HiddenInParent(disk: Disk, from: Dir, name: Dir)
    requires from != [] && !disk.hasManifest(Candidate(from, name))
    ensures ModulesDirsHidden(disk, from, name) <==> ModulesDirsHidden(disk, from[..|from| - 1], name)
  {
    var init := from[..|from| - 1];
    assert from[..|from|] == from;
    assert forall k :: 0 <= k <= |init| ==> init[..k] == from[..k];
    hide IsModulesDir, Candidate;
    forall k | 0 <= k <= |init|
      ensures NodeLooksFirst(disk, init, name, k) <==> NodeLooksFirst(disk, from, name, k)
    {
      if NodeLooksFirst(disk, init, name, k) {
        var j :| k < j <= |init| && !IsModulesDir(init[..j]) && disk.hasManifest(Candidate(init[..j], name));
        assert init[..j] == from[..j];
      }
    }
  }

  /** The walk is Node's exactly when no match inside a directory called node_modules is the nearest one. */
  lemma {:induction false} ResolveIsNodes(disk: Disk, from: Dir, name: Dir)
    ensures Resolve(disk, from, name) == NodeResolve(disk, from, name) <==> ModulesDirsHidden(disk, from, name)
  {
    assert from[..|from|] == from;
    if disk.hasManifest(Candidate(from, name)) {
      if IsModulesDir(from) {
        assert !NodeLooksFirst(disk, from, name, |from|);
        NodeStaysAbove(disk, from[..|from| - 1], name);
      } else {
        forall k | 0 <= k <= |from| && IsModulesDir(from[..k])
          ensures NodeLooksFirst(disk, from, name, k)
        {
          assert from[..k] != from;
        }
      }
    } else if from != [] {
      HiddenInParent(disk, from, name);
      ResolveIsNodes(disk, from[..|from| - 1], name);
    }
  }

  /** What Node finds is never deeper than where it started. */
  lemma {:induction false} NodeStaysAbove(disk: Disk, from: Dir, name: Dir)
    ensures
      var r := NodeResolve(disk, from, name);
      r.Some? ==> |r.value| <= |from| + 1 + |name|
  {
    if from != [] {
      NodeStaysAbove(disk, from[..|from| - 1], name);
    }
  }

  /** A package folder directly below a stray `node_modules/node_modules` is found, though Node passes it over. */
  lemma StrayModulesDir(name: Dir)
    ensures
      var stray := Candidate([NODE_MODULES], name);
      var disk := Disk((d: Dir) => d == stray, (d: Dir) => None, (r: string) => false, (v: string, r: string) => true);
      && Resolve(disk, [NODE_MODULES, "chalk"], name) == Some(stray)
      && NodeResolve(disk, [NODE_MODULES, "chalk"], name) == None
  {
    var from, stray := [NODE_MODULES, "chalk"], Candidate([NODE_MODULES], name);
    var disk := Disk((d: Dir) => d == stray, (d: Dir) => None, (r: string) => false, (v: string, r: string) => true);
    assert "chalk"[0] == 'c' && NODE_MODULES[0] == 'n';
    assert |Candidate(from, name)| == |stray| + 1 && |Candidate([], name)| == |stray| - 1;
    assert from[..1] == [NODE_MODULES] && [NODE_MODULES][..0] == [];
    assert Resolve(disk, [NODE_MODULES], name) == Some(stray);
    assert NodeResolve(disk, [], name) == None;
  }

  // --- the check -----------------------------------------------------------

  datatype Fault = Unresolved | WrongVersion(at: Dir, version: string)
  datatype Problem = Problem(dir: Dir, dep: Dir, range: string, fault: Fault)

  function VersionAt(disk: Disk, at: Dir): string {
    var m := disk.manifest(at);
    if m.Some? && m.value.version.Some? then m.value.version.value else "?"
  }

  /** The fault of one dependency, if it is bundled, has a semver range, and does not resolve to an accepted version. */
  function FaultOf(disk: Disk, names: set<Dir>, dir: Dir, dep: Dep): Option<Fault> {
    if dep.name !in names || disk.notSemver(dep.range) then None
    else
      match Resolve(disk, dir, dep.name)
      case None => Some(Unresolved)
      case Some(at) =>
        var version := VersionAt(disk, at);
        if disk.satisfies(version, dep.range) then None else Some(WrongVersion(at, version))
  }

  function DepProblems(disk: Disk, names: set<Dir>, dir: Dir): Dep -> seq<Problem> {
    (dep: Dep) =>
      match FaultOf(disk, names, dir, dep)
      case None => []
      case Some(f) => [Problem(dir, dep.name, dep.range, f)]
  }

  /** `pkg?.dependencies`, none when the manifest is missing or unreadable. */
  function DepsOf(disk: Disk, dir: Dir): seq<Dep> {
    match disk.manifest(dir)
    case None => []
    case Some(p) => p.dependencies
  }

  function DirProblems(disk: Disk, names: set<Dir>): Bundled -> seq<Problem> {
    (b: Bundled) => Flat(DepsOf(disk, PathOf(b)), DepProblems(disk, names, PathOf(b)))
  }

  function Names(dirs: seq<Bundled>): set<Dir> {
    set i | 0 <= i < |dirs| :: dirs[i].name
  }

  function Problems(disk: Disk, dirs: seq<Bundled>): seq<Problem> {
    Flat(dirs, DirProblems(disk, Names(dirs)))
  }

  /** The scan; `dirs` is the sorted list of distinct package folders. */
  method CheckBundle(disk: Disk, dirs: seq<Bundled>) returns (problems: seq<Problem>)
    ensures problems == Problems(disk, dirs)
  {
    var names: set<Dir> := {};
    for i := 0 to |dirs|
      invariant names == set k | 0 <= k < i :: dirs[k].name
    {
      names := names + {dirs[i].name};
    }
    assert names == Names(dirs);
    problems := [];
    hide Names, Resolve;
    for i := 0 to |dirs|
      invariant problems == Flat(dirs[..i], DirProblems(disk, names))
    {
      FlatStep(dirs, i, DirProblems(disk, names));
      var here := CheckDir(disk, names, dirs[i]);
      problems := problems + here;
    }
    assert dirs[..|dirs|] == dirs;
  }

  method CheckDir(disk: Disk, names: set<Dir>, b: Bundled) returns (problems: seq<Problem>)
    ensures problems == DirProblems(disk, names)(b)
  {
    var dir := PathOf(b);
    var deps := DepsOf(disk, dir);
    problems := [];
    for i := 0 to |deps|
      invariant problems == Flat(deps[..i], DepProblems(disk, names, dir))
    {
      FlatStep(deps, i, DepProblems(disk, names, dir));
      var dep := deps[i];
      if dep.name !in names || disk.notSemver(dep.range) {
        continue;
      }
      var at := ResolveDep(disk, dir, dep.name);
      if at == None {
        problems := problems + [Problem(dir, dep.name, dep.range, Unresolved)];
        continue;
      }
      var version := VersionAt(disk, at.value);
      if !disk.satisfies(version, dep.range) {
        problems := problems + [Problem(dir, dep.name, dep.range, WrongVersion(at.value, version))];
      }
    }
    assert deps[..|deps|] == deps;
  }

  // --- what is reported ----------------------------------------------------

  /** p is the problem that this dependency of the folder `dir` has. */
  ghost predicate Explains(disk: Disk, names: set<Dir>, dir: Dir, dep: Dep, p: Problem) {
    FaultOf(disk, names, dir, dep) == Some(p.fault) && p == Problem(dir, dep.name, dep.range, p.fault)
  }

  /** The version that a folder's manifest states, or a question mark. */
  ghost predicate StatesVersion(disk: Disk, at: Dir, version: string) {
    match disk.manifest(at)
    case Some(Pkg(Some(v), _)) => version == v
    case _ => version == "?"
  }

  /**
   * p is what is wrong with one dependency of a bundled package: the dependency is bundled too, its range is
   * a semver range, and the nearest folder that provides it is missing or states a version outside the range.
   */
  ghost predicate Violates(disk: Disk, dirs: seq<Bundled>, b: Bundled, dep: Dep, p: Problem) {
    var dir := b.parent + ["node_modules"] + b.name;
    && b in dirs
    && disk.manifest(dir).Some? && dep in disk.manifest(dir).value.dependencies
    && (exists c :: c in dirs && c.name == dep.name) && !disk.notSemver(dep.range)
    && p.dir == dir && p.dep == dep.name && p.range == dep.range
    && match p.fault
       case Unresolved => Resolve(disk, dir, dep.name) == None
       case WrongVersion(at, version) =>
         && Resolve(disk, dir, dep.name) == Some(at)
         && StatesVersion(disk, at, version) && !disk.satisfies(version, dep.range)
  }

  /** The same through the fault that the scan computes. */
  ghost predicate Faulty(disk: Disk, dirs: seq<Bundled>, b: Bundled, dep: Dep, p: Problem) {
    b in dirs && dep in DepsOf(disk, PathOf(b)) && Explains(disk, Names(dirs), PathOf(b), dep, p)
  }

  lemma FaultMeaning(disk: Disk, dirs: seq<Bundled>, b: Bundled, dep: Dep, p: Problem)
    ensures Faulty(disk, dirs, b, dep, p) <==> Violates(disk, dirs, b, dep, p)
  {
    hide Resolve;
    assert dep.name in Names(dirs) <==> exists c :: c in dirs && c.name == dep.name by {
      assert forall c :: c in dirs <==> exists i :: 0 <= i < |dirs| && dirs[i] == c;
    }
    forall at, version
      ensures StatesVersion(disk, at, version) <==> version == VersionAt(disk, at)
    {
    }
    hide Names, VersionAt, StatesVersion;
  }

  lemma DepReported(disk: Disk, names: set<Dir>, dir: Dir, deps: seq<Dep>, p: Problem)
    ensures p in Flat(deps, DepProblems(disk, names, dir)) <==>
            exists dep :: dep in deps && Explains(disk, names, dir, dep, p)
  {
    hide FaultOf;
    FlatMember(deps, DepProblems(disk, names, dir), p);
    if i :| 0 <= i < |deps| && p in DepProblems(disk, names, dir)(deps[i]) {
      assert Explains(disk, names, dir, deps[i], p);
    }
    if dep :| dep in deps && Explains(disk, names, dir, dep, p) {
      var i :| 0 <= i < |deps| && deps[i] == dep;
      assert p in DepProblems(disk, names, dir)(deps[i]);
    }
  }

  lemma ReportedIffFaulty(disk: Disk, dirs: seq<Bundled>, p: Problem)
    ensures p in Problems(disk, dirs) <==> exists b, dep :: Faulty(disk, dirs, b, dep, p)
  {
    hide FaultOf, DepProblems, Names, Flat, PathOf, DepsOf, Explains;
    var names := Names(dirs);
    FlatMember(dirs, DirProblems(disk, names), p);
    forall i | 0 <= i < |dirs|
      ensures p in DirProblems(disk, names)(dirs[i]) <==> exists dep :: Faulty(disk, dirs, dirs[i], dep, p)
    {
      var dir := PathOf(dirs[i]);
      DepReported(disk, names, dir, DepsOf(disk, dir), p);
      if dep :| dep in DepsOf(disk, dir) && Explains(disk, names, dir, dep, p) {
        assert Faulty(disk, dirs, dirs[i], dep, p);
      }
    }
    if b, dep :| Faulty(disk, dirs, b, dep, p) {
      var i :| 0 <= i < |dirs| && dirs[i] == b;
      assert Faulty(disk, dirs, dirs[i], dep, p);
    }
  }

  /** A problem is reported exactly for the violating (package, dependency) pairs. */
  lemma ReportedIffViolating(disk: Disk, dirs: seq<Bundled>, p: Problem)
    ensures p in Problems(disk, dirs) <==> exists b, dep :: Violates(disk, dirs, b, dep, p)
  {
    hide Problems, Violates, Faulty;
    ReportedIffFaulty(disk, dirs, p);
    forall b, dep
      ensures Faulty(disk, dirs, b, dep, p) <==> Violates(disk, dirs, b, dep, p)
    {
      FaultMeaning(disk, dirs, b, dep, p);
    }
  }

  /** Bundling more packages on the same disk never removes a problem. */
  lemma MoreBundledMoreProblems(disk: Disk, fewer: seq<Bundled>, more: seq<Bundled>, p: Problem)
    requires forall b :: b in fewer ==> b in more
    requires p in Problems(disk, fewer)
    ensures p in Problems(disk, more)
  {
    hide Resolve, Problems, DepsOf, PathOf;
    ReportedIffFaulty(disk, fewer, p);
    var b, dep :| Faulty(disk, fewer, b, dep, p);
    forall n | n in Names(fewer)
      ensures n in Names(more)
    {
      var i :| 0 <= i < |fewer| && fewer[i].name == n;
      assert fewer[i] in more;
    }
    assert Faulty(disk, more, b, dep, p);
    ReportedIffFaulty(disk, more, p);
  }

  ghost predicate OnePerPair(problems: seq<Problem>) {
    forall i, j :: 0 <= i < j < |problems| ==> problems[i].dir != problems[j].dir || problems[i].dep != problems[j].dep
  }

  lemma {:induction false} OnePerDep(disk: Disk, names: set<Dir>, dir: Dir, deps: seq<Dep>)
    requires forall i, j :: 0 <= i < j < |deps| ==> deps[i].name != deps[j].name
    ensures OnePerPair(Flat(deps, DepProblems(disk, names, dir)))
    ensures forall p :: p in Flat(deps, DepProblems(disk, names, dir)) ==> p.dir == dir
  {
    hide FaultOf;
    if deps != [] {
      var n := |deps| - 1;
      OnePerDep(disk, names, dir, deps[..n]);
      forall p | p in Flat(deps[..n], DepProblems(disk, names, dir))
        ensures p.dep != deps[n].name
      {
        DepReported(disk, names, dir, deps[..n], p);
      }
    }
  }

  /** At most one problem per (package, dependency) pair: folders are distinct, and so are a manifest's keys. */
  lemma {:induction false} OneProblemPerPair(disk: Disk, names: set<Dir>, dirs: seq<Bundled>)
    requires forall i, j :: 0 <= i < j < |dirs| ==> PathOf(dirs[i]) != PathOf(dirs[j])
    requires forall b :: b in dirs ==>
      var deps := DepsOf(disk, PathOf(b));
      forall i, j :: 0 <= i < j < |deps| ==> deps[i].name != deps[j].name
    ensures OnePerPair(Flat(dirs, DirProblems(disk, names)))
    ensures forall p :: p in Flat(dirs, DirProblems(disk, names)) ==>
      exists i :: 0 <= i < |dirs| && p.dir == PathOf(dirs[i])
  {
    if dirs != [] {
      hide DepProblems, PathOf, DepsOf;
      var n := |dirs| - 1;
      OneProblemPerPair(disk, names, dirs[..n]);
      OnePerDep(disk, names, PathOf(dirs[n]), DepsOf(disk, PathOf(dirs[n])));
      assert forall i :: 0 <= i < n ==> dirs[..n][i] == dirs[i];
    }
  }
}
