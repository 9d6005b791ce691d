/** Which workspace crates a set of changed files affects: the changed crates and all that depend on them. */
module AffectedCrates {
  import opened Basics

  datatype Package = Package(name: string, dependencies: seq<string>)

  /** Package name to the names of the workspace packages that depend on it. */
  type ReverseDeps = map<string, set<string>>

  function Names(packages: seq<Package>): set<string> {
    set p | p in packages :: p.name
  }

  /** The workspace members are the packages, by name. */
  lemma NamesIff(packages: seq<Package>, name: string)
    ensures name in Names(packages) <==> exists p :: p in packages && p.name == name
  {
  }

  // ---- Reverse dependencies ----

  /** Whether some package called `user` lists `used`, restricted to workspace members. */
  ghost predicate DependsOn(packages: seq<Package>, user: string, used: string) {
    && used in Names(packages)
    && exists p :: p in packages && p.name == user && used in p.dependencies
  }

  predicate Edge(reverse: ReverseDeps, user: string, used: string) {
    used in reverse && user in reverse[used]
  }

  function AddEdge(reverse: ReverseDeps, user: string, used: string): ReverseDeps {
    reverse[used := (if used in reverse then reverse[used] else {}) + {user}]
  }

  lemma AddEdgeAddsOne(reverse: ReverseDeps, user: string, used: string)
    ensures forall x, y :: Edge(AddEdge(reverse, user, used), x, y) <==> Edge(reverse, x, y) || (x == user && y == used)
  {
  }

  /** The reverse graph is exactly the inverse of the dependency relation within the workspace. */
  method BuildReverseDeps(packages: seq<Package>) returns (reverse: ReverseDeps)
    ensures forall user, used :: Edge(reverse, user, used) <==> DependsOn(packages, user, used)
    ensures forall used :: used in reverse ==> reverse[used] != {}
  {
    var names := Names(packages);
    reverse := map[];
    for i := 0 to |packages|
      invariant forall used :: used in reverse ==> reverse[used] != {}
      invariant forall user, used :: Edge(reverse, user, used) <==>
                  used in names && exists p :: p in packages[..i] && p.name == user && used in p.dependencies
    {
      var pkg := packages[i];
      ghost var before := reverse;
      for j := 0 to |pkg.dependencies|
        invariant forall used :: used in reverse ==> reverse[used] != {}
        invariant forall user, used :: Edge(reverse, user, used) <==>
                    || Edge(before, user, used)
                    || (used in names && user == pkg.name && used in pkg.dependencies[..j])
      {
        if pkg.dependencies[j] in names {
          AddEdgeAddsOne(reverse, pkg.name, pkg.dependencies[j]);
          reverse := AddEdge(reverse, pkg.name, pkg.dependencies[j]);
        }
        assert pkg.dependencies[..j + 1] == pkg.dependencies[..j] + [pkg.dependencies[j]];
      }
      assert packages[..i + 1] == packages[..i] + [pkg];
    }
    assert packages[..|packages|] == packages;
  }

  // ---- The worklist ----

  /** A chain in which every package uses the next one. */
  ghost predicate IsPath(reverse: ReverseDeps, path: seq<string>) {
    |path| > 0 && forall i :: 0 <= i < |path| - 1 ==> Edge(reverse, path[i], path[i + 1])
  }

  ghost predicate PathTo(reverse: ReverseDeps, path: seq<string>, from: string, targets: set<string>) {
    IsPath(reverse, path) && path[0] == from && path[|path| - 1] in targets
  }

  /** Whether some chain of dependencies leads from a package to one of the targets. */
  ghost predicate Reaches(reverse: ReverseDeps, from: string, targets: set<string>) {
    exists path :: PathTo(reverse, path, from, targets)
  }

  lemma ReachesSelf(reverse: ReverseDeps, x: string, targets: set<string>)
    requires x in targets
    ensures Reaches(reverse, x, targets)
  {
    assert PathTo(reverse, [x], x, targets);
  }

  lemma ReachesStep(reverse: ReverseDeps, user: string, used: string, targets: set<string>)
    requires Edge(reverse, user, used) && Reaches(reverse, used, targets)
    ensures Reaches(reverse, user, targets)
  {
    var path :| PathTo(reverse, path, used, targets);
    assert PathTo(reverse, [user] + path, user, targets);
  }

  ghost predicate Closed(reverse: ReverseDeps, nodes: set<string>) {
    forall user, used :: used in nodes && Edge(reverse, user, used) ==> user in nodes
  }

  /** Only what still waits in the queue may have users that are missing. */
  ghost predicate ClosedExcept(reverse: ReverseDeps, nodes: set<string>, queue: seq<string>) {
    forall user, used :: used in nodes && used !in queue && Edge(reverse, user, used) ==> user in nodes
  }

  lemma StillClosed(reverse: ReverseDeps, nodes: set<string>, queue: seq<string>, more: set<string>,
                    rest: seq<string>, done: string)
    requires ClosedExcept(reverse, nodes, queue) && nodes <= more
    requires forall x :: x in queue ==> x in rest || x == done
    requires forall x :: x in more && x !in nodes ==> x in rest
    requires forall user :: Edge(reverse, user, done) ==> user in more
    ensures ClosedExcept(reverse, more, rest)
  {
  }

  lemma {:induction false} ClosedHoldsPaths(reverse: ReverseDeps, nodes: set<string>, targets: set<string>,
                                            path: seq<string>)
    requires Closed(reverse, nodes) && targets <= nodes
    requires IsPath(reverse, path) && path[|path| - 1] in targets
    ensures path[0] in nodes
  {
    if |path| > 1 {
      ClosedHoldsPaths(reverse, nodes, targets, path[1..]);
    }
  }

  /** Everything the worklist could ever reach. */
  ghost function Universe(changed: set<string>, reverse: ReverseDeps): set<string> {
    changed + set used, user | used in reverse && user in reverse[used] :: user
  }

  /** A list of the elements of a set, in whatever order the set yields them. */
  method ListOf(elements: set<string>) returns (list: seq<string>)
    ensures forall x :: x in list <==> x in elements
  {
    list := [];
    var left := elements;
    while left != {}
      invariant left <= elements
      invariant forall x :: x in list <==> x in elements - left
    {
      var x :| x in left;
      list := list + [x];
      left := left - {x};
    }
  }

  /** Adds the packages not seen before to the affected ones and queues them. */
  method VisitAll(rdeps: set<string>, seen: set<string>, waiting: seq<string>)
    returns (affected: set<string>, queue: seq<string>)
    ensures affected == seen + rdeps
    ensures waiting <= queue && (rdeps <= seen ==> queue == waiting)
    ensures forall x :: x in queue <==> x in waiting || x in rdeps - seen
  {
    affected, queue := seen, waiting;
    var left := rdeps;
    while left != {}
      invariant left <= rdeps && affected == seen + (rdeps - left)
      invariant waiting <= queue && (affected == seen ==> queue == waiting)
      invariant forall x :: x in queue <==> x in waiting || x in rdeps - left - seen
    {
      var rdep :| rdep in left;
      left := left - {rdep};
      if rdep !in affected {
        affected := affected + {rdep};
        queue := queue + [rdep];
      }
    }
  }

  function Rdeps(reverse: ReverseDeps, used: string): set<string> {
    if used in reverse then reverse[used] else {}
  }

  /** Between two rounds: only packages that reach a change are affected, and what is missing hangs off the queue. */
  ghost predicate Progress(reverse: ReverseDeps, changed: set<string>, affected: set<string>, queue: seq<string>) {
    && changed <= affected <= Universe(changed, reverse)
    && (forall x :: x in queue ==> x in affected)
    && (forall x :: x in affected ==> Reaches(reverse, x, changed))
    && ClosedExcept(reverse, affected, queue)
  }

  lemma RoundKeepsProgress(reverse: ReverseDeps, changed: set<string>, seen: set<string>, queue: seq<string>,
                           crate: string, rest: seq<string>)
    requires Progress(reverse, changed, seen, queue) && crate in seen
    requires forall x :: x in queue ==> x in rest || x == crate
    requires forall x :: x in rest ==> x in queue || x in Rdeps(reverse, crate)
    requires forall x :: x in Rdeps(reverse, crate) - seen ==> x in rest
    ensures Progress(reverse, changed, seen + Rdeps(reverse, crate), rest)
  {
    forall x | x in Rdeps(reverse, crate) ensures Reaches(reverse, x, changed) {
      ReachesStep(reverse, x, crate, changed);
    }
    StillClosed(reverse, seen, queue, seen + Rdeps(reverse, crate), rest, crate);
  }

  lemma ProgressIsCorrect(reverse: ReverseDeps, changed: set<string>, affected: set<string>)
    requires Progress(reverse, changed, affected, [])
    ensures forall x :: x in affected <==> Reaches(reverse, x, changed)
  {
    assert Closed(reverse, affected);
    forall x | Reaches(reverse, x, changed) ensures x in affected {
      var path :| PathTo(reverse, path, x, changed);
      ClosedHoldsPaths(reverse, affected, changed, path);
    }
  }

  /** Exactly the packages from which a chain of dependencies leads to a changed one. */
  method TransitiveRdeps(changed: set<string>, reverse: ReverseDeps) returns (affected: set<string>)
    ensures forall x :: x in affected <==> Reaches(reverse, x, changed)
  {
    affected := changed;
    var queue := ListOf(changed);
    forall x | x in changed ensures Reaches(reverse, x, changed) {
      ReachesSelf(reverse, x, changed);
    }
    while queue != []
      invariant Progress(reverse, changed, affected, queue)
      decreases Universe(changed, reverse) - affected, |queue|
    {
      var crate := queue[|queue| - 1];
      ghost var before, waiting := affected, queue;
      assert queue == queue[..|queue| - 1] + [crate];
      affected, queue := VisitAll(Rdeps(reverse, crate), affected, queue[..|queue| - 1]);
      RoundKeepsProgress(reverse, changed, before, waiting, crate, queue);
    }
    ProgressIsCorrect(reverse, changed, affected);
  }

  // ---- From changed files to crates ----

  predicate StartsWith(s: string, prefix: string) {
    prefix <= s
  }

  const ROOT_PATTERNS: seq<string> := [
    "Cargo.toml", "Cargo.lock", ".cargo/", "rust-toolchain.toml", "Justfile", "etc/just/build.just",
    "etc/just/check.just", "etc/scripts/local/affected-crates.py", ".github/actions/setup/"]

  /** Whether a file belongs to the build of the whole workspace. */
  predicate IsRootFile(patterns: seq<string>, file: string) {
    exists p :: p in patterns && StartsWith(file, p)
  }

  predicate Inside(file: string, dir: string) {
    StartsWith(file, dir + "/") || file == dir
  }

  /** A file is inside a directory if its path is the directory's, or continues it after a slash. */
  lemma InsideIff(file: string, dir: string)
    ensures Inside(file, dir) <==> file == dir || exists rest :: file == dir + "/" + rest
  {
    if StartsWith(file, dir + "/") {
      assert file == dir + "/" + file[|dir| + 1..];
    }
    forall rest | file == dir + "/" + rest ensures Inside(file, dir) {
      assert dir + "/" <= file;
    }
  }

  lemma RootFileIff(patterns: seq<string>, file: string)
    ensures IsRootFile(patterns, file) <==> exists p, rest :: p in patterns && file == p + rest
  {
    if IsRootFile(patterns, file) {
      var p :| p in patterns && StartsWith(file, p);
      assert file == p + file[|p|..];
    }
    forall p, rest | p in patterns && file == p + rest ensures IsRootFile(patterns, file) {
      assert StartsWith(file, p);
    }
  }

  /** The crate of the longest directory that contains the file. */
  ghost predicate Owns(dirs: map<string, string>, file: string, crate: string) {
    exists d :: IsLongest(dirs, file, d) && dirs[d] == crate
  }

  ghost predicate IsLongest(dirs: map<string, string>, file: string, dir: string) {
    && dir in dirs && Inside(file, dir)
    && forall e :: e in dirs && Inside(file, e) ==> |e| <= |dir|
  }

  /** The directories longest first, ties in any order. */
  ghost predicate LongestFirst(sorted: seq<string>, dirs: map<string, string>) {
    && (forall d :: d in sorted <==> d in dirs)
    && (forall i, j :: 0 <= i < j < |sorted| ==> |sorted[i]| >= |sorted[j]|)
  }

  /** At most one directory is the longest: two of equal length that contain the same file are the same. */
  lemma LongestIsUnique(dirs: map<string, string>, file: string, d: string, e: string)
    requires IsLongest(dirs, file, d) && IsLongest(dirs, file, e)
    ensures d == e
  {
    assert d == file[..|d|] && e == file[..|e|];
  }

  /** Finds the crate of a file by scanning the sorted directories up to the first match. */
  method CrateOf(file: string, sorted: seq<string>, dirs: map<string, string>) returns (crate: Option<string>)
    requires LongestFirst(sorted, dirs)
    ensures forall c :: crate == Some(c) <==> Owns(dirs, file, c)
  {
    for i := 0 to |sorted|
      invariant forall j :: 0 <= j < i ==> !Inside(file, sorted[j])
    {
      if Inside(file, sorted[i]) {
        assert IsLongest(dirs, file, sorted[i]);
        forall c | Owns(dirs, file, c) ensures c == dirs[sorted[i]] {
          var d :| IsLongest(dirs, file, d) && dirs[d] == c;
          LongestIsUnique(dirs, file, d, sorted[i]);
        }
        return Some(dirs[sorted[i]]);
      }
    }
    return None;
  }

  /** Whether a change to these files changes a crate: through a root file, or by owning one of them. */
  ghost predicate IsChanged(patterns: seq<string>, files: seq<string>, names: set<string>, dirs: map<string, string>,
                            crate: string)
  {
    if exists f :: f in files && IsRootFile(patterns, f) then crate in names
    else exists f :: f in files && Owns(dirs, f, crate)
  }

  method ChangedCrates(patterns: seq<string>, files: seq<string>, names: set<string>, sorted: seq<string>,
                       dirs: map<string, string>)
    returns (changed: set<string>)
    requires LongestFirst(sorted, dirs)
    ensures forall c :: c in changed <==> IsChanged(patterns, files, names, dirs, c)
  {
    changed := {};
    for i := 0 to |files|
      invariant forall f :: f in files[..i] ==> !IsRootFile(patterns, f)
      invariant forall c :: c in changed <==> exists f :: f in files[..i] && Owns(dirs, f, c)
    {
      assert files[..i + 1] == files[..i] + [files[i]];
      if IsRootFile(patterns, files[i]) {
        assert files[i] in files;
        return names;
      }
      var crate := CrateOf(files[i], sorted, dirs);
      if crate.Some? {
        changed := changed + {crate.value};
      }
    }
    assert files[..|files|] == files;
  }

  /** A chain of workspace dependencies from a package to a crate that the files change. */
  ghost predicate IsDependencyPath(packages: seq<Package>, files: seq<string>, dirs: map<string, string>,
                                   path: seq<string>, from: string)
  {
    && |path| > 0 && path[0] == from
    && (forall i :: 0 <= i < |path| - 1 ==> DependsOn(packages, path[i], path[i + 1]))
    && IsChanged(ROOT_PATTERNS, files, Names(packages), dirs, path[|path| - 1])
  }

  /**
   * The reported crates are exactly the workspace members, minus the excluded ones, from which a chain of
   * workspace dependencies leads to a crate the files change.
   */
  method AffectedBy(files: seq<string>, packages: seq<Package>, sorted: seq<string>, dirs: map<string, string>,
                    exclude: set<string>)
    returns (affected: set<string>)
    requires LongestFirst(sorted, dirs)
    ensures forall x :: x in affected <==>
              && x in Names(packages) && x !in exclude
              && exists path :: IsDependencyPath(packages, files, dirs, path, x)
  {
    var names := Names(packages);
    var changed := ChangedCrates(ROOT_PATTERNS, files, names, sorted, dirs);
    if changed == {} {
      return {};
    }
    var reverse := BuildReverseDeps(packages);
    affected := TransitiveRdeps(changed, reverse);
    affected := affected * names - exclude;
    forall x, path
      ensures PathTo(reverse, path, x, changed) <==> IsDependencyPath(packages, files, dirs, path, x)
    {
    }
  }
}
