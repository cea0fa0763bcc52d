/** The recursive directory walk of the discovery engine
    (`scan_directory_with_channel` with `is_git_repository`), as a pure
    function over a finite tree. With at least one permit, the channel,
    the permit pool and the concurrent fan-out only change the order in
    which discoveries arrive, so the walk returns the set of discovered
    projects. */
module RepoWalk {
  import opened Wrappers
  import opened FsTree
  import opened FinderConfig

  /** `GitProject`: where the repository is, and its base name. */
  datatype GitProject = GitProject(fullPath: Path, folderName: string)

  /** The depth guard at the top of every scan: only a bound that is present
      can reject, and only a depth strictly above it. */
  predicate WithinDepth(maxDepth: Option<nat>, depth: nat) {
    maxDepth.None? || depth <= maxDepth.value
  }

  /** `is_git_repository`: `dir/.git` exists and is a directory or a
      regular file. Only a readable directory can hold it, and any entry
      other than a socket-like or dangling one qualifies. */
  predicate IsGitRepository(dir: Node)
    ensures IsGitRepository(dir) <==> dir.Dir? && ".git" in dir.entries && !dir.entries[".git"].Other?
  {
    match Lookup(dir, [".git"])
    case Some(marker) => IsDirectory(marker) || marker.File?
    case None => false
  }

  /** One scan of the directory `node`, located at `path`, at recursion
      depth `depth`: every child directory is visited; a child that is not
      a readable directory contributes nothing. */
  function Scan(config: GitFinderConfig, node: Node, path: Path, depth: nat): (r: set<GitProject>)
    ensures forall p :: p in r ==>
              && |path| < |p.fullPath|
              && p.fullPath[..|path|] == path
              && p.folderName == p.fullPath[|p.fullPath| - 1]
    decreases node, 0
  {
    if !WithinDepth(config.maxDepth, depth) then {}
    else match node
      case Dir(entries) =>
        set name, p | name in entries && p in Visit(config, name, entries[name], path, depth) :: p
      case _ => {}
  }

  /** The loop body for one entry `name` of the directory at `path`:
      non-directories and ignored names are skipped, a repository is
      reported and not entered, any other directory is scanned one level
      deeper. */
  function Visit(config: GitFinderConfig, name: string, child: Node, path: Path, depth: nat): (r: set<GitProject>)
    ensures forall p :: p in r ==>
              && |path| < |p.fullPath|
              && p.fullPath[..|path| + 1] == path + [name]
              && p.folderName == p.fullPath[|p.fullPath| - 1]
    decreases child, 1
  {
    if !IsDirectory(child) then {}
    else if name in config.ignoredDirs then {}
    else if IsGitRepository(child) then {GitProject(path + [name], name)}
    else Scan(config, child, path + [name], depth + 1)
  }

  /** A node the walk enters and lists: a directory without a `.git`
      marker. */
  predicate IsTraversed(n: Option<Node>) {
    n.Some? && IsDirectory(n.value) && !IsGitRepository(n.value)
  }

  /** A node the walk reports: a directory with a `.git` marker. */
  predicate IsRepository(n: Option<Node>) {
    n.Some? && IsDirectory(n.value) && IsGitRepository(n.value)
  }

  /** The declarative description of what a scan of `dir` at depth `depth`
      reports: the directory at relative path `rel` (at least one component
      below `dir`) is a repository, no component of `rel` is an ignored
      name, every directory strictly between `dir` and it is an ordinary
      directory the walk enters, and the deepest listing needed, of its
      parent at depth `depth + |rel| - 1`, passes the depth guard. */
  ghost predicate Reported(config: GitFinderConfig, dir: Node, rel: Path, depth: nat) {
    && 1 <= |rel|
    && WithinDepth(config.maxDepth, depth + |rel| - 1)
    && (forall i :: 0 <= i < |rel| ==> rel[i] !in config.ignoredDirs)
    && (forall k :: 1 <= k < |rel| ==> IsTraversed(Lookup(dir, rel[..k])))
    && IsRepository(Lookup(dir, rel))
  }

  /** `Reported` for a single component: the child itself is a
      repository under a name that is not ignored. */
  lemma ReportedOne(config: GitFinderConfig, node: Node, name: string, depth: nat)
    requires node.Dir? && name in node.entries
    ensures Reported(config, node, [name], depth) <==>
            && WithinDepth(config.maxDepth, depth)
            && name !in config.ignoredDirs
            && IsRepository(Some(node.entries[name]))
  {
    LookupStep(node, name, []);
    assert [name] + [] == [name] && [name][..1] == [name];
  }

  /** `Reported` one component deeper: the child is an ordinary directory
      under a name that is not ignored, and the rest of the path is
      reported from the child, one level down. */
  lemma ReportedStep(config: GitFinderConfig, node: Node, name: string, rest: Path, depth: nat)
    requires node.Dir? && name in node.entries && rest != []
    ensures Reported(config, node, [name] + rest, depth) <==>
            && name !in config.ignoredDirs
            && IsTraversed(Some(node.entries[name]))
            && Reported(config, node.entries[name], rest, depth + 1)
  {
    var child := node.entries[name];
    var rel := [name] + rest;
    forall k | 1 <= k <= |rel|
      ensures Lookup(node, rel[..k]) == Lookup(child, rest[..k - 1])
    {
      assert rel[..k] == [name] + rest[..k - 1];
      LookupStep(node, name, rest[..k - 1]);
    }
    assert rel[..|rel|] == rel && rest[..|rest|] == rest;
    assert rest[..0] == [];
    assert forall i :: 0 <= i < |rest| ==> rel[i + 1] == rest[i];
    assert rel[0] == name;
    if Reported(config, node, rel, depth) {
      forall k | 1 <= k < |rest|
        ensures IsTraversed(Lookup(child, rest[..k]))
      {
        assert IsTraversed(Lookup(node, rel[..k + 1]));
      }
      assert IsTraversed(Lookup(node, rel[..1]));
    }
    if name !in config.ignoredDirs && IsTraversed(Some(child)) && Reported(config, child, rest, depth + 1) {
      forall k | 1 <= k < |rel|
        ensures IsTraversed(Lookup(node, rel[..k]))
      {
        if k > 1 {
          assert IsTraversed(Lookup(child, rest[..k - 1]));
        }
      }
      forall i | 0 <= i < |rel|
        ensures rel[i] !in config.ignoredDirs
      {
        if i > 0 {
          assert rel[i] == rest[i - 1];
        }
      }
    }
  }

  /** Soundness of the walk: every discovered project lies below the
      scanned directory, is named after its last component, and is
      described by `Reported`. */
  lemma {:induction false} ScanSound(config: GitFinderConfig, node: Node, path: Path, depth: nat, p: GitProject)
    requires p in Scan(config, node, path, depth)
    ensures |path| < |p.fullPath| && p.fullPath[..|path|] == path
    ensures p.folderName == p.fullPath[|p.fullPath| - 1]
    ensures Reported(config, node, p.fullPath[|path|..], depth)
    decreases node
  {
    var entries := node.entries;
    var name :| name in entries && p in Visit(config, name, entries[name], path, depth);
    var child := entries[name];
    var rel := p.fullPath[|path|..];
    if IsGitRepository(child) {
      assert rel == [name];
      ReportedOne(config, node, name, depth);
    } else {
      ScanSound(config, child, path + [name], depth + 1, p);
      var rest := p.fullPath[|path| + 1..];
      assert rel == [name] + rest;
      ReportedStep(config, node, name, rest, depth);
    }
  }

  /** Completeness of the walk: every directory described by `Reported` is
      discovered, under its full path and its base name. */
  lemma {:induction false} ScanComplete(config: GitFinderConfig, node: Node, path: Path, depth: nat, rel: Path)
    requires Reported(config, node, rel, depth)
    ensures GitProject(path + rel, rel[|rel| - 1]) in Scan(config, node, path, depth)
    decreases |rel|
  {
    var name := rel[0];
    var rest := rel[1..];
    assert rel == [name] + rest;
    LookupStep(node, name, rest);
    var child := node.entries[name];
    var p := GitProject(path + rel, rel[|rel| - 1]);
    if rest == [] {
      assert rel == [name];
      ReportedOne(config, node, name, depth);
      assert p == GitProject(path + [name], name);
      assert p in Visit(config, name, child, path, depth);
    } else {
      ReportedStep(config, node, name, rest, depth);
      ScanComplete(config, child, path + [name], depth + 1, rest);
      assert path + [name] + rest == path + rel;
      assert rest[|rest| - 1] == rel[|rel| - 1];
      assert IsDirectory(child) && !IsGitRepository(child) && name !in config.ignoredDirs;
      assert Visit(config, name, child, path, depth) == Scan(config, child, path + [name], depth + 1);
      assert p in Visit(config, name, child, path, depth);
    }
  }

  /** Depth bound: with a limit `D`, a project discovered by a scan started
      at depth `depth` lies at most `D - depth + 1` components below the
      scanned directory; in particular a scan started beyond the limit
      discovers nothing. */
  lemma DepthBound(config: GitFinderConfig, node: Node, path: Path, depth: nat, p: GitProject)
    requires p in Scan(config, node, path, depth)
    requires config.maxDepth.Some?
    ensures depth <= config.maxDepth.value
    ensures depth + (|p.fullPath| - |path|) - 1 <= config.maxDepth.value
  {
    ScanSound(config, node, path, depth, p);
  }

  /** Ignore-set pruning: no component of a discovered project's path below
      the scanned directory, its own base name included, is ignored. */
  lemma SkipsIgnored(config: GitFinderConfig, node: Node, path: Path, depth: nat, p: GitProject)
    requires p in Scan(config, node, path, depth)
    ensures forall i :: |path| <= i < |p.fullPath| ==> p.fullPath[i] !in config.ignoredDirs
    ensures p.folderName !in config.ignoredDirs
  {
    ScanSound(config, node, path, depth, p);
    var rel := p.fullPath[|path|..];
    forall i | |path| <= i < |p.fullPath|
      ensures p.fullPath[i] !in config.ignoredDirs
    {
      assert p.fullPath[i] == rel[i - |path|];
    }
  }

  /** No nesting: a repository is never entered, so no discovered project
      lies strictly inside another. */
  lemma NoNesting(config: GitFinderConfig, node: Node, path: Path, depth: nat, p: GitProject, q: GitProject)
    requires p in Scan(config, node, path, depth)
    requires q in Scan(config, node, path, depth)
    ensures !(|p.fullPath| < |q.fullPath| && q.fullPath[..|p.fullPath|] == p.fullPath)
  {
    ScanSound(config, node, path, depth, p);
    ScanSound(config, node, path, depth, q);
    var relP := p.fullPath[|path|..];
    var relQ := q.fullPath[|path|..];
    if |p.fullPath| < |q.fullPath| {
      // the prefix of q below the scanned directory that has p's length
      var prefixQ := relQ[..|relP|];
      assert q.fullPath[..|p.fullPath|] == p.fullPath ==> prefixQ == relP;
    }
  }

  /** An unreadable directory contributes no projects: nothing discovered
      lies at or below it. */
  lemma UnreadableContributesNothing(config: GitFinderConfig, node: Node, path: Path, depth: nat, locked: Path, p: GitProject)
    requires Lookup(node, locked) == Some(LockedDir)
    requires p in Scan(config, node, path, depth)
    ensures !(|path| + |locked| <= |p.fullPath| && p.fullPath[|path|..|path| + |locked|] == locked)
  {
    ScanSound(config, node, path, depth, p);
    if |path| + |locked| <= |p.fullPath| && p.fullPath[|path|..|path| + |locked|] == locked {
      var rel := p.fullPath[|path|..];
      var below := rel[|locked|..];
      assert rel == locked + below;
      LookupAppend(node, locked, below);
      assert false;
    }
  }
}
