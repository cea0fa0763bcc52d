/** `GitProjectFinder::find_git_projects`: the walk from one root at depth
    zero, followed by the submodule filter, and what the builder's settings
    mean for its result. */
module Finder {
  import opened Wrappers
  import opened FsTree
  import opened FinderConfig
  import opened RepoWalk
  import opened Submodules

  /** The walk of `root`; a root that cannot be listed yields nothing. */
  function Walk(config: GitFinderConfig, fs: Node, root: Path): (r: set<GitProject>)
    ensures forall p :: p in r ==> |root| < |p.fullPath| && p.fullPath[..|root|] == root
  {
    match Lookup(fs, root)
    case Some(dir) => Scan(config, dir, root, 0)
    case None => {}
  }

  /** `find_git_projects`. The root scan always passes the depth guard and
      then waits for a permit before listing anything, so a finder built
      with no permits never answers (`None`). Otherwise the answer is every
      project the walk discovers, minus the submodules. */
  function FindGitProjects(finder: GitProjectFinder, fs: Node, root: Path): (r: Option<set<GitProject>>)
    ensures r.None? <==> finder.permits == 0
    ensures r.Some? ==> forall p :: p in r.value ==> !IsSubmodule(fs, p.fullPath)
  {
    if finder.permits == 0 then None
    else Some(FilterSubmodules(fs, Walk(finder.config, fs, root)))
  }

  /** Every result lies strictly below the root (the root itself is never
      classified), is named after its last component, is a repository the
      walk reaches under the finder's settings, and is not a submodule. */
  lemma FindSound(finder: GitProjectFinder, fs: Node, root: Path, p: GitProject)
    requires FindGitProjects(finder, fs, root).Some?
    requires p in FindGitProjects(finder, fs, root).value
    ensures Lookup(fs, root).Some?
    ensures |root| < |p.fullPath| && p.fullPath[..|root|] == root
    ensures p.folderName == p.fullPath[|p.fullPath| - 1]
    ensures Reported(finder.config, Lookup(fs, root).value, p.fullPath[|root|..], 0)
    ensures !IsSubmodule(fs, p.fullPath)
  {
    ScanSound(finder.config, Lookup(fs, root).value, root, 0, p);
  }

  /** A finder with at least one permit answers, and every repository the
      walk reaches under its settings that is not a submodule is in the
      answer. */
  lemma FindComplete(finder: GitProjectFinder, fs: Node, root: Path, rel: Path)
    requires Lookup(fs, root).Some?
    requires Reported(finder.config, Lookup(fs, root).value, rel, 0)
    requires !IsSubmodule(fs, root + rel)
    ensures FindGitProjects(finder, fs, root).Some? <==> finder.permits >= 1
    ensures finder.permits >= 1 ==> GitProject(root + rel, rel[|rel| - 1]) in FindGitProjects(finder, fs, root).value
  {
    if finder.permits >= 1 {
      ScanComplete(finder.config, Lookup(fs, root).value, root, 0, rel);
    }
  }

  /** No result lies inside another: the walk does not enter a repository,
      and the filter only removes projects. */
  lemma FindNoNesting(finder: GitProjectFinder, fs: Node, root: Path, p: GitProject, q: GitProject)
    requires FindGitProjects(finder, fs, root).Some?
    requires p in FindGitProjects(finder, fs, root).value && q in FindGitProjects(finder, fs, root).value
    ensures !(|p.fullPath| < |q.fullPath| && q.fullPath[..|p.fullPath|] == p.fullPath)
  {
    FindSound(finder, fs, root, p);
    NoNesting(finder.config, Lookup(fs, root).value, root, 0, p, q);
  }

  /** After `ignore_dir(name)`, no result passes through a directory called
      `name` below the root, and none is called `name`. */
  lemma IgnoreDirPrunes(b: GitFinderConfigBuilder, name: string, fs: Node, root: Path, p: GitProject)
    requires FindGitProjects(Build(IgnoreDir(b, name)), fs, root).Some?
    requires p in FindGitProjects(Build(IgnoreDir(b, name)), fs, root).value
    ensures forall i :: |root| <= i < |p.fullPath| ==> p.fullPath[i] != name
  {
    var config := Build(IgnoreDir(b, name)).config;
    FindSound(Build(IgnoreDir(b, name)), fs, root, p);
    SkipsIgnored(config, Lookup(fs, root).value, root, 0, p);
  }

  /** After `max_depth(d)`, every result lies at most `d + 1` components
      below the root: the deepest directory listed is at depth `d`. */
  lemma MaxDepthBounds(b: GitFinderConfigBuilder, d: nat, fs: Node, root: Path, p: GitProject)
    requires FindGitProjects(Build(MaxDepth(b, d)), fs, root).Some?
    requires p in FindGitProjects(Build(MaxDepth(b, d)), fs, root).value
    ensures |p.fullPath| - |root| <= d + 1
  {
    FindSound(Build(MaxDepth(b, d)), fs, root, p);
  }

  /** After `max_depth(d)`, a repository exactly `d + 1` components below
      the root, reached through ordinary directories, is still found by a
      finder with at least one permit. */
  lemma MaxDepthReachesLimit(b: GitFinderConfigBuilder, d: nat, fs: Node, root: Path, rel: Path)
    requires Lookup(fs, root).Some?
    requires |rel| == d + 1
    requires forall i :: 0 <= i < |rel| ==> rel[i] !in b.ignoredDirs
    requires forall k :: 1 <= k < |rel| ==> IsTraversed(Lookup(Lookup(fs, root).value, rel[..k]))
    requires IsRepository(Lookup(Lookup(fs, root).value, rel))
    requires !IsSubmodule(fs, root + rel)
    ensures b.maxConcurrentTasks >= 1 ==> GitProject(root + rel, rel[d]) in FindGitProjects(Build(MaxDepth(b, d)), fs, root).value
  {
    FindComplete(Build(MaxDepth(b, d)), fs, root, rel);
  }

  /** After `unlimited_depth()`, depth never excludes a repository: one
      reached through ordinary directories is found however deep it is, by a
      finder with at least one permit. */
  lemma UnlimitedDepthReachesAll(b: GitFinderConfigBuilder, fs: Node, root: Path, rel: Path)
    requires Lookup(fs, root).Some?
    requires 1 <= |rel|
    requires forall i :: 0 <= i < |rel| ==> rel[i] !in b.ignoredDirs
    requires forall k :: 1 <= k < |rel| ==> IsTraversed(Lookup(Lookup(fs, root).value, rel[..k]))
    requires IsRepository(Lookup(Lookup(fs, root).value, rel))
    requires !IsSubmodule(fs, root + rel)
    ensures b.maxConcurrentTasks >= 1 ==> GitProject(root + rel, rel[|rel| - 1]) in FindGitProjects(Build(UnlimitedDepth(b)), fs, root).value
  {
    FindComplete(Build(UnlimitedDepth(b)), fs, root, rel);
  }
}
