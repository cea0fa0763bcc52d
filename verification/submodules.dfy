/** The second pass of the discovery engine (`filter_submodules` with
    `is_submodule`): a project whose `.git` is a link file pointing at a
    git directory elsewhere is a submodule or worktree and is dropped;
    every other project is kept. */
module Submodules {
  import opened Wrappers
  import opened FsTree
  import opened Text
  import opened RepoWalk

  /** The text a `.git` link file starts with. */
  const GitdirPrefix: string := "gitdir:"

  /** `content` is whitespace up to index `k`, and `gitdir:` follows. */
  predicate GitdirAt(content: string, k: nat) {
    && k <= |content|
    && (forall i :: 0 <= i < k ==> IsWhitespace(content[i]))
    && StartsWith(content[k..], GitdirPrefix)
  }

  /** A `.git` link file's content: after any leading whitespace, it
      begins with `gitdir:`. */
  ghost predicate IsGitdirLink(content: string) {
    exists k: nat :: GitdirAt(content, k)
  }

  /** `is_submodule`: `.git` is a regular file that can be read as text,
      and its trimmed content starts with `gitdir:`. A missing `.git`, a
      `.git` directory and an unreadable `.git` file all answer false. */
  predicate IsSubmodule(fs: Node, projectPath: Path)
    ensures IsSubmodule(fs, projectPath) <==>
            match Lookup(fs, projectPath + [".git"])
            case Some(File(Some(content))) => IsGitdirLink(content)
            case _ => false
  {
    match Lookup(fs, projectPath + [".git"])
    case Some(File(Some(content))) =>
      TrimmedGitdirIff(content);
      StartsWith(Trim(content), GitdirPrefix)
    case _ => false
  }

  /** When `gitdir:` follows the whitespace prefix ending at `k`, trimming
      the start removes exactly that prefix. */
  lemma TrimStartAtGitdir(content: string, k: nat)
    requires GitdirAt(content, k)
    ensures TrimStart(content) == content[k..]
  {
    assert content[k..][0] == 'g';
    TrimStartAt(content, k);
  }

  /** Trimming the end keeps a leading `gitdir:`, whose last character is
      not whitespace. */
  lemma TrimEndKeepsGitdir(t: string)
    requires StartsWith(t, GitdirPrefix)
    ensures StartsWith(TrimEnd(t), GitdirPrefix)
  {
  }

  /** Trimming both ends, then testing the prefix, is testing the prefix
      after the leading whitespace: trailing whitespace cannot matter,
      because `gitdir:` ends in a non-whitespace character. */
  lemma TrimmedGitdirIff(content: string)
    ensures StartsWith(Trim(content), GitdirPrefix) <==> IsGitdirLink(content)
  {
    var t := TrimStart(content);
    var m := |content| - |t|;
    if StartsWith(Trim(content), GitdirPrefix) {
      var r := TrimEnd(t);
      assert r[..|GitdirPrefix|] == t[..|GitdirPrefix|];
      assert GitdirAt(content, m);
    }
    if IsGitdirLink(content) {
      var k: nat :| GitdirAt(content, k);
      TrimStartAtGitdir(content, k);
      TrimEndKeepsGitdir(t);
    }
  }

  /** The filter: the projects that are not submodules. */
  function FilterSubmodules(fs: Node, projects: set<GitProject>): (kept: set<GitProject>)
    ensures kept <= projects
    ensures forall p :: p in projects ==> (p in kept <==> !IsSubmodule(fs, p.fullPath))
  {
    set p | p in projects && !IsSubmodule(fs, p.fullPath)
  }

  /** A project survives the filter exactly when its `.git` is not a
      readable file whose content, past leading whitespace, begins with
      `gitdir:`; a `.git` directory, an unreadable `.git` file and a missing
      `.git` always keep the project. */
  lemma FilterKeepsExactly(fs: Node, projects: set<GitProject>, p: GitProject)
    requires p in projects
    ensures p in FilterSubmodules(fs, projects) <==>
            match Lookup(fs, p.fullPath + [".git"])
            case Some(File(Some(content))) => !IsGitdirLink(content)
            case _ => true
  {
    match Lookup(fs, p.fullPath + [".git"])
    case Some(File(Some(content))) =>
      TrimmedGitdirIff(content);
    case _ =>
  }
}
