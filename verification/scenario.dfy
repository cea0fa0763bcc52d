/** The worked example of the discovery engine: a root holding a plain
    repository, a repository hidden under an ignored `node_modules`, a
    submodule link and a repository one level down; the walk finds three
    of them and the submodule filter drops the link. */
module Scenario {
  import opened Wrappers
  import opened FsTree
  import opened Text
  import opened FinderConfig
  import opened RepoWalk
  import opened Submodules
  import opened Finder

  /** A directory holding nothing but a `.git` directory. */
  function PlainRepo(): Node {
    Dir(map[".git" := Dir(map[])])
  }

  /** `root/{a/.git/, b/node_modules/x/.git/, c/.git (a link file), d/e/.git/}` */
  function ExampleRoot(): Node {
    Dir(map[
      "a" := PlainRepo(),
      "b" := Dir(map["node_modules" := Dir(map["x" := PlainRepo()])]),
      "c" := Dir(map[".git" := File(Some("gitdir: ../x"))]),
      "d" := Dir(map["e" := PlainRepo()])
    ])
  }

  function ExampleFs(): Node {
    Dir(map["root" := ExampleRoot()])
  }

  /** The builder chain the example uses: no ignore list from the launcher,
      then `node_modules` ignored and the depth limit lifted. */
  function ExampleFinder(): GitProjectFinder {
    Build(UnlimitedDepth(IgnoreDir(NewBuilder([], 0, 4), "node_modules")))
  }

  /** `node_modules` ignored, no depth limit. */
  function ExampleConfigValue(): GitFinderConfig {
    GitFinderConfig({"node_modules"}, None, 4)
  }

  /** The builder chain yields exactly that configuration. */
  lemma ExampleConfig()
    ensures ExampleFinder().config == ExampleConfigValue()
  {
  }

  /** The entry `a` is reported. */
  lemma VisitA()
    ensures Visit(ExampleConfigValue(), "a", PlainRepo(), ["root"], 0) == {GitProject(["root", "a"], "a")}
  {
    assert Lookup(PlainRepo(), [".git"]) == Some(Dir(map[]));
    assert ["root"] + ["a"] == ["root", "a"];
  }

  /** The entry `c` is reported: a `.git` file marks a repository too. */
  lemma VisitC()
    ensures Visit(ExampleConfigValue(), "c", ExampleRoot().entries["c"], ["root"], 0) == {GitProject(["root", "c"], "c")}
  {
    assert Lookup(ExampleRoot().entries["c"], [".git"]) == Some(File(Some("gitdir: ../x")));
    assert ["root"] + ["c"] == ["root", "c"];
  }

  /** Nothing under `b`: its only child is ignored. */
  lemma ScanB()
    ensures Scan(ExampleConfigValue(), ExampleRoot().entries["b"], ["root", "b"], 1) == {}
  {
  }

  /** Under `d`, the repository `e` is reported. */
  lemma ScanD()
    ensures Scan(ExampleConfigValue(), ExampleRoot().entries["d"], ["root", "d"], 1) == {GitProject(["root", "d", "e"], "e")}
  {
    var dNode := ExampleRoot().entries["d"];
    assert dNode.entries.Keys == {"e"};
    assert Lookup(PlainRepo(), [".git"]) == Some(Dir(map[]));
    assert ["root", "d"] + ["e"] == ["root", "d", "e"];
    assert Visit(ExampleConfigValue(), "e", dNode.entries["e"], ["root", "d"], 1) == {GitProject(["root", "d", "e"], "e")};
  }

  /** At the root, `b` is an ordinary directory whose scan finds nothing. */
  lemma VisitB()
    ensures Visit(ExampleConfigValue(), "b", ExampleRoot().entries["b"], ["root"], 0) == {}
  {
    ScanB();
    assert !IsGitRepository(ExampleRoot().entries["b"]);
    assert ["root"] + ["b"] == ["root", "b"];
  }

  /** At the root, `d` is an ordinary directory whose scan finds `d/e`. */
  lemma VisitD()
    ensures Visit(ExampleConfigValue(), "d", ExampleRoot().entries["d"], ["root"], 0) == {GitProject(["root", "d", "e"], "e")}
  {
    ScanD();
    assert !IsGitRepository(ExampleRoot().entries["d"]);
    assert ["root"] + ["d"] == ["root", "d"];
  }

  /** The projects the example's root scan is expected to report. */
  function RootFound(): set<GitProject> {
    {GitProject(["root", "a"], "a"), GitProject(["root", "c"], "c"), GitProject(["root", "d", "e"], "e")}
  }

  /** Every project of the root scan comes from one of the four entries. */
  lemma ScanRootWithin(p: GitProject)
    requires p in Scan(ExampleConfigValue(), ExampleRoot(), ["root"], 0)
    ensures p in RootFound()
  {
    var config := ExampleConfigValue();
    var entries := ExampleRoot().entries;
    var name :| name in entries && p in Visit(config, name, entries[name], ["root"], 0);
    assert name in {"a", "b", "c", "d"};
    if name == "a" {
      VisitA();
    } else if name == "b" {
      VisitB();
    } else if name == "c" {
      VisitC();
    } else {
      VisitD();
    }
  }

  /** The visits of `a`, `c` and `d` each put their project in the root
      scan. */
  lemma ScanRootCovers()
    ensures RootFound() <= Scan(ExampleConfigValue(), ExampleRoot(), ["root"], 0)
  {
    var config := ExampleConfigValue();
    var entries := ExampleRoot().entries;
    VisitA();
    VisitC();
    VisitD();
    assert entries["a"] == PlainRepo();
    assert GitProject(["root", "a"], "a") in Visit(config, "a", entries["a"], ["root"], 0);
    assert GitProject(["root", "c"], "c") in Visit(config, "c", entries["c"], ["root"], 0);
    assert GitProject(["root", "d", "e"], "e") in Visit(config, "d", entries["d"], ["root"], 0);
  }

  /** The root scan is the union of its four entries' visits. */
  lemma ScanRoot()
    ensures Scan(ExampleConfigValue(), ExampleRoot(), ["root"], 0) == RootFound()
  {
    ScanRootCovers();
    forall p | p in Scan(ExampleConfigValue(), ExampleRoot(), ["root"], 0)
      ensures p in RootFound()
    {
      ScanRootWithin(p);
    }
  }

  /** The walk reports `a`, the link directory `c`, and `d/e`. */
  lemma ExampleWalk()
    ensures Walk(ExampleConfigValue(), ExampleFs(), ["root"]) == RootFound()
  {
    ScanRoot();
    assert Lookup(ExampleFs(), ["root"]) == Some(ExampleRoot());
  }

  /** The `.git` entry of each reported directory. */
  lemma MarkerC()
    ensures Lookup(ExampleFs(), ["root", "c"] + [".git"]) == Some(File(Some("gitdir: ../x")))
  {
    assert ["root", "c"] + [".git"] == ["root", "c", ".git"];
    assert Lookup(ExampleFs(), ["root", "c", ".git"]) == Some(File(Some("gitdir: ../x")));
  }

  lemma MarkerA()
    ensures Lookup(ExampleFs(), ["root", "a"] + [".git"]) == Some(Dir(map[]))
  {
    assert ["root", "a"] + [".git"] == ["root", "a", ".git"];
    assert Lookup(ExampleFs(), ["root", "a", ".git"]) == Some(Dir(map[]));
  }

  lemma MarkerDE()
    ensures Lookup(ExampleFs(), ["root", "d", "e"] + [".git"]) == Some(Dir(map[]))
  {
    assert ["root", "d", "e"] + [".git"] == ["root", "d", "e", ".git"];
    assert Lookup(ExampleFs(), ["root", "d", "e", ".git"]) == Some(Dir(map[]));
  }

  /** `c`'s `.git` is a `gitdir:` link, so it is a submodule; `a` and `d/e`
      hold `.git` directories and are not. */
  lemma ExampleSubmodules()
    ensures IsSubmodule(ExampleFs(), ["root", "c"])
    ensures !IsSubmodule(ExampleFs(), ["root", "a"])
    ensures !IsSubmodule(ExampleFs(), ["root", "d", "e"])
  {
    MarkerC();
    MarkerA();
    MarkerDE();
    var link := "gitdir: ../x";
    assert link[0..][..|GitdirPrefix|] == GitdirPrefix;
    assert GitdirAt(link, 0);
  }

  /** The whole search returns exactly `a` and `d/e`. */
  lemma ExampleResult()
    ensures FindGitProjects(ExampleFinder(), ExampleFs(), ["root"])
         == Some({GitProject(["root", "a"], "a"), GitProject(["root", "d", "e"], "e")})
  {
    ExampleConfig();
    ExampleWalk();
    ExampleSubmodules();
    var walked := Walk(ExampleConfigValue(), ExampleFs(), ["root"]);
    var kept := FilterSubmodules(ExampleFs(), walked);
    assert ExampleFinder().permits == 4;
    assert FindGitProjects(ExampleFinder(), ExampleFs(), ["root"]) == Some(kept);
    assert kept == {GitProject(["root", "a"], "a"), GitProject(["root", "d", "e"], "e")};
  }
}
