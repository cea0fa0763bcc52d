/** The discovery engine's configuration (`GitFinderConfig`), its builder
    (`GitFinderConfigBuilder`) and the finder it builds (`GitProjectFinder`).
    The builder is a value: every method consumes it and returns the
    updated record. */
module FinderConfig {
  import opened Wrappers

  /** Read-only settings of one scan: base names never entered, the optional
      recursion limit, and the concurrency budget. */
  datatype GitFinderConfig = GitFinderConfig(
    ignoredDirs: set<string>,
    maxDepth: Option<nat>,
    maxConcurrentTasks: nat)

  /** The builder carries the same three fields until `Build`. */
  datatype GitFinderConfigBuilder = GitFinderConfigBuilder(
    ignoredDirs: set<string>,
    maxDepth: Option<nat>,
    maxConcurrentTasks: nat)

  /** A finder: the shared configuration and the size of its permit pool. */
  datatype GitProjectFinder = GitProjectFinder(config: GitFinderConfig, permits: nat)

  /** The names of a list, as a set (`into_iter().collect::<HashSet<_>>()`). */
  function NamesOf(names: seq<string>): (r: set<string>)
    ensures forall n :: n in r <==> n in names
  {
    set n | n in names
  }

  /** `GitFinderConfig::new`: the launcher's ignore list, a bounded depth and
      its concurrency budget. */
  function NewConfig(ignoreDirs: seq<string>, maxDepth: nat, maxConcurrentTasks: nat): (c: GitFinderConfig)
    ensures forall n :: n in c.ignoredDirs <==> n in ignoreDirs
    ensures c.maxDepth == Some(maxDepth)
    ensures c.maxConcurrentTasks == maxConcurrentTasks
  {
    GitFinderConfig(NamesOf(ignoreDirs), Some(maxDepth), maxConcurrentTasks)
  }

  /** `GitFinderConfigBuilder::new`: starts from the same values as
      `NewConfig`. */
  function NewBuilder(ignoreDirs: seq<string>, maxDepth: nat, maxConcurrentTasks: nat): (b: GitFinderConfigBuilder)
    ensures forall n :: n in b.ignoredDirs <==> n in ignoreDirs
    ensures b.maxDepth == Some(maxDepth)
    ensures b.maxConcurrentTasks == maxConcurrentTasks
  {
    GitFinderConfigBuilder(NamesOf(ignoreDirs), Some(maxDepth), maxConcurrentTasks)
  }

  /** `ignore_dir`: one more ignored name; nothing else changes. */
  function IgnoreDir(b: GitFinderConfigBuilder, dir: string): (r: GitFinderConfigBuilder)
    ensures forall n :: n in r.ignoredDirs <==> n == dir || n in b.ignoredDirs
    ensures r.maxDepth == b.maxDepth && r.maxConcurrentTasks == b.maxConcurrentTasks
  {
    b.(ignoredDirs := b.ignoredDirs + {dir})
  }

  /** `ignore_dirs`: inserts the names one after another, in list order. */
  function IgnoreDirs(b: GitFinderConfigBuilder, dirs: seq<string>): (r: GitFinderConfigBuilder)
    ensures r.ignoredDirs == b.ignoredDirs + NamesOf(dirs)
    ensures r.maxDepth == b.maxDepth && r.maxConcurrentTasks == b.maxConcurrentTasks
    decreases |dirs|
  {
    if dirs == [] then b else IgnoreDirs(IgnoreDir(b, dirs[0]), dirs[1..])
  }

  /** `max_depth`: a bounded walk. */
  function MaxDepth(b: GitFinderConfigBuilder, depth: nat): (r: GitFinderConfigBuilder)
    ensures r.maxDepth.Some? && r.maxDepth.value == depth
    ensures r.ignoredDirs == b.ignoredDirs && r.maxConcurrentTasks == b.maxConcurrentTasks
  {
    b.(maxDepth := Some(depth))
  }

  /** `unlimited_depth`: no recursion limit. */
  function UnlimitedDepth(b: GitFinderConfigBuilder): (r: GitFinderConfigBuilder)
    ensures r.maxDepth.None?
    ensures r.ignoredDirs == b.ignoredDirs && r.maxConcurrentTasks == b.maxConcurrentTasks
  {
    b.(maxDepth := None)
  }

  /** `max_concurrent_tasks`: a new concurrency budget. */
  function MaxConcurrentTasks(b: GitFinderConfigBuilder, count: nat): (r: GitFinderConfigBuilder)
    ensures r.maxConcurrentTasks == count
    ensures r.ignoredDirs == b.ignoredDirs && r.maxDepth == b.maxDepth
  {
    b.(maxConcurrentTasks := count)
  }

  /** `GitProjectFinder::new`: the permit pool is as large as the budget. */
  function NewFinder(config: GitFinderConfig): (f: GitProjectFinder)
    ensures f.config == config
    ensures f.permits == config.maxConcurrentTasks
  {
    GitProjectFinder(config, config.maxConcurrentTasks)
  }

  /** `build`: the builder's three fields, unchanged, in a new finder. */
  function Build(b: GitFinderConfigBuilder): (f: GitProjectFinder)
    ensures f.config.ignoredDirs == b.ignoredDirs
    ensures f.config.maxDepth == b.maxDepth
    ensures f.config.maxConcurrentTasks == b.maxConcurrentTasks
    ensures f.permits == b.maxConcurrentTasks
  {
    NewFinder(GitFinderConfig(b.ignoredDirs, b.maxDepth, b.maxConcurrentTasks))
  }

  /** Building a builder fresh from the launcher settings yields the same
      configuration as `GitFinderConfig::new` on those settings. */
  lemma BuilderAgreesWithNew(ignoreDirs: seq<string>, maxDepth: nat, maxConcurrentTasks: nat)
    ensures Build(NewBuilder(ignoreDirs, maxDepth, maxConcurrentTasks)).config
         == NewConfig(ignoreDirs, maxDepth, maxConcurrentTasks)
  {
  }

  /** Adding the same names twice is adding them once. */
  lemma IgnoreDirsIdempotent(b: GitFinderConfigBuilder, dirs: seq<string>)
    ensures IgnoreDirs(IgnoreDirs(b, dirs), dirs) == IgnoreDirs(b, dirs)
  {
  }

  /** Only the set of names matters, not their order or repetition. */
  lemma IgnoreDirsOrderIrrelevant(b: GitFinderConfigBuilder, dirs: seq<string>, others: seq<string>)
    requires forall n :: n in dirs <==> n in others
    ensures IgnoreDirs(b, dirs) == IgnoreDirs(b, others)
  {
  }

  /** `ignore_dirs` over a list is `ignore_dir` over each of its names. */
  lemma IgnoreDirsIsRepeatedIgnoreDir(b: GitFinderConfigBuilder, dirs: seq<string>, dir: string)
    ensures IgnoreDirs(b, dirs + [dir]) == IgnoreDir(IgnoreDirs(b, dirs), dir)
  {
  }
}
