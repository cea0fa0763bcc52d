# Repository discovery in git-launcher, modelled in Dafny

git-launcher finds git repositories below a configured root directory and
lists them in a search window. This project models the core of that:

- **The walk.** `scan_directory_with_channel` with `is_git_repository` lists
  one directory. It skips entries that are not directories and names in the
  ignore set. A child holding a `.git` directory or file is reported as a
  project and not entered. Every other child directory is scanned one level
  deeper. The depth guard rejects a scan only when a bound is set and the
  depth is strictly above it.
- **The submodule filter.** `filter_submodules` with `is_submodule` drops a
  project when its `.git` is a readable file whose trimmed text starts with
  `gitdir:`. Every other project is kept.
- **`find_git_projects`.** The walk from the root at depth 0, then the
  filter.
- **The configuration builder.** `GitFinderConfigBuilder`, whose methods are
  record updates, and `GitProjectFinder::new`.
- **The search box.** The name filter in the window's `InputEvent::Change`
  handler, and the `clear_search` reset.

The file system is a finite tree (`FsTree.Node`). A node is a readable
directory (a map from base name to child), an unreadable directory, a file
with optional UTF-8 content, or something else (a socket, a broken link).
Paths are sequences of base names. The walk and the filter return sets of
`GitProject` values, because the concurrent channel, the semaphore and the
`buffer_unordered` fan-out affect two things only. They decide the order in
which discoveries arrive. And with a permit pool of size 0 the search never
finishes, which `Finder.FindGitProjects` models as `None`.

Modules: `Wrappers` (Option), `FsTree` (tree, path lookup), `Text` (Rust's
`trim`, `starts_with`, `contains`), `FinderConfig` (config, builder, finder),
`RepoWalk` (the walk and its specification), `Submodules` (the filter),
`Finder` (`find_git_projects` and the builder's effect on it), `Scenario`
(a worked example), `Repos` (the `Repo` record), `Search` (the search box).

The walk's specification is `RepoWalk.Reported`. It does not recurse: it
states, through path lookups, which directories the walk must report.
`ScanSound` and `ScanComplete` prove that the walk reports exactly those.

Behaviours of the code worth stating:

- **Depth.** A directory at depth `D = max_depth` is still listed, and its
  children are classified. So with a bound `D`, repositories up to `D + 1`
  components below the root are found (`Finder.MaxDepthBounds`,
  `Finder.MaxDepthReachesLimit`).
- **Zero concurrency.** A concurrency limit of 0 is not rejected by the
  builder or by `GitProjectFinder::new`. The permit pool is then created
  with 0 permits. The root scan always passes the depth guard and then
  waits for a permit that never comes, so `find_git_projects` never returns
  (`Finder.FindGitProjects` is `None`). A scan releases its permit before
  its children are scanned, so one permit is enough for any tree. At the
  other end, a limit above tokio's `Semaphore::MAX_PERMITS` makes
  `GitProjectFinder::new` panic; the model does not bound the limit (see
  "Left out").
- **Child errors.** A child scan's error is logged and dropped. It is not
  passed up to the caller.

## Model

| member | source | states |
|---|---|---|
| `RepoWalk.IsGitRepository` | src/repo/search_repo.rs:179-185 | a directory is a repository exactly when it is a readable directory holding a `.git` entry that is a directory (readable or not) or a file; a socket-like or dangling `.git` does not count |
| `RepoWalk.Scan` | src/repo/search_repo.rs:87-176 | every project a scan reports lies strictly below the scanned path and is named after its last path component |
| `RepoWalk.Visit` | src/repo/search_repo.rs:111-141 | a project reported while handling one directory entry lies at or below that entry's path and is named after its own last component |
| `RepoWalk.ScanSound` | src/repo/search_repo.rs:87-176 | every reported project is described by `Reported`: a repository below the scanned directory, reached only through non-ignored, non-repository directories, whose parent's listing passes the depth guard |
| `RepoWalk.ScanComplete` | src/repo/search_repo.rs:110-166 | every directory described by `Reported` is reported, under its full path and its base name |
| `RepoWalk.DepthBound` | src/repo/search_repo.rs:94-98 | with a bound D, a scan at a depth above D reports nothing, and a reported project lies at most D - depth + 1 components below the scanned directory |
| `RepoWalk.SkipsIgnored` | src/repo/search_repo.rs:122-125 | no path component of a reported project below the scanned directory is an ignored name, its own folder name included |
| `RepoWalk.NoNesting` | src/repo/search_repo.rs:128-141 | no reported project's path is a strict prefix of another reported project's path |
| `RepoWalk.UnreadableContributesNothing` | src/repo/search_repo.rs:103-106 | nothing at or below a directory whose listing cannot be read is reported |
| `Submodules.IsSubmodule` | src/repo/search_repo.rs:210-227 | a project is a submodule exactly when its `.git` is a readable file whose content, past any leading whitespace, begins with `gitdir:` |
| `Submodules.TrimmedGitdirIff` | src/repo/search_repo.rs:217 | the trimmed content starts with `gitdir:` exactly when the content, past its leading whitespace, starts with `gitdir:` |
| `Submodules.FilterSubmodules` | src/repo/search_repo.rs:188-207 | the kept projects are a subset of the input; a project is kept exactly when it is not a submodule |
| `Submodules.FilterKeepsExactly` | src/repo/search_repo.rs:210-227 | a project is dropped exactly when its `.git` is a readable file whose content, past leading whitespace, begins with `gitdir:`; a `.git` directory, an unreadable `.git` file and a missing `.git` keep it |
| `Text.TrimStart` | src/repo/search_repo.rs:217 | the result is the suffix left after removing the longest all-whitespace prefix |
| `Text.TrimStartAt` | src/repo/search_repo.rs:217 | when the first non-whitespace character is at index k, trimming the start removes exactly the first k characters |
| `Text.TrimEnd` | src/repo/search_repo.rs:217 | the result is the prefix left after removing the longest all-whitespace suffix |
| `Finder.Walk` | src/repo/search_repo.rs:52-78 | every project collected from the root scan lies strictly below the root, which is never reported itself |
| `Finder.FindGitProjects` | src/repo/search_repo.rs:48-101 | the search never answers exactly when the finder has no permits, since the root scan waits for one; an answer holds no submodule |
| `Finder.FindSound` | src/repo/search_repo.rs:48-84 | every project in an answer lies below the root, is named after its last component, is reached by the walk under the finder's settings, and is not a submodule |
| `Finder.FindComplete` | src/repo/search_repo.rs:48-84 | a finder with at least one permit answers, and every repository the walk reaches under its settings that is not a submodule is in the answer |
| `Finder.FindNoNesting` | src/repo/search_repo.rs:128-141 | no project in an answer lies inside another project of the same answer |
| `Finder.IgnoreDirPrunes` | src/repo/search_repo.rs:251-254 | after `ignore_dir(name)`, no returned project passes through or is named `name` below the root |
| `Finder.MaxDepthBounds` | src/repo/search_repo.rs:267-270 | after `max_depth(d)`, every returned project lies at most d + 1 components below the root |
| `Finder.MaxDepthReachesLimit` | src/repo/search_repo.rs:94-98 | after `max_depth(d)`, with a concurrency limit of at least 1, a non-submodule repository exactly d + 1 components below the root, reached through ordinary directories, is returned |
| `Finder.UnlimitedDepthReachesAll` | src/repo/search_repo.rs:272-275 | after `unlimited_depth()`, with a concurrency limit of at least 1, a reachable non-submodule repository is returned however deep it lies |
| `Scenario.ExampleResult` | src/repo/search_repo.rs:48-84 | for root `{a/.git/, b/node_modules/x/.git/, c/.git (gitdir link), d/e/.git/}` with `node_modules` ignored, no depth bound and 4 permits, the search answers exactly `{a, d/e}` |
| `FinderConfig.NewConfig` | src/repo/search_repo.rs:24-30 | the ignore set holds exactly the listed names, the depth is bounded by the given value, and the budget is kept |
| `FinderConfig.NewBuilder` | src/repo/search_repo.rs:243-249 | the builder starts with exactly the listed ignored names, a bounded depth and the given budget |
| `FinderConfig.IgnoreDir` | src/repo/search_repo.rs:251-254 | the ignore set gains the name and nothing else; depth and budget are unchanged |
| `FinderConfig.IgnoreDirs` | src/repo/search_repo.rs:256-265 | the ignore set becomes the union of the old set and the given names; depth and budget are unchanged |
| `FinderConfig.MaxDepth` | src/repo/search_repo.rs:267-270 | the depth becomes bounded by the given value; the other fields are unchanged |
| `FinderConfig.UnlimitedDepth` | src/repo/search_repo.rs:272-275 | the depth bound is removed; the other fields are unchanged |
| `FinderConfig.MaxConcurrentTasks` | src/repo/search_repo.rs:277-280 | the budget becomes the given count; the other fields are unchanged |
| `FinderConfig.NewFinder` | src/repo/search_repo.rs:39-45 | the finder keeps the configuration and gets as many permits as the budget |
| `FinderConfig.Build` | src/repo/search_repo.rs:282-289 | the three fields reach the finder's configuration unchanged, and the permit pool matches the budget |
| `FinderConfig.BuilderAgreesWithNew` | src/repo/search_repo.rs:243-249 | building a fresh builder gives the same configuration as `GitFinderConfig::new` on the same settings |
| `FinderConfig.IgnoreDirsIdempotent` | src/repo/search_repo.rs:256-265 | adding the same names twice is the same as adding them once |
| `FinderConfig.IgnoreDirsOrderIrrelevant` | src/repo/search_repo.rs:256-265 | two lists with the same names give the same builder, whatever their order or repetitions |
| `FinderConfig.IgnoreDirsIsRepeatedIgnoreDir` | src/repo/search_repo.rs:251-265 | adding one more name at the end of the list is `ignore_dir` on the result |
| `Search.Matching` | src/component/mod.rs:64-69 | every match contains the text; each registry record occurs in the result as often as in the registry if its name contains the text, and otherwise never; the result keeps registry order |
| `Search.Initial` | src/component/mod.rs:78-83 | a new window starts with no text and no matches |
| `Search.OnChange` | src/component/mod.rs:61-69 | the search text becomes the input; every match contains it; every registry repo whose name contains it is matched; matches keep registry order |
| `Search.ClearSearch` | src/component/mod.rs:101-103 | the text and the matches are empty, as in a new window |
| `Search.EmptySearchMatchesAll` | src/component/mod.rs:67 | the empty text matches the whole registry, in order |
| `Search.NarrowingSearch` | src/component/mod.rs:64-69 | when the new text contains the old one, the new matches are a subsequence of the old matches |

## Left out

- Concurrency: the tokio tasks, the unbounded channel, the semaphore and the `buffer_unordered` fan-out (src/repo/search_repo.rs:55-78, 101, 145-166, 193-204). With at least one permit they change only the order of arrival, and the model's results are sets. A pool of 0 permits is modelled only by its outcome: the search never answers. The bound on permits held at once is a property of the semaphore, which is not part of this model.
- FinderConfig.NewFinder: `max_concurrent_tasks` and `max_depth` are `usize` in the source (src/repo/search_repo.rs:19-20, 238-239, 277) and `nat` in the model. `Semaphore::new` (line 43) panics for a count above `Semaphore::MAX_PERMITS` (`usize::MAX >> 3`), so no finder exists for such a budget. The model still builds one, with that many permits. The bound depends on the platform's pointer width and belongs to tokio, which is not part of this model.
- FinderConfig.Build: `build()` (src/repo/search_repo.rs:282-289) goes through `GitProjectFinder::new`, so it panics for the same budgets. The model returns a finder for every `nat` budget, and for those budgets `Finder.FindGitProjects` answers where the source never does.
- `buffer_unordered` with a limit of 0 is never reached: with a limit of 0 the root scan blocks on its permit first.
- The failed-send `break` (src/repo/search_repo.rs:135-136) never fires, because the receiver is drained until every sender is dropped. Sends always succeed in the model.
- Errors from `next_entry`, from permit acquisition and from joining the scan task (src/repo/search_repo.rs:78, 101, 110) are not modelled. A child scan's error is only logged (src/repo/search_repo.rs:169-173), so the walk is total.
- `file_name()` returning `None` (src/repo/search_repo.rs:117-120) cannot happen for a listed entry. Lossy conversion of non-UTF-8 names (`to_string_lossy`) is not modelled: names are strings.
- Symbolic links and cycles: the tree is finite and acyclic. A link to a directory appears as that directory; a broken link is `Other`.
- Access to `x/.git` inside an unreadable directory is treated as failing, like its listing.
- RepoWalk.Scan: results are sets, so "reported exactly once" is stated only as membership. The tree gives each project a single path.
- Registry deduplication, the `Repo` default, language statistics (src/repo/language.rs), opening an editor (src/system.rs), configuration loading (src/config/), the window-height arithmetic in `f32` (src/component/mod.rs:47-59), rendering, and hotkeys (src/main.rs).
- Search.OnChange: the previous state is not an input, because the handler overwrites both fields. The text comes from the input widget and the registry from global state; both are parameters.
- The starting values of `max_depth` and `max_concurrent_tasks` come from launcher settings that src/config/repo_config.rs does not define. They are parameters of `NewConfig` and `NewBuilder`.
