/** A finite, acyclic model of the local file system that the repository
    discovery engine reads: directory listings, entry kinds, and the text
    content of regular files. */
module FsTree {
  import opened Wrappers

  /** A path is a sequence of base names, one per component. */
  type Path = seq<string>

  /** One entry of the file system. */
  datatype Node =
      /** A directory whose listing can be read. */
    | Dir(entries: map<string, Node>)
      /** A directory whose listing cannot be read (permission denied,
          vanished mid-scan): it is a directory, but nothing inside it is
          visible. */
    | LockedDir
      /** A regular file; `None` when it cannot be read as UTF-8 text. */
    | File(content: Option<string>)
      /** Anything that is neither a file nor a directory. */
    | Other

  /** `Path::is_dir` / `Metadata::is_dir`. */
  predicate IsDirectory(n: Node) {
    n.Dir? || n.LockedDir?
  }

  /** Resolves `path` relative to `root`, descending only through readable
      directories; `None` when some component does not exist or cannot be
      reached (the metadata call fails). */
  function Lookup(root: Node, path: Path): Option<Node>
    decreases |path|
  {
    if path == [] then Some(root)
    else match root
      case Dir(entries) =>
        if path[0] in entries then Lookup(entries[path[0]], path[1..]) else None
      case _ => None
  }

  /** Resolving one more leading component is resolving in the child. */
  lemma LookupStep(root: Node, name: string, rest: Path)
    requires root.Dir? && name in root.entries
    ensures Lookup(root, [name] + rest) == Lookup(root.entries[name], rest)
  {
  }

  /** Resolving `a + b` is resolving `a`, then resolving `b` from there
      (`Path::join`). */
  lemma {:induction false} LookupAppend(root: Node, a: Path, b: Path)
    ensures Lookup(root, a + b) ==
            match Lookup(root, a)
            case None => None
            case Some(n) => Lookup(n, b)
    decreases |a|
  {
    if a == [] {
      assert a + b == b;
    } else {
      assert (a + b)[0] == a[0];
      assert (a + b)[1..] == a[1..] + b;
      match root
      case Dir(entries) =>
        if a[0] in entries {
          LookupAppend(entries[a[0]], a[1..], b);
        }
      case _ =>
    }
  }
}
