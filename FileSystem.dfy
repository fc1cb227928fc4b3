/**
 * The Win32 filesystem calls the deleter makes (FindFirstFileEx/FindNextFile,
 * DeleteFile, RemoveDirectory), over an abstract volume: a finite map from
 * paths to files and directories, and a set of paths the caller is denied
 * access to, which is the oracle deciding which calls fail.
 *
 * A directory's key is its job form (ending in its separator); a file's key
 * is its directory's job followed by its name. A directory node lists its
 * entries in the order the enumeration reports them; entries whose path has
 * since been removed are no longer reported.
 */
module FileSystem {
  import opened Wrappers
  import opened Paths

  datatype Entry = Entry(name: seq<char>, isDirectory: bool)
  datatype Node = File | Dir(entries: seq<Entry>)
  datatype Volume = Volume(nodes: map<Path, Node>, denied: set<Path>)

  /** One DeleteFile or RemoveDirectory call and whether it succeeded; a failure is reported on stderr. */
  datatype Call = DeleteFileCall(path: Path, ok: bool) | RemoveDirectoryCall(path: Path, ok: bool)

  function EntryPath(directory: Path, e: Entry): (p: Path) {
    if e.isDirectory then ChildJob(directory, e.name) else directory + e.name
  }

  /** The entries of `es` that still exist under `directory`, in order. */
  function Live(v: Volume, directory: Path, es: seq<Entry>): (r: seq<Entry>)
    ensures |r| <= |es|
    ensures forall e :: e in r <==> e in es && EntryPath(directory, e) in v.nodes
  {
    if es == [] then []
    else
      var rest := Live(v, directory, es[..|es| - 1]);
      var e := es[|es| - 1];
      assert es == es[..|es| - 1] + [e];
      if EntryPath(directory, e) in v.nodes then rest + [e] else rest
  }

  const DotEntries: seq<Entry> := [Entry(".", true), Entry("..", true)]

  predicate IsListable(v: Volume, directory: Path) {
    directory in v.nodes && v.nodes[directory].Dir? && directory !in v.denied
  }

  /**
   * The entries FindFirstFileEx/FindNextFile report for `directory`, or None
   * when FindFirstFileEx fails (missing, not a directory, access denied).
   * A directory always reports "." and ".." first.
   */
  function FindFiles(v: Volume, directory: Path): (r: Option<seq<Entry>>)
    ensures r.Some? <==> IsListable(v, directory)
    ensures r.Some? ==> |r.value| >= 2 && r.value[..2] == DotEntries
    ensures r.Some? ==> |r.value| <= |v.nodes[directory].entries| + 2
  {
    if IsListable(v, directory) then Some(DotEntries + Live(v, directory, v.nodes[directory].entries)) else None
  }

  function DeleteFile(v: Volume, path: Path): (result: (Volume, bool)) {
    if path in v.nodes && v.nodes[path].File? && path !in v.denied then
      (v.(nodes := v.nodes - {path}), true)
    else
      (v, false)
  }

  /** Succeeds only on an accessible directory none of whose entries still exists. */
  function RemoveDirectory(v: Volume, path: Path): (result: (Volume, bool)) {
    if IsListable(v, path) && Live(v, path, v.nodes[path].entries) == [] then
      (v.(nodes := v.nodes - {path}), true)
    else
      (v, false)
  }

  /** `w` is `v` with zero or more paths removed: nothing is ever created or changed. */
  predicate Shrinks(w: Volume, v: Volume) {
    w.denied == v.denied && w.nodes.Keys <= v.nodes.Keys &&
    forall p :: p in w.nodes ==> w.nodes[p] == v.nodes[p]
  }

  lemma DeleteFileMeaning(v: Volume, path: Path)
    ensures var (w, ok) := DeleteFile(v, path);
            Shrinks(w, v) && (ok <==> path in v.nodes && v.nodes[path] == File && path !in v.denied) &&
            w.nodes.Keys == if ok then v.nodes.Keys - {path} else v.nodes.Keys
  {
  }

  /** RemoveDirectory fails on a directory some of whose entries still exist. */
  lemma RemoveDirectoryNeedsEmpty(v: Volume, path: Path, e: Entry)
    requires path in v.nodes && v.nodes[path].Dir? && e in v.nodes[path].entries
    requires EntryPath(path, e) in v.nodes
    ensures !RemoveDirectory(v, path).1 && RemoveDirectory(v, path).0 == v
  {
    assert e in Live(v, path, v.nodes[path].entries);
  }

  lemma RemoveDirectoryMeaning(v: Volume, path: Path)
    ensures var (w, ok) := RemoveDirectory(v, path);
            Shrinks(w, v) &&
            (ok <==> IsListable(v, path) &&
                     forall e :: e in v.nodes[path].entries ==> EntryPath(path, e) !in v.nodes) &&
            w.nodes.Keys == if ok then v.nodes.Keys - {path} else v.nodes.Keys
  {
    if IsListable(v, path) {
      var es := v.nodes[path].entries;
      if forall e :: e in es ==> EntryPath(path, e) !in v.nodes {
        var l := Live(v, path, es);
        if l != [] {
          assert l[0] in l;
        }
      }
    }
  }

  lemma ShrinksTransitive(u: Volume, w: Volume, v: Volume)
    requires Shrinks(u, w) && Shrinks(w, v)
    ensures Shrinks(u, v)
  {
  }

  /** Every path is shorter than `maxLen`, and every directory lists fewer than `fanOut - 2` entries. */
  predicate Bounded(v: Volume, maxLen: nat, fanOut: nat) {
    forall p :: p in v.nodes ==> |p| < maxLen && (v.nodes[p].Dir? ==> |v.nodes[p].entries| + 2 < fanOut)
  }

  lemma ShrinksBounded(w: Volume, v: Volume, maxLen: nat, fanOut: nat)
    requires Shrinks(w, v) && Bounded(v, maxLen, fanOut)
    ensures Bounded(w, maxLen, fanOut)
  {
  }

  /** Bounds that every finite volume has. */
  ghost function BoundsOf(v: Volume): (r: (nat, nat))
    ensures Bounded(v, r.0, r.1) && r.1 >= 1
    decreases |v.nodes.Keys|
  {
    if v.nodes == map[] then (0, 1)
    else
      var p :| p in v.nodes;
      var rest := v.(nodes := v.nodes - {p});
      assert |rest.nodes.Keys| < |v.nodes.Keys| by {
        assert rest.nodes.Keys == v.nodes.Keys - {p};
      }
      var (len, fan) := BoundsOf(rest);
      var pFan := if v.nodes[p].Dir? then |v.nodes[p].entries| + 3 else 0;
      var r := (if |p| + 1 > len then |p| + 1 else len, if pFan > fan then pFan else fan);
      assert forall q :: q in v.nodes && q != p ==> q in rest.nodes;
      r
  }
}
