/**
 * Whole runs of the queue version on small directory trees, worked out to
 * the last call.
 */
module Scenarios {
  import opened Wrappers
  import opened Paths
  import opened FileSystem
  import opened FastDelete

  // ---------------------------------------------------------------------
  // Steps shared by the scenarios

  lemma Listing(v: Volume, directory: Path, es: seq<Entry>)
    requires directory in v.nodes && v.nodes[directory] == Dir(es) && directory !in v.denied
    ensures FindFiles(v, directory) == Some(DotEntries + Live(v, directory, es))
  {
  }

  lemma LiveOne(v: Volume, directory: Path, e: Entry)
    ensures Live(v, directory, [e]) == if EntryPath(directory, e) in v.nodes then [e] else []
  {
    assert [e][..0] == [];
  }

  lemma DotEntriesSkipped(v: Volume, directory: Path)
    requires WildcardFits(directory)
    ensures Scan(v, directory, DotEntries) == ScanReport(v, [], [], false)
  {
    assert IsDotName(".") && IsDotName("..");
    assert DotEntries[..1] == [Entry(".", true)];
  }

  /** An empty directory is removed at once. */
  lemma EmptyRemoved(cfg: Config, v: Volume, directory: Path)
    requires |directory| > 0 && WildcardFits(directory) && !(cfg.keepRoot && IsProtected(cfg.roots, directory))
    requires directory in v.nodes && v.nodes[directory] == Dir([]) && directory !in v.denied
    ensures ProcessDir(cfg, v, directory) ==
            DirReport(RemovedNow(true), [], v.(nodes := v.nodes - {directory}), [RemoveDirectoryCall(directory, true)])
  {
    Listing(v, directory, []);
    assert DotEntries + [] == DotEntries;
    DotEntriesSkipped(v, directory);
  }

  /** A directory whose only entry is a subdirectory is deferred, with that subdirectory queued. */
  lemma OneSubdirectoryDeferred(cfg: Config, v: Volume, directory: Path, name: Path)
    requires |directory| > 0 && WildcardFits(directory) && !(cfg.keepRoot && IsProtected(cfg.roots, directory))
    requires directory in v.nodes && v.nodes[directory] == Dir([Entry(name, true)]) && directory !in v.denied
    requires !IsDotName(name) && ChildJob(directory, name) in v.nodes
    ensures ProcessDir(cfg, v, directory) == DirReport(Deferred, [ChildJob(directory, name)], v, [])
  {
    var e := Entry(name, true);
    Listing(v, directory, [e]);
    LiveOne(v, directory, e);
    assert FindFiles(v, directory) == Some(DotEntries + [e]);
    SubdirectoryQueued(v, directory, name);
  }

  /** Listing "." and ".." and then one subdirectory queues that subdirectory and nothing else. */
  lemma SubdirectoryQueued(v: Volume, directory: Path, name: Path)
    requires WildcardFits(directory) && !IsDotName(name)
    ensures Scan(v, directory, DotEntries + [Entry(name, true)]) == ScanReport(v, [], [ChildJob(directory, name)], false)
  {
    var e := Entry(name, true);
    var listing := DotEntries + [e];
    DotEntriesSkipped(v, directory);
    assert listing[..2] == DotEntries && listing[2] == e;
    assert Scan(v, directory, listing) == ScanEntry(ScanReport(v, [], [], false), directory, e);
  }

  // ---------------------------------------------------------------------
  // Cleanup runs in insertion order

  /** R\ holding the directory x\, which holds the empty directory y\. */
  const Nested: Volume := Volume(map[
    "R\\" := Dir([Entry("x", true)]),
    "R\\x\\" := Dir([Entry("y", true)]),
    "R\\x\\y\\" := Dir([])], {})

  const Plain: Config := Config(["R"], false)

  lemma NestedRootStep()
    ensures ProcessDir(Plain, Nested, "R\\") == DirReport(Deferred, ["R\\x\\"], Nested, [])
  {
    assert ChildJob("R\\", "x") == "R\\x\\";
    OneSubdirectoryDeferred(Plain, Nested, "R\\", "x");
  }

  lemma NestedMiddleStep()
    ensures ProcessDir(Plain, Nested, "R\\x\\") == DirReport(Deferred, ["R\\x\\y\\"], Nested, [])
  {
    assert ChildJob("R\\x\\", "y") == "R\\x\\y\\";
    OneSubdirectoryDeferred(Plain, Nested, "R\\x\\", "y");
  }

  lemma NestedLeafStep()
    ensures ProcessDir(Plain, Nested, "R\\x\\y\\") ==
            DirReport(RemovedNow(true), [], Nested.(nodes := Nested.nodes - {"R\\x\\y\\"}), [RemoveDirectoryCall("R\\x\\y\\", true)])
  {
    EmptyRemoved(Plain, Nested, "R\\x\\y\\");
  }

  const NestedSeeded: World := World([Some("R\\")], 1, 0, [], Nested, [])
  const NestedDeferredRoot: World := World([Some("R\\x\\")], 1, 0, ["R\\"], Nested, [])
  const NestedDeferredBoth: World := World([Some("R\\x\\y\\")], 1, 0, ["R\\", "R\\x\\"], Nested, [])
  const NestedDrained: World :=
    World([], 0, 1, ["R\\", "R\\x\\"], Nested.(nodes := Nested.nodes - {"R\\x\\y\\"}), [RemoveDirectoryCall("R\\x\\y\\", true)])

  /** One worker iteration on a job, given what FastDeleteDir does with it. */
  lemma IterateOn(cfg: Config, w: World, directory: Path, r: DirReport)
    requires w.queue != [] && GoodItems(w.queue) && w.queue[0] == Some(directory)
    requires |directory| > 0 && ProcessDir(cfg, w.volume, directory) == r
    ensures var n := w.queuedJobs + |r.jobs| - 1;
            Iterate(cfg, w) ==
            World(w.queue[1..] + Items(r.jobs), n, if n == 0 then w.signals + 1 else w.signals,
                  if r.outcome == Deferred then w.deferred + [directory] else w.deferred,
                  r.volume, w.calls + r.calls)
  {
  }

  lemma NestedFirstIteration()
    ensures Iterate(Plain, NestedSeeded) == NestedDeferredRoot
  {
    NestedRootStep();
    IterateOn(Plain, NestedSeeded, "R\\", DirReport(Deferred, ["R\\x\\"], Nested, []));
    var w := Iterate(Plain, NestedSeeded);
    assert Items(["R\\x\\"]) == [Some("R\\x\\")];
    assert w.queue == NestedDeferredRoot.queue;
    assert w.deferred == NestedDeferredRoot.deferred;
  }

  lemma NestedSecondIteration()
    ensures Iterate(Plain, NestedDeferredRoot) == NestedDeferredBoth
  {
    NestedMiddleStep();
    IterateOn(Plain, NestedDeferredRoot, "R\\x\\", DirReport(Deferred, ["R\\x\\y\\"], Nested, []));
    var w := Iterate(Plain, NestedDeferredRoot);
    assert Items(["R\\x\\y\\"]) == [Some("R\\x\\y\\")];
    assert w.queue == NestedDeferredBoth.queue;
    assert w.deferred == NestedDeferredBoth.deferred;
  }

  lemma NestedThirdIteration()
    ensures Iterate(Plain, NestedDeferredBoth) == NestedDrained
  {
    NestedLeafStep();
    IterateOn(Plain, NestedDeferredBoth, "R\\x\\y\\",
      DirReport(RemovedNow(true), [], Nested.(nodes := Nested.nodes - {"R\\x\\y\\"}), [RemoveDirectoryCall("R\\x\\y\\", true)]));
    var w := Iterate(Plain, NestedDeferredBoth);
    assert Items([]) == [];
    assert w.queue == NestedDrained.queue;
    assert w.deferred == NestedDrained.deferred;
    assert w.calls == NestedDrained.calls;
  }

  lemma NestedBounded()
    ensures Traversable(NestedSeeded, 10, 4)
  {
    assert Bounded(Nested, 10, 4);
  }

  /** The traversal defers R\ and then x\, and removes y\ at once. */
  lemma NestedTraversal()
    ensures Traversable(NestedSeeded, 10, 4)
    ensures Traverse(Plain, NestedSeeded, 10, 4) == NestedDrained
  {
    NestedBounded();
    NestedFirstIteration();
    TraverseStep(Plain, NestedSeeded, 10, 4);
    NestedSecondIteration();
    TraverseStep(Plain, NestedDeferredRoot, 10, 4);
    NestedThirdIteration();
    TraverseStep(Plain, NestedDeferredBoth, 10, 4);
    assert Traverse(Plain, NestedDrained, 10, 4) == NestedDrained;
  }

  lemma TraverseStep(cfg: Config, w: World, maxLen: nat, fanOut: nat)
    requires Traversable(w, maxLen, fanOut) && w.queue != []
    ensures Traversable(Iterate(cfg, w), maxLen, fanOut)
    ensures Traverse(cfg, w, maxLen, fanOut) == Traverse(cfg, Iterate(cfg, w), maxLen, fanOut)
  {
    IterateProgress(cfg, w, maxLen, fanOut);
  }

  /** The cleanup pass over one deferred directory. */
  lemma CleanupOne(v: Volume, first: Path)
    ensures CleanupCalls(v, [first]) == (RemoveDirectory(v, first).0, [RemoveDirectoryCall(first, RemoveDirectory(v, first).1)])
  {
    var ds := [first];
    assert ds[..0] == [];
    assert CleanupCalls(v, ds[..0]) == (v, []);
    var (u, ok) := RemoveDirectory(v, first);
    assert CleanupCalls(v, ds) == (u, [] + [RemoveDirectoryCall(first, ok)]);
    assert [] + [RemoveDirectoryCall(first, ok)] == [RemoveDirectoryCall(first, ok)];
  }

  /** The cleanup pass over two deferred directories, in list order. */
  lemma CleanupTwo(v: Volume, first: Path, second: Path)
    ensures var (u, ok) := RemoveDirectory(v, first);
            var (u', ok') := RemoveDirectory(u, second);
            CleanupCalls(v, [first, second]) == (u', [RemoveDirectoryCall(first, ok), RemoveDirectoryCall(second, ok')])
  {
    var ds := [first, second];
    assert ds[..1] == [first];
    CleanupOne(v, first);
    var (u, ok) := RemoveDirectory(v, first);
    var (u', ok') := RemoveDirectory(u, second);
    assert CleanupCalls(v, ds) == (u', [RemoveDirectoryCall(first, ok)] + [RemoveDirectoryCall(second, ok')]);
    assert [RemoveDirectoryCall(first, ok)] + [RemoveDirectoryCall(second, ok')] ==
           [RemoveDirectoryCall(first, ok), RemoveDirectoryCall(second, ok')];
  }

  const NestedAfterLeaf: Volume := Nested.(nodes := Nested.nodes - {"R\\x\\y\\"})

  /** RemoveDirectory on R\ fails while x\ exists; x\ is empty by then and goes. */
  lemma NestedRemovals()
    ensures RemoveDirectory(NestedAfterLeaf, "R\\") == (NestedAfterLeaf, false)
    ensures RemoveDirectory(NestedAfterLeaf, "R\\x\\") ==
            (NestedAfterLeaf.(nodes := map["R\\" := Dir([Entry("x", true)])]), true)
  {
    var v := NestedAfterLeaf;
    assert v.nodes == map["R\\" := Dir([Entry("x", true)]), "R\\x\\" := Dir([Entry("y", true)])];
    assert EntryPath("R\\", Entry("x", true)) == "R\\x\\";
    assert EntryPath("R\\x\\", Entry("y", true)) == "R\\x\\y\\";
    LiveOne(v, "R\\", Entry("x", true));
    LiveOne(v, "R\\x\\", Entry("y", true));
    assert v.nodes - {"R\\x\\"} == map["R\\" := Dir([Entry("x", true)])];
  }

  lemma NestedSeed()
    ensures Seed(Plain.roots, Start(Nested)) == NestedSeeded
  {
    assert NormalizeRoot("R") == "R\\";
    assert RootJobs(["R"]) == ["R\\"];
    assert Items(["R\\"]) == [Some("R\\")];
  }

  lemma NestedCleanup()
    ensures Cleanup(NestedDrained).volume.nodes == map["R\\" := Dir([Entry("x", true)])]
    ensures Cleanup(NestedDrained).calls == [RemoveDirectoryCall("R\\x\\y\\", true),
                                             RemoveDirectoryCall("R\\", false),
                                             RemoveDirectoryCall("R\\x\\", true)]
  {
    NestedRemovals();
    CleanupTwo(NestedAfterLeaf, "R\\", "R\\x\\");
  }

  /**
   * The cleanup pass walks the deferred directories in the order they were
   * deferred, parents first: RemoveDirectory on R\ fails because x\ still
   * exists, then x\ is removed. The root is left behind, empty.
   */
  lemma NestedTreeLeavesRoot()
    ensures var w := Run(Plain, Nested);
            && w.volume.nodes == map["R\\" := Dir([Entry("x", true)])]
            && w.calls == [RemoveDirectoryCall("R\\x\\y\\", true),
                           RemoveDirectoryCall("R\\", false),
                           RemoveDirectoryCall("R\\x\\", true)]
  {
    assert Bounded(Nested, 10, 4);
    RunWith(Plain, Nested, 10, 4);
    NestedSeed();
    NestedTraversal();
    NestedCleanup();
  }

  // ---------------------------------------------------------------------
  // --keep-root

  /** A run whose single root job is handled in one iteration and defers nothing. */
  lemma SeedOne(roots: seq<Path>, v: Volume)
    requires ValidRoots(roots) && |roots| == 1
    ensures Seed(roots, Start(v)) == World([Some(NormalizeRoot(roots[0]))], 1, 0, [], v, [])
  {
    assert RootJobs(roots) == [NormalizeRoot(roots[0])];
    assert Items([NormalizeRoot(roots[0])]) == [Some(NormalizeRoot(roots[0]))];
  }

  lemma SingleStepRun(cfg: Config, v: Volume, r: DirReport)
    requires ValidRoots(cfg.roots) && |cfg.roots| == 1 && Bounded(v, 10, 4)
    requires ProcessDir(cfg, v, NormalizeRoot(cfg.roots[0])) == r && r.jobs == [] && r.outcome != Deferred
    requires Shrinks(r.volume, v)
    ensures Run(cfg, v) == World([], 0, 1, [], r.volume, r.calls)
  {
    RunWith(cfg, v, 10, 4);
    var job := NormalizeRoot(cfg.roots[0]);
    var w0 := Seed(cfg.roots, Start(v));
    SeedOne(cfg.roots, v);
    IterateOn(cfg, w0, job, r);
    var w1 := Iterate(cfg, w0);
    assert Items([]) == [];
    assert w1 == World([], 0, 1, [], r.volume, r.calls);
    TraverseStep(cfg, w0, 10, 4);
    assert CleanupCalls(w1.volume, []) == (w1.volume, []);
  }

  const EmptyRoot: Volume := Volume(map["R\\" := Dir([])], {})
  const EmptySlashRoot: Volume := Volume(map["R/" := Dir([])], {})

  /** With `--keep-root`, the root R keeps its (now empty) directory R\: no RemoveDirectory call is made. */
  lemma KeepRootProtects()
    ensures var w := Run(Config(["R"], true), EmptyRoot);
            w.volume == EmptyRoot && w.calls == []
  {
    var cfg := Config(["R"], true);
    assert NormalizeRoot("R") == "R\\";
    RootProtectsOwnJob("R");
    assert MatchesRoot("R\\", cfg.roots[0]);
    assert IsProtected(cfg.roots, "R\\");
    Listing(EmptyRoot, "R\\", []);
    assert DotEntries + [] == DotEntries;
    DotEntriesSkipped(EmptyRoot, "R\\");
    assert ProcessDir(cfg, EmptyRoot, "R\\") == DirReport(Protected, [], EmptyRoot, []);
    assert Bounded(EmptyRoot, 10, 4);
    SingleStepRun(cfg, EmptyRoot, DirReport(Protected, [], EmptyRoot, []));
  }

  /**
   * With `--keep-root`, a root written R/ is kept as the job R/, which the
   * keep-root test does not match: the root directory is removed.
   */
  lemma KeepRootMissesSlash()
    ensures var w := Run(Config(["R/"], true), EmptySlashRoot);
            w.volume.nodes == map[] && w.calls == [RemoveDirectoryCall("R/", true)]
  {
    var cfg := Config(["R/"], true);
    assert NormalizeRoot("R/") == "R/";
    RootProtectsOwnJob("R/");
    assert !IsProtected(cfg.roots, "R/");
    EmptyRemoved(cfg, EmptySlashRoot, "R/");
    var r := DirReport(RemovedNow(true), [], EmptySlashRoot.(nodes := EmptySlashRoot.nodes - {"R/"}), [RemoveDirectoryCall("R/", true)]);
    assert Bounded(EmptySlashRoot, 10, 4);
    SingleStepRun(cfg, EmptySlashRoot, r);
    assert EmptySlashRoot.nodes - {"R/"} == map[];
  }

  // ---------------------------------------------------------------------
  // A file that cannot be deleted

  /** R\ holding the file a, which DeleteFile cannot remove. */
  const Locked: Volume := Volume(map["R\\" := Dir([Entry("a", false)]), "R\\a" := File], {"R\\a"})

  /**
   * A failed DeleteFile abandons the directory: it is neither removed nor
   * deferred, and the only call made is the failed DeleteFile.
   */
  lemma LockedFileKeepsDirectory()
    ensures var w := Run(Plain, Locked);
            w.volume == Locked && w.calls == [DeleteFileCall("R\\a", false)]
  {
    assert NormalizeRoot("R") == "R\\";
    LockedStep();
    assert Bounded(Locked, 10, 4);
    SingleStepRun(Plain, Locked, DirReport(Abandoned, [], Locked, [DeleteFileCall("R\\a", false)]));
  }

  lemma LockedStep()
    ensures ProcessDir(Plain, Locked, "R\\") == DirReport(Abandoned, [], Locked, [DeleteFileCall("R\\a", false)])
  {
    var e := Entry("a", false);
    var listing := DotEntries + [e];
    Listing(Locked, "R\\", [e]);
    assert EntryPath("R\\", e) == "R\\a";
    LiveOne(Locked, "R\\", e);
    assert FindFiles(Locked, "R\\") == Some(listing);
    DotEntriesSkipped(Locked, "R\\");
    assert listing[..2] == DotEntries && listing[2] == e;
    assert FileName("R\\", "a") == "R\\a";
    assert Scan(Locked, "R\\", listing) == ScanEntry(ScanReport(Locked, [], [], false), "R\\", e);
    assert Scan(Locked, "R\\", listing) == ScanReport(Locked, [DeleteFileCall("R\\a", false)], [], true);
  }
}
