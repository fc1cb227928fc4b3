/**
 * FastDelete.cpp with one worker thread.
 *
 * The pure part specifies each step: `ProcessDir` is what FastDeleteDir does
 * to one directory, `Iterate` one pass of FastDeleteThread's loop,
 * `Traverse` the worker draining the queue while the main thread waits,
 * `Cleanup` the final pass over the deferred directories and `Run` the whole
 * of _tmain after argument validation. The class `Engine` holds the globals
 * of FastDelete.cpp as fields and implements the same steps imperatively;
 * each of its methods is proved to produce the state its specification
 * function computes.
 */
module FastDelete {
  import opened Wrappers
  import opened Paths
  import opened FileSystem
  import opened Progress
  import opened Queues

  /** A queue item: a job (a heap-allocated path), or the null item that stops a worker. */
  type Item = Option<Path>

  /** The validated command line: root directories as given, and `--keep-root`. */
  datatype Config = Config(roots: seq<Path>, keepRoot: bool)

  /** Command-line roots name existing directories, so none is empty. */
  predicate ValidRoots(roots: seq<Path>) {
    forall i :: 0 <= i < |roots| ==> |roots[i]| > 0
  }

  /** Every job in the queue is a non-empty path. */
  predicate GoodItems(q: seq<Item>) {
    forall i :: 0 <= i < |q| && q[i].Some? ==> |q[i].value| > 0
  }

  function Items(jobs: seq<Path>): (q: seq<Item>)
    ensures |q| == |jobs| && None !in q
    ensures forall i :: 0 <= i < |jobs| ==> q[i] == Some(jobs[i])
  {
    seq(|jobs|, i requires 0 <= i < |jobs| => Some(jobs[i]))
  }

  /** The jobs among the queue's items, in queue order. */
  function Pending(q: seq<Item>): (jobs: seq<Path>)
    ensures |jobs| <= |q|
    ensures None !in q ==> |jobs| == |q|
    decreases |q|
  {
    if q == [] then []
    else
      var rest := Pending(q[..|q| - 1]);
      assert None !in q ==> None !in q[..|q| - 1] by {
        assert forall x :: x in q[..|q| - 1] ==> x in q;
      }
      match q[|q| - 1]
      case Some(p) => rest + [p]
      case None => rest
  }

  lemma {:induction false} PendingAppend(a: seq<Item>, b: seq<Item>)
    ensures Pending(a + b) == Pending(a) + Pending(b)
    decreases |b|
  {
    if b != [] {
      var b' := b[..|b| - 1];
      assert (a + b)[..|a + b| - 1] == a + b';
      PendingAppend(a, b');
    } else {
      assert a + b == a;
    }
  }

  lemma {:induction false} PendingItems(jobs: seq<Path>)
    ensures Pending(Items(jobs)) == jobs
    decreases |jobs|
  {
    if jobs != [] {
      var init := jobs[..|jobs| - 1];
      assert Items(jobs)[..|jobs| - 1] == Items(init);
      PendingItems(init);
    }
  }

  // ---------------------------------------------------------------------
  // FastDeleteDir

  /** What FastDeleteDir concluded about a directory, in the order it checks. */
  datatype Outcome =
    | Abandoned        // the wildcard overflowed, enumeration failed, or a DeleteFile failed
    | Protected        // --keep-root and the directory is a root
    | Deferred         // a subdirectory was queued: removed later by the cleanup pass
    | RemovedNow(ok: bool)  // RemoveDirectory was called, with this result

  /** The enumeration loop's effect: the volume and calls after the DeleteFile calls, the jobs queued, and `haveFiles`. */
  datatype ScanReport = ScanReport(volume: Volume, calls: seq<Call>, jobs: seq<Path>, fileFailed: bool)

  /** One pass of the enumeration loop, on entry `e`. */
  function ScanEntry(s: ScanReport, directory: Path, e: Entry): (next: ScanReport)
    requires WildcardFits(directory)
  {
    if e.isDirectory then
      if IsDotName(e.name) then s else s.(jobs := s.jobs + [ChildJob(directory, e.name)])
    else
      var path := FileName(directory, e.name);
      var (w, ok) := DeleteFile(s.volume, path);
      s.(volume := w, calls := s.calls + [DeleteFileCall(path, ok)], fileFailed := s.fileFailed || !ok)
  }

  function Scan(v: Volume, directory: Path, es: seq<Entry>): (s: ScanReport)
    requires WildcardFits(directory)
    decreases |es|
  {
    if es == [] then ScanReport(v, [], [], false)
    else ScanEntry(Scan(v, directory, es[..|es| - 1]), directory, es[|es| - 1])
  }

  datatype DirReport = DirReport(outcome: Outcome, jobs: seq<Path>, volume: Volume, calls: seq<Call>)

  function ProcessDir(cfg: Config, v: Volume, directory: Path): (r: DirReport)
    requires |directory| > 0
  {
    if !WildcardFits(directory) then DirReport(Abandoned, [], v, [])
    else
      match FindFiles(v, directory)
      case None => DirReport(Abandoned, [], v, [])
      case Some(listing) =>
        var s := Scan(v, directory, listing);
        if s.fileFailed then DirReport(Abandoned, s.jobs, s.volume, s.calls)
        else if cfg.keepRoot && IsProtected(cfg.roots, directory) then DirReport(Protected, s.jobs, s.volume, s.calls)
        else if s.jobs != [] then DirReport(Deferred, s.jobs, s.volume, s.calls)
        else
          var (w, ok) := RemoveDirectory(s.volume, directory);
          DirReport(RemovedNow(ok), [], w, s.calls + [RemoveDirectoryCall(directory, ok)])
  }

  // ---------------------------------------------------------------------
  // The worker loop, the main thread's phases, and the whole run

  /**
   * The shared state: the queue, `sQueuedJobs`, the number of SetEvent
   * calls on `sQueueCompleted`, `sDeferredDirectories`, and the filesystem
   * with the calls made on it so far.
   */
  datatype World = World(queue: seq<Item>, queuedJobs: int, signals: nat, deferred: seq<Path>,
                         volume: Volume, calls: seq<Call>)

  /** One pass of FastDeleteThread's loop. */
  function Iterate(cfg: Config, w: World): (next: World)
    requires w.queue != [] && GoodItems(w.queue)
  {
    match w.queue[0]
    case None => w.(queue := w.queue[1..])
    case Some(directory) =>
      var r := ProcessDir(cfg, w.volume, directory);
      var n := w.queuedJobs + |r.jobs| - 1;
      World(w.queue[1..] + Items(r.jobs), n, if n == 0 then w.signals + 1 else w.signals,
            if r.outcome == Deferred then w.deferred + [directory] else w.deferred,
            r.volume, w.calls + r.calls)
  }

  /** The jobs the main thread queues, one per root, in command-line order. */
  function RootJobs(roots: seq<Path>): (jobs: seq<Path>)
    requires ValidRoots(roots)
  {
    seq(|roots|, i requires 0 <= i < |roots| && ValidRoots(roots) => NormalizeRoot(roots[i]))
  }

  function Seed(roots: seq<Path>, w: World): (seeded: World)
    requires ValidRoots(roots)
  {
    w.(queue := w.queue + Items(RootJobs(roots)), queuedJobs := w.queuedJobs + |roots|)
  }

  /** What a traversal needs: volume bounds for the termination measure, and a queue of non-empty jobs only. */
  predicate Traversable(w: World, maxLen: nat, fanOut: nat) {
    fanOut >= 1 && Bounded(w.volume, maxLen, fanOut) && None !in w.queue && GoodItems(w.queue)
  }

  /** The worker runs until the queue is empty, while the main thread waits on the completion event. */
  function Traverse(cfg: Config, w: World, maxLen: nat, fanOut: nat): (t: World)
    requires Traversable(w, maxLen, fanOut)
    ensures t.queue == []
    decreases Potential(maxLen, fanOut, Pending(w.queue))
  {
    if w.queue == [] then w
    else
      IterateProgress(cfg, w, maxLen, fanOut);
      Traverse(cfg, Iterate(cfg, w), maxLen, fanOut)
  }

  /** RemoveDirectory on each deferred directory in turn, with the calls it makes. */
  function CleanupCalls(v: Volume, directories: seq<Path>): (result: (Volume, seq<Call>))
    decreases |directories|
  {
    if directories == [] then (v, [])
    else
      var (w, cs) := CleanupCalls(v, directories[..|directories| - 1]);
      var d := directories[|directories| - 1];
      var (u, ok) := RemoveDirectory(w, d);
      (u, cs + [RemoveDirectoryCall(d, ok)])
  }

  function Cleanup(w: World): (cleaned: World) {
    var (v, cs) := CleanupCalls(w.volume, w.deferred);
    w.(volume := v, calls := w.calls + cs, deferred := [])
  }

  function Start(v: Volume): (w: World) {
    World([], 0, 0, [], v, [])
  }

  /**
   * _tmain from the first root on, with one worker: queue the roots, let
   * the worker drain the queue, push one null item, let the worker read it
   * and exit, then remove the deferred directories.
   */
  ghost function Run(cfg: Config, v: Volume): (final: World)
    requires ValidRoots(cfg.roots)
  {
    if cfg.roots == [] then Start(v)
    else
      var (maxLen, fanOut) := BoundsOf(v);
      var seeded := Seed(cfg.roots, Start(v));
      SeedTraversable(cfg.roots, v, maxLen, fanOut);
      var drained := Traverse(cfg, seeded, maxLen, fanOut);
      var stopping := drained.(queue := drained.queue + [None]);
      Cleanup(Iterate(cfg, stopping))
  }

  // ---------------------------------------------------------------------
  // Lemmas

  /** The directory entries that become jobs: directories other than "." and "..". */
  function Subdirectories(es: seq<Entry>): (r: seq<Entry>)
    ensures |r| <= |es|
    ensures forall e :: e in r <==> e in es && e.isDirectory && !IsDotName(e.name)
    decreases |es|
  {
    if es == [] then []
    else
      var rest := Subdirectories(es[..|es| - 1]);
      var e := es[|es| - 1];
      assert es == es[..|es| - 1] + [e];
      if e.isDirectory && !IsDotName(e.name) then rest + [e] else rest
  }

  /** The entries FastDeleteDir hands to DeleteFile: everything not flagged as a directory. */
  function Files(es: seq<Entry>): (r: seq<Entry>)
    ensures |r| <= |es|
    ensures forall e :: e in r <==> e in es && !e.isDirectory
    decreases |es|
  {
    if es == [] then []
    else
      var rest := Files(es[..|es| - 1]);
      var e := es[|es| - 1];
      assert es == es[..|es| - 1] + [e];
      if !e.isDirectory then rest + [e] else rest
  }

  /** The enumeration loop queues `directory + name + '\'` for each subdirectory entry, in enumeration order. */
  lemma {:induction false} ScanJobs(v: Volume, directory: Path, es: seq<Entry>)
    requires WildcardFits(directory)
    ensures var s, subs := Scan(v, directory, es), Subdirectories(es);
            |s.jobs| == |subs| &&
            forall k :: 0 <= k < |subs| ==> s.jobs[k] == ChildJob(directory, subs[k].name)
    decreases |es|
  {
    if es != [] {
      var init, e := es[..|es| - 1], es[|es| - 1];
      ScanJobs(v, directory, init);
      var s0, s := Scan(v, directory, init), Scan(v, directory, es);
      var subs0, subs := Subdirectories(init), Subdirectories(es);
      if e.isDirectory && !IsDotName(e.name) {
        assert subs == subs0 + [e];
        assert s.jobs == s0.jobs + [ChildJob(directory, e.name)];
      } else {
        assert subs == subs0;
        assert s.jobs == s0.jobs;
      }
    }
  }

  /**
   * The enumeration loop calls DeleteFile once for each entry not flagged as
   * a directory, in enumeration order.
   */
  lemma {:induction false} ScanCalls(v: Volume, directory: Path, es: seq<Entry>)
    requires WildcardFits(directory)
    ensures var s, files := Scan(v, directory, es), Files(es);
            && |s.calls| == |files|
            && forall k :: 0 <= k < |files| ==>
                 s.calls[k].DeleteFileCall? && s.calls[k].path == FileName(directory, files[k].name)
    decreases |es|
  {
    if es != [] {
      var init, e := es[..|es| - 1], es[|es| - 1];
      ScanCalls(v, directory, init);
      var s0, s := Scan(v, directory, init), Scan(v, directory, es);
      var files0, files := Files(init), Files(es);
      if !e.isDirectory {
        var path := FileName(directory, e.name);
        assert files == files0 + [e];
        assert s.calls == s0.calls + [DeleteFileCall(path, DeleteFile(s0.volume, path).1)];
      } else {
        assert files == files0;
        assert s.calls == s0.calls;
      }
    }
  }

  /** `haveFiles` is set exactly when one of the DeleteFile calls failed. */
  lemma {:induction false} ScanFailure(v: Volume, directory: Path, es: seq<Entry>)
    requires WildcardFits(directory)
    ensures var s := Scan(v, directory, es);
            s.fileFailed <==> exists k :: 0 <= k < |s.calls| && !s.calls[k].ok
    decreases |es|
  {
    if es != [] {
      var init, e := es[..|es| - 1], es[|es| - 1];
      ScanFailure(v, directory, init);
      var s0, s := Scan(v, directory, init), Scan(v, directory, es);
      if !e.isDirectory {
        var path := FileName(directory, e.name);
        var ok := DeleteFile(s0.volume, path).1;
        assert s.calls == s0.calls + [DeleteFileCall(path, ok)];
        assert s.fileFailed == (s0.fileFailed || !ok);
        if s0.fileFailed {
          var k :| 0 <= k < |s0.calls| && !s0.calls[k].ok;
          assert s.calls[k] == s0.calls[k];
        }
        if !ok {
          assert !s.calls[|s0.calls|].ok;
        }
      } else {
        assert s.calls == s0.calls && s.fileFailed == s0.fileFailed;
      }
    }
  }

  /**
   * The enumeration loop removes nothing but files: every path it removed
   * was a file, removed by a successful DeleteFile call.
   */
  lemma {:induction false} ScanVolume(v: Volume, directory: Path, es: seq<Entry>)
    requires WildcardFits(directory)
    ensures var s := Scan(v, directory, es);
            && Shrinks(s.volume, v)
            && (forall p :: p in v.nodes && p !in s.volume.nodes ==>
                  v.nodes[p] == File && exists k :: 0 <= k < |s.calls| && s.calls[k] == DeleteFileCall(p, true))
    decreases |es|
  {
    if es != [] {
      var init := es[..|es| - 1];
      var e := es[|es| - 1];
      ScanVolume(v, directory, init);
      var s0, s := Scan(v, directory, init), Scan(v, directory, es);
      if !e.isDirectory {
        var path := FileName(directory, e.name);
        DeleteFileMeaning(s0.volume, path);
        assert s.calls == s0.calls + [DeleteFileCall(path, DeleteFile(s0.volume, path).1)];
        forall p | p in v.nodes && p !in s.volume.nodes
          ensures v.nodes[p] == File && exists k :: 0 <= k < |s.calls| && s.calls[k] == DeleteFileCall(p, true)
        {
          if p in s0.volume.nodes {
            assert s.calls[|s0.calls|] == DeleteFileCall(p, true);
          } else {
            var k :| 0 <= k < |s0.calls| && s0.calls[k] == DeleteFileCall(p, true);
            assert s.calls[k] == s0.calls[k];
          }
        }
      }
    }
  }

  /** How many RemoveDirectory calls a sequence of calls holds. */
  function Removals(calls: seq<Call>): (n: nat)
    decreases |calls|
  {
    if calls == [] then 0
    else Removals(calls[..|calls| - 1]) + (if calls[|calls| - 1].RemoveDirectoryCall? then 1 else 0)
  }

  lemma {:induction false} NoRemovals(calls: seq<Call>)
    requires forall k :: 0 <= k < |calls| ==> calls[k].DeleteFileCall?
    ensures Removals(calls) == 0
    decreases |calls|
  {
    if calls != [] {
      NoRemovals(calls[..|calls| - 1]);
    }
  }

  /** An overflowing wildcard or a failed enumeration abandons the directory before anything is done. */
  lemma ProcessDirEarlyExit(cfg: Config, v: Volume, directory: Path)
    requires |directory| > 0
    requires !WildcardFits(directory) || !IsListable(v, directory)
    ensures ProcessDir(cfg, v, directory) == DirReport(Abandoned, [], v, [])
  {
  }

  /**
   * FastDeleteDir's checks after enumeration, in their fixed order: a failed
   * DeleteFile abandons the directory whatever the later checks would say; a
   * protected root is kept whether or not it queued subdirectories; a
   * directory that queued a subdirectory is deferred; only otherwise is
   * RemoveDirectory called.
   */
  lemma ProcessDirOrder(cfg: Config, v: Volume, directory: Path)
    requires |directory| > 0 && WildcardFits(directory) && IsListable(v, directory)
    ensures var r, listing := ProcessDir(cfg, v, directory), FindFiles(v, directory).value;
            var s := Scan(v, directory, listing);
            var failed := exists k :: 0 <= k < |s.calls| && !s.calls[k].ok;
            var protected := cfg.keepRoot && IsProtected(cfg.roots, directory);
            && (r.outcome == Abandoned <==> failed)
            && (r.outcome == Protected <==> !failed && protected)
            && (r.outcome == Deferred <==> !failed && !protected && |Subdirectories(listing)| > 0)
            && (r.outcome.RemovedNow? <==> !failed && !protected && |Subdirectories(listing)| == 0)
  {
    var listing := FindFiles(v, directory).value;
    ScanFailure(v, directory, listing);
    ScanJobs(v, directory, listing);
  }

  /**
   * RemoveDirectory is called at most once, as the last call, and exactly
   * when the directory was neither abandoned, protected nor deferred.
   */
  lemma ProcessDirRemovesOnce(cfg: Config, v: Volume, directory: Path)
    requires |directory| > 0
    ensures var r := ProcessDir(cfg, v, directory);
            && Removals(r.calls) == (if r.outcome.RemovedNow? then 1 else 0)
            && (r.outcome.RemovedNow? ==>
                  r.jobs == [] && r.calls[|r.calls| - 1] == RemoveDirectoryCall(directory, r.outcome.ok))
  {
    var r := ProcessDir(cfg, v, directory);
    if WildcardFits(directory) && IsListable(v, directory) {
      var listing := FindFiles(v, directory).value;
      var s := Scan(v, directory, listing);
      ScanCalls(v, directory, listing);
      NoRemovals(s.calls);
      if r.outcome.RemovedNow? {
        assert r.calls[..|r.calls| - 1] == s.calls;
      }
    }
  }

  /** A directory is left in place unless FastDeleteDir removed it itself. */
  lemma ProcessDirKeepsDirectory(cfg: Config, v: Volume, directory: Path)
    requires |directory| > 0 && directory in v.nodes && v.nodes[directory].Dir?
    ensures var r := ProcessDir(cfg, v, directory);
            (directory in r.volume.nodes <==> r.outcome != RemovedNow(true)) &&
            Shrinks(r.volume, v)
  {
    var r := ProcessDir(cfg, v, directory);
    if WildcardFits(directory) && IsListable(v, directory) {
      var listing := FindFiles(v, directory).value;
      var s := Scan(v, directory, listing);
      ScanVolume(v, directory, listing);
      if !s.fileFailed && !(cfg.keepRoot && IsProtected(cfg.roots, directory)) && s.jobs == [] {
        RemoveDirectoryMeaning(s.volume, directory);
      }
    }
  }

  /** A listed subdirectory other than "." and ".." exists in the volume, one level below. */
  lemma ListedSubdirectoryExists(v: Volume, directory: Path, e: Entry)
    requires IsListable(v, directory) && e in FindFiles(v, directory).value
    requires e.isDirectory && !IsDotName(e.name)
    ensures ChildJob(directory, e.name) in v.nodes && |directory| < |ChildJob(directory, e.name)|
  {
    assert e != Entry(".", true) && e != Entry("..", true);
    assert e in Live(v, directory, v.nodes[directory].entries);
  }

  /** The jobs the enumeration of a listable directory queues exist, one level below it. */
  lemma ScannedJobsExist(v: Volume, directory: Path)
    requires WildcardFits(directory) && IsListable(v, directory)
    ensures var s := Scan(v, directory, FindFiles(v, directory).value);
            && |s.jobs| <= |v.nodes[directory].entries| + 2
            && forall c :: c in s.jobs ==> |directory| < |c| && c in v.nodes
  {
    var listing := FindFiles(v, directory).value;
    var s := Scan(v, directory, listing);
    var subs := Subdirectories(listing);
    ScanJobs(v, directory, listing);
    forall c | c in s.jobs ensures |directory| < |c| && c in v.nodes {
      var k :| 0 <= k < |s.jobs| && s.jobs[k] == c;
      assert subs[k] in subs;
      ListedSubdirectoryExists(v, directory, subs[k]);
    }
  }

  /** The jobs FastDeleteDir queues are existing paths strictly longer than the directory, fewer than its entries plus two. */
  lemma ProcessDirJobs(cfg: Config, v: Volume, directory: Path)
    requires |directory| > 0
    ensures var r := ProcessDir(cfg, v, directory);
            && Shrinks(r.volume, v)
            && (r.jobs != [] ==> directory in v.nodes && v.nodes[directory].Dir? &&
                                 |r.jobs| <= |v.nodes[directory].entries| + 2)
            && forall c :: c in r.jobs ==> |directory| < |c| && c in v.nodes
  {
    if WildcardFits(directory) && IsListable(v, directory) {
      var listing := FindFiles(v, directory).value;
      var s := Scan(v, directory, listing);
      ScannedJobsExist(v, directory);
      ScanVolume(v, directory, listing);
      if !s.fileFailed && !(cfg.keepRoot && IsProtected(cfg.roots, directory)) && s.jobs == [] {
        RemoveDirectoryMeaning(s.volume, directory);
      }
    }
  }

  /** One pass of the worker loop keeps a traversal traversable and lowers its measure. */
  lemma IterateProgress(cfg: Config, w: World, maxLen: nat, fanOut: nat)
    requires Traversable(w, maxLen, fanOut) && w.queue != []
    ensures Traversable(Iterate(cfg, w), maxLen, fanOut)
    ensures Shrinks(Iterate(cfg, w).volume, w.volume)
    ensures Potential(maxLen, fanOut, Pending(Iterate(cfg, w).queue)) < Potential(maxLen, fanOut, Pending(w.queue))
  {
    assert w.queue[0] in w.queue;
    var directory := w.queue[0].value;
    var r := ProcessDir(cfg, w.volume, directory);
    ProcessDirJobs(cfg, w.volume, directory);
    ShrinksBounded(r.volume, w.volume, maxLen, fanOut);
    var rest := w.queue[1..];
    assert w.queue == [w.queue[0]] + rest;
    assert None !in rest by {
      assert forall x :: x in rest ==> x in w.queue;
    }
    PendingAppend([w.queue[0]], rest);
    PendingAppend(rest, Items(r.jobs));
    PendingItems(r.jobs);
    assert Pending([w.queue[0]]) == [directory] by {
      assert [w.queue[0]][..0] == [];
    }
    PotentialDrops(maxLen, fanOut, directory, Pending(rest), r.jobs);
    var q' := Iterate(cfg, w).queue;
    assert q' == rest + Items(r.jobs);
    assert None !in q';
    forall i | 0 <= i < |q'| && q'[i].Some? ensures |q'[i].value| > 0 {
      if i >= |rest| {
        assert q'[i].value in r.jobs;
      } else {
        assert q'[i] == w.queue[i + 1];
      }
    }
  }

  /**
   * With one worker, `sQueuedJobs` counts the jobs in the queue between
   * passes of the loop: a job's decrement and its children's increments
   * balance its removal and their addition. A null item leaves the count
   * alone.
   */
  lemma IterateKeepsCount(cfg: Config, w: World)
    requires w.queue != [] && GoodItems(w.queue)
    requires w.queuedJobs == |Pending(w.queue)|
    ensures Iterate(cfg, w).queuedJobs == |Pending(Iterate(cfg, w).queue)|
    ensures w.queue[0] == None ==> Iterate(cfg, w) == w.(queue := w.queue[1..])
    ensures w.queue[0].Some? ==>
              (Iterate(cfg, w).signals == w.signals + 1 <==> Pending(Iterate(cfg, w).queue) == [])
  {
    var head, rest := w.queue[0], w.queue[1..];
    assert w.queue == [head] + rest;
    PendingAppend([head], rest);
    assert Pending([head]) == (if head.Some? then [head.value] else []) by {
      assert [head][..0] == [];
    }
    if head.Some? {
      var r := ProcessDir(cfg, w.volume, head.value);
      var w' := Iterate(cfg, w);
      assert w'.queue == rest + Items(r.jobs);
      PendingAppend(rest, Items(r.jobs));
      PendingItems(r.jobs);
      assert |Pending(w'.queue)| == |Pending(rest)| + |r.jobs| == w.queuedJobs - 1 + |r.jobs|;
    }
  }

  /**
   * Traversal ends with an empty queue and a zero count, and when it had
   * work to do the completion event was set exactly once, at the end. The
   * volume only loses paths, and deferred directories are only appended.
   */
  lemma {:induction false} TraverseDrains(cfg: Config, w: World, maxLen: nat, fanOut: nat)
    requires Traversable(w, maxLen, fanOut)
    requires w.queuedJobs == |w.queue|
    ensures var t := Traverse(cfg, w, maxLen, fanOut);
            && t.queue == [] && t.queuedJobs == 0
            && t.signals == w.signals + (if w.queue == [] then 0 else 1)
            && Shrinks(t.volume, w.volume)
            && w.deferred <= t.deferred && w.calls <= t.calls
    decreases Potential(maxLen, fanOut, Pending(w.queue))
  {
    if w.queue != [] {
      var w' := Iterate(cfg, w);
      IterateProgress(cfg, w, maxLen, fanOut);
      IterateKeepsCount(cfg, w);
      assert w.queue[0] in w.queue;
      assert Traverse(cfg, w, maxLen, fanOut) == Traverse(cfg, w', maxLen, fanOut);
      assert w'.queuedJobs == |w'.queue|;
      assert w'.signals == w.signals + (if w'.queue == [] then 1 else 0);
      assert w.deferred <= w'.deferred && w.calls <= w'.calls;
      TraverseDrains(cfg, w', maxLen, fanOut);
      ShrinksTransitive(Traverse(cfg, w', maxLen, fanOut).volume, w'.volume, w.volume);
    }
  }

  /**
   * The cleanup pass calls RemoveDirectory once per deferred directory, in
   * the order they were deferred (no sorting), whatever earlier calls
   * returned.
   */
  lemma {:induction false} CleanupInOrder(v: Volume, directories: seq<Path>)
    ensures var (w, cs) := CleanupCalls(v, directories);
            && |cs| == |directories|
            && (forall k :: 0 <= k < |cs| ==> cs[k] == RemoveDirectoryCall(directories[k], cs[k].ok))
            && Shrinks(w, v)
    decreases |directories|
  {
    if directories != [] {
      var init := directories[..|directories| - 1];
      CleanupInOrder(v, init);
      var (w, cs) := CleanupCalls(v, init);
      RemoveDirectoryMeaning(w, directories[|directories| - 1]);
    }
  }

  lemma SeedTraversable(roots: seq<Path>, v: Volume, maxLen: nat, fanOut: nat)
    requires ValidRoots(roots) && Bounded(v, maxLen, fanOut) && fanOut >= 1
    ensures Traversable(Seed(roots, Start(v)), maxLen, fanOut)
    ensures Seed(roots, Start(v)).queuedJobs == |Seed(roots, Start(v)).queue|
  {
    assert Seed(roots, Start(v)).queue == Items(RootJobs(roots));
  }

  /**
   * A whole run with one worker leaves the queue empty and the count at
   * zero, fires the completion event exactly once (never for an empty
   * command line), removes only paths and empties the deferred list.
   */
  lemma RunEndsQuiet(cfg: Config, v: Volume)
    requires ValidRoots(cfg.roots)
    ensures var r := Run(cfg, v);
            && r.queue == [] && r.queuedJobs == 0 && r.deferred == []
            && r.signals == (if cfg.roots == [] then 0 else 1)
            && Shrinks(r.volume, v)
  {
    if cfg.roots != [] {
      var (maxLen, fanOut) := BoundsOf(v);
      var seeded := Seed(cfg.roots, Start(v));
      SeedTraversable(cfg.roots, v, maxLen, fanOut);
      TraverseDrains(cfg, seeded, maxLen, fanOut);
      var drained := Traverse(cfg, seeded, maxLen, fanOut);
      var stopping := drained.(queue := drained.queue + [None]);
      var stopped := Iterate(cfg, stopping);
      assert stopped == drained;
      CleanupInOrder(stopped.volume, stopped.deferred);
      ShrinksTransitive(Run(cfg, v).volume, stopped.volume, v);
    }
  }

  /** The traversal's result does not depend on the bounds used to show that it ends. */
  lemma {:induction false} TraverseAnyBounds(cfg: Config, w: World, maxLen: nat, fanOut: nat, maxLen': nat, fanOut': nat)
    requires Traversable(w, maxLen, fanOut) && Traversable(w, maxLen', fanOut')
    ensures Traverse(cfg, w, maxLen, fanOut) == Traverse(cfg, w, maxLen', fanOut')
    decreases Potential(maxLen, fanOut, Pending(w.queue))
  {
    if w.queue != [] {
      IterateProgress(cfg, w, maxLen, fanOut);
      IterateProgress(cfg, w, maxLen', fanOut');
      TraverseAnyBounds(cfg, Iterate(cfg, w), maxLen, fanOut, maxLen', fanOut');
    }
  }

  /**
   * A run with roots is the cleanup pass after the traversal of the seeded
   * queue (the shutdown item changes nothing else), whatever bounds are used.
   */
  lemma RunWith(cfg: Config, v: Volume, maxLen: nat, fanOut: nat)
    requires ValidRoots(cfg.roots) && cfg.roots != [] && fanOut >= 1 && Bounded(v, maxLen, fanOut)
    ensures Traversable(Seed(cfg.roots, Start(v)), maxLen, fanOut)
    ensures Run(cfg, v) == Cleanup(Traverse(cfg, Seed(cfg.roots, Start(v)), maxLen, fanOut))
  {
    var (m, f) := BoundsOf(v);
    var seeded := Seed(cfg.roots, Start(v));
    SeedTraversable(cfg.roots, v, m, f);
    SeedTraversable(cfg.roots, v, maxLen, fanOut);
    TraverseAnyBounds(cfg, seeded, m, f, maxLen, fanOut);
    var drained := Traverse(cfg, seeded, m, f);
    var stopping := drained.(queue := drained.queue + [None]);
    assert Iterate(cfg, stopping) == drained;
  }

  // ---------------------------------------------------------------------
  // --keep-root over a whole run

  /** No RemoveDirectory call in `calls` names `d`. */
  predicate NeverRemoved(calls: seq<Call>, d: Path) {
    forall k :: 0 <= k < |calls| ==> !(calls[k].RemoveDirectoryCall? && calls[k].path == d)
  }

  lemma NeverRemovedAppend(a: seq<Call>, b: seq<Call>, d: Path)
    requires NeverRemoved(a, d) && NeverRemoved(b, d)
    ensures NeverRemoved(a + b, d)
  {
    forall k | 0 <= k < |a + b| ensures !((a + b)[k].RemoveDirectoryCall? && (a + b)[k].path == d) {
      if k >= |a| {
        assert (a + b)[k] == b[k - |a|];
      }
    }
  }

  /** `d` is still a directory of the volume, is not deferred, and no RemoveDirectory call has named it. */
  predicate Spared(w: World, d: Path) {
    d in w.volume.nodes && w.volume.nodes[d].Dir? && d !in w.deferred && NeverRemoved(w.calls, d)
  }

  /**
   * FastDeleteDir on any job leaves a protected directory where it is: the
   * protection check comes before the deferral and the RemoveDirectory call,
   * and DeleteFile removes only files.
   */
  lemma ProcessDirSpares(cfg: Config, v: Volume, directory: Path, d: Path)
    requires |directory| > 0 && |d| > 0 && cfg.keepRoot && IsProtected(cfg.roots, d)
    requires d in v.nodes && v.nodes[d].Dir?
    ensures var r := ProcessDir(cfg, v, directory);
            && d in r.volume.nodes && r.volume.nodes[d] == v.nodes[d]
            && NeverRemoved(r.calls, d)
            && (r.outcome == Deferred ==> directory != d)
  {
    if WildcardFits(directory) && IsListable(v, directory) {
      var listing := FindFiles(v, directory).value;
      var s := Scan(v, directory, listing);
      ScanSpares(v, directory, listing, d);
      if !s.fileFailed && !(cfg.keepRoot && IsProtected(cfg.roots, directory)) && s.jobs == [] {
        var (w, ok) := RemoveDirectory(s.volume, directory);
        assert ProcessDir(cfg, v, directory) == DirReport(RemovedNow(ok), [], w, s.calls + [RemoveDirectoryCall(directory, ok)]);
        RemoveDirectoryMeaning(s.volume, directory);
        NeverRemovedAppend(s.calls, [RemoveDirectoryCall(directory, ok)], d);
      }
    }
  }

  /** The enumeration loop calls only DeleteFile, which cannot remove a directory. */
  lemma ScanSpares(v: Volume, directory: Path, es: seq<Entry>, d: Path)
    requires WildcardFits(directory) && d in v.nodes && v.nodes[d].Dir?
    ensures var s := Scan(v, directory, es);
            d in s.volume.nodes && s.volume.nodes[d] == v.nodes[d] && NeverRemoved(s.calls, d)
  {
    ScanVolume(v, directory, es);
    ScanCalls(v, directory, es);
  }

  /** One pass of the worker loop keeps a protected directory spared. */
  lemma IterateSpares(cfg: Config, w: World, d: Path)
    requires w.queue != [] && GoodItems(w.queue)
    requires |d| > 0 && cfg.keepRoot && IsProtected(cfg.roots, d) && Spared(w, d)
    ensures Spared(Iterate(cfg, w), d)
  {
    if w.queue[0].Some? {
      var directory := w.queue[0].value;
      ProcessDirSpares(cfg, w.volume, directory, d);
      NeverRemovedAppend(w.calls, ProcessDir(cfg, w.volume, directory).calls, d);
    }
  }

  /** The worker loop keeps a protected directory spared until the queue is empty. */
  lemma {:induction false} TraverseSpares(cfg: Config, w: World, maxLen: nat, fanOut: nat, d: Path)
    requires Traversable(w, maxLen, fanOut)
    requires |d| > 0 && cfg.keepRoot && IsProtected(cfg.roots, d) && Spared(w, d)
    ensures Spared(Traverse(cfg, w, maxLen, fanOut), d)
    decreases Potential(maxLen, fanOut, Pending(w.queue))
  {
    if w.queue != [] {
      IterateProgress(cfg, w, maxLen, fanOut);
      IterateSpares(cfg, w, d);
      assert Traverse(cfg, w, maxLen, fanOut) == Traverse(cfg, Iterate(cfg, w), maxLen, fanOut);
      TraverseSpares(cfg, Iterate(cfg, w), maxLen, fanOut, d);
    }
  }

  /** The cleanup pass neither names nor removes a directory that was not deferred. */
  lemma {:induction false} CleanupSpares(v: Volume, directories: seq<Path>, d: Path)
    requires d in v.nodes && d !in directories
    ensures var (w, cs) := CleanupCalls(v, directories);
            d in w.nodes && w.nodes[d] == v.nodes[d] && NeverRemoved(cs, d)
    decreases |directories|
  {
    if directories != [] {
      var init, last := directories[..|directories| - 1], directories[|directories| - 1];
      assert directories == init + [last];
      CleanupSpares(v, init, d);
      var (w, cs) := CleanupCalls(v, init);
      RemoveDirectoryMeaning(w, last);
      NeverRemovedAppend(cs, [RemoveDirectoryCall(last, RemoveDirectory(w, last).1)], d);
    }
  }

  /**
   * Under `--keep-root`, a directory that matches a root survives the whole
   * run unchanged, whatever else the run removes, and no RemoveDirectory
   * call ever names it.
   */
  lemma RunSparesProtected(cfg: Config, v: Volume, d: Path)
    requires ValidRoots(cfg.roots) && cfg.keepRoot && |d| > 0 && IsProtected(cfg.roots, d)
    requires d in v.nodes && v.nodes[d].Dir?
    ensures var r := Run(cfg, v);
            d in r.volume.nodes && r.volume.nodes[d] == v.nodes[d] && NeverRemoved(r.calls, d)
  {
    var (maxLen, fanOut) := BoundsOf(v);
    RunWith(cfg, v, maxLen, fanOut);
    var seeded := Seed(cfg.roots, Start(v));
    TraverseSpares(cfg, seeded, maxLen, fanOut, d);
    var drained := Traverse(cfg, seeded, maxLen, fanOut);
    CleanupSpares(drained.volume, drained.deferred, d);
    NeverRemovedAppend(drained.calls, CleanupCalls(drained.volume, drained.deferred).1, d);
    RunEndsQuiet(cfg, v);
  }

  /**
   * `--keep-root` over a whole run: the directory named by a root that does
   * not end in '/' is still there at the end, and no RemoveDirectory call
   * names it.
   */
  lemma KeepRootKeepsRoot(cfg: Config, v: Volume, root: Path)
    requires ValidRoots(cfg.roots) && cfg.keepRoot && root in cfg.roots
    requires |root| > 0 && NoNul(root) && root[|root| - 1] != '/'
    requires NormalizeRoot(root) in v.nodes && v.nodes[NormalizeRoot(root)].Dir?
    ensures var r := Run(cfg, v);
            NormalizeRoot(root) in r.volume.nodes && NeverRemoved(r.calls, NormalizeRoot(root))
  {
    RootProtectsOwnJob(root);
    RunSparesProtected(cfg, v, NormalizeRoot(root));
  }

  // ---------------------------------------------------------------------
  // The program's globals and its functions, imperatively

  class Engine {
    /** `sRootDirectories` and `sKeepRoot`, fixed once the command line is read. */
    const roots: seq<Path>
    const keepRoot: bool
    /** `sDirectoryQueue`. */
    const queue: ThreadQueue<Item>
    /** `sQueuedJobs`. */
    var queuedJobs: int
    /** How many times SetEvent(sQueueCompleted) has been called. */
    var signals: nat
    /** `sDeferredDirectories`. */
    var deferred: seq<Path>
    /** The filesystem, and the DeleteFile/RemoveDirectory calls made on it. */
    var volume: Volume
    var calls: seq<Call>

    function Settings(): (cfg: Config) {
      Config(roots, keepRoot)
    }

    function State(): (w: World)
      reads this, queue
    {
      World(queue.items, queuedJobs, signals, deferred, volume, calls)
    }

    constructor (roots: seq<Path>, keepRoot: bool, volume: Volume)
      ensures this.roots == roots && this.keepRoot == keepRoot
      ensures State() == Start(volume) && fresh(queue)
    {
      this.roots := roots;
      this.keepRoot := keepRoot;
      queue := new ThreadQueue<Item>();
      queuedJobs, signals, deferred := 0, 0, [];
      this.volume, calls := volume, [];
    }

    /**
     * One pass of the enumeration loop on entry `e`, given the report `s` of
     * the passes so far and the state the method started from.
     */
    method DeleteEntry(directory: Path, e: Entry, fileFailed: bool, queuedAny: bool,
                       ghost s: ScanReport, ghost items0: seq<Item>, ghost queuedJobs0: int, ghost calls0: seq<Call>)
      returns (failedNow: bool, queuedNow: bool)
      requires WildcardFits(directory)
      requires volume == s.volume && calls == calls0 + s.calls
      requires queue.items == items0 + Items(s.jobs) && queuedJobs == queuedJobs0 + |s.jobs|
      requires fileFailed == s.fileFailed && queuedAny == (s.jobs != [])
      modifies this, queue
      ensures var n := ScanEntry(s, directory, e);
              && volume == n.volume && calls == calls0 + n.calls
              && queue.items == items0 + Items(n.jobs) && queuedJobs == queuedJobs0 + |n.jobs|
              && failedNow == n.fileFailed && queuedNow == (n.jobs != [])
      ensures signals == old(signals) && deferred == old(deferred)
    {
      failedNow, queuedNow := fileFailed, queuedAny;
      if e.isDirectory {
        if !IsDotName(e.name) {
          QueueSubdirectory(directory, e.name);
          queuedNow := true;
          assert Items(s.jobs + [ChildJob(directory, e.name)]) == Items(s.jobs) + [Some(ChildJob(directory, e.name))];
        }
      } else {
        var ok := DeleteFileEntry(directory, e.name);
        if !ok {
          failedNow := true;
        }
      }
    }

    /**
     * The FindNextFile loop of FastDeleteDir: queue every subdirectory other
     * than "." and "..", delete every file, and report whether a file could
     * not be deleted and whether a subdirectory was queued.
     */
    method DeleteEntries(directory: Path, listing: seq<Entry>) returns (fileFailed: bool, queuedAny: bool)
      requires WildcardFits(directory)
      modifies this, queue
      ensures var s := Scan(old(volume), directory, listing);
              && fileFailed == s.fileFailed && queuedAny == (s.jobs != [])
              && queue.items == old(queue.items) + Items(s.jobs)
              && queuedJobs == old(queuedJobs) + |s.jobs|
              && volume == s.volume && calls == old(calls) + s.calls
              && signals == old(signals) && deferred == old(deferred)
    {
      ghost var v0 := volume;
      ghost var s := Scan(v0, directory, []);
      fileFailed, queuedAny := false, false;
      for i := 0 to |listing|
        invariant s == Scan(v0, directory, listing[..i])
        invariant volume == s.volume && calls == old(calls) + s.calls
        invariant queue.items == old(queue.items) + Items(s.jobs) && queuedJobs == old(queuedJobs) + |s.jobs|
        invariant fileFailed == s.fileFailed && queuedAny == (s.jobs != [])
        invariant signals == old(signals) && deferred == old(deferred)
      {
        assert listing[..i + 1][..i] == listing[..i];
        fileFailed, queuedAny :=
          DeleteEntry(directory, listing[i], fileFailed, queuedAny, s, old(queue.items), old(queuedJobs), old(calls));
        s := ScanEntry(s, directory, listing[i]);
      }
      assert listing[..|listing|] == listing;
    }

    /** Queue one subdirectory of `directory`: count it, then push its job. */
    method QueueSubdirectory(directory: Path, name: Path)
      modifies this, queue
      ensures queue.items == old(queue.items) + [Some(ChildJob(directory, name))]
      ensures queuedJobs == old(queuedJobs) + 1
      ensures volume == old(volume) && calls == old(calls)
      ensures signals == old(signals) && deferred == old(deferred)
    {
      var parameter := MakeChildParameter(directory, name);
      queuedJobs := queuedJobs + 1;
      queue.PushBack(Some(parameter[..parameter.Length - 1]));
    }

    /** Build the file's path in the MAX_PATH buffer and call DeleteFile on it. */
    method DeleteFileEntry(directory: Path, name: Path) returns (ok: bool)
      requires WildcardFits(directory)
      modifies this
      ensures (volume, ok) == DeleteFile(old(volume), FileName(directory, name))
      ensures calls == old(calls) + [DeleteFileCall(FileName(directory, name), ok)]
      ensures queuedJobs == old(queuedJobs) && signals == old(signals) && deferred == old(deferred)
    {
      var fileName := MakeFileName(directory, name);
      var result := DeleteFile(volume, fileName);
      volume, ok := result.0, result.1;
      calls := calls + [DeleteFileCall(fileName, ok)];
    }

    /** The `sKeepRoot` test of FastDeleteDir: does the directory name one of the roots? */
    method IsRootDirectory(directory: Path) returns (isRoot: bool)
      requires |directory| > 0
      ensures isRoot == IsProtected(roots, directory)
    {
      for k := 0 to |roots|
        invariant forall j :: 0 <= j < k ==> !MatchesRoot(directory, roots[j])
      {
        if MatchesRoot(directory, roots[k]) {
          return true;
        }
      }
      return false;
    }

    /** FastDeleteDir: returns whether the directory must be deferred. */
    method FastDeleteDir(directory: Path) returns (defer: bool)
      requires |directory| > 0
      modifies this, queue
      ensures var r := ProcessDir(Settings(), old(volume), directory);
              && defer == (r.outcome == Deferred)
              && queue.items == old(queue.items) + Items(r.jobs)
              && queuedJobs == old(queuedJobs) + |r.jobs|
              && volume == r.volume && calls == old(calls) + r.calls
              && signals == old(signals) && deferred == old(deferred)
    {
      var fits, wildcard := MakeWildcard(directory);
      if !fits {
        return false;
      }
      var found := FindFiles(volume, directory);
      if found.None? {
        return false;
      }
      var fileFailed, queuedAny := DeleteEntries(directory, found.value);
      if fileFailed {
        return false;
      }
      if keepRoot {
        var isRoot := IsRootDirectory(directory);
        if isRoot {
          return false;
        }
      }
      if queuedAny {
        return true;
      }
      var removed := RemoveDirectory(volume, directory);
      volume := removed.0;
      calls := calls + [RemoveDirectoryCall(directory, removed.1)];
      return false;
    }

    /**
     * One pass of FastDeleteThread's loop: pop an item; a null item ends the
     * loop; otherwise process the directory, keep it if deferred, decrement
     * the count and signal completion when it reaches zero.
     */
    method WorkerIteration() returns (exit: bool)
      requires queue.items != [] && GoodItems(queue.items)
      modifies this, queue
      ensures State() == Iterate(Settings(), old(State()))
      ensures exit <==> old(queue.items[0]) == None
    {
      var directory := queue.PopFront();
      if directory.None? {
        return true;
      }
      assert old(queue.items)[0] in old(queue.items);
      var defer := FastDeleteDir(directory.value);
      if defer {
        deferred := deferred + [directory.value];
      }
      queuedJobs := queuedJobs - 1;
      if queuedJobs == 0 {
        signals := signals + 1;
      }
      return false;
    }

    /** The main thread queues one normalised job per root, counting each before pushing it. */
    method SeedRoots()
      requires ValidRoots(roots)
      modifies this, queue
      ensures State() == Seed(roots, old(State()))
    {
      ghost var jobs := RootJobs(roots);
      for i := 0 to |roots|
        invariant queue.items == old(queue.items) + Items(jobs[..i])
        invariant queuedJobs == old(queuedJobs) + i
        invariant signals == old(signals) && deferred == old(deferred)
        invariant volume == old(volume) && calls == old(calls)
      {
        var parameter := MakeRootParameter(roots[i]);
        queuedJobs := queuedJobs + 1;
        queue.PushBack(Some(parameter[..parameter.Length - 1]));
        assert Items(jobs[..i + 1]) == Items(jobs[..i]) + [Some(jobs[i])];
      }
      assert jobs[..|roots|] == jobs;
    }

    /** The cleanup pass: RemoveDirectory on every deferred directory in list order, then clear the list. */
    method CleanupDeferred()
      modifies this
      ensures State() == Cleanup(old(State()))
    {
      var directories := deferred;
      for i := 0 to |directories|
        invariant deferred == directories && queuedJobs == old(queuedJobs) && signals == old(signals)
        invariant volume == CleanupCalls(old(volume), directories[..i]).0
        invariant calls == old(calls) + CleanupCalls(old(volume), directories[..i]).1
      {
        assert directories[..i + 1][..i] == directories[..i];
        var removed := RemoveDirectory(volume, directories[i]);
        volume := removed.0;
        calls := calls + [RemoveDirectoryCall(directories[i], removed.1)];
      }
      assert directories[..|directories|] == directories;
      deferred := [];
    }

    /**
     * _tmain once the command line is validated, with one worker thread:
     * nothing to do without roots; otherwise queue the roots, let the worker
     * drain the queue while waiting for completion, signal shutdown with one
     * null item, let the worker read it, and run the cleanup pass.
     */
    method Execute()
      requires ValidRoots(roots) && State() == Start(volume)
      modifies this, queue
      ensures State() == Run(Settings(), old(volume))
      ensures queue.items == [] && queuedJobs == 0 && deferred == []
      ensures signals == (if roots == [] then 0 else 1)
    {
      RunEndsQuiet(Settings(), volume);
      if roots == [] {
        return;
      }
      ghost var (maxLen, fanOut) := BoundsOf(volume);
      SeedTraversable(roots, volume, maxLen, fanOut);
      SeedRoots();
      ghost var seeded := State();
      while queue.items != []
        invariant Traversable(State(), maxLen, fanOut)
        invariant Traverse(Settings(), State(), maxLen, fanOut) == Traverse(Settings(), seeded, maxLen, fanOut)
        decreases Potential(maxLen, fanOut, Pending(queue.items))
      {
        IterateProgress(Settings(), State(), maxLen, fanOut);
        var exit := WorkerIteration();
      }
      queue.PushBack(None);
      var exit := WorkerIteration();
      CleanupDeferred();
    }
  }
}
