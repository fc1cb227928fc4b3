/**
 * The threadpool variant kept under Backup/: every directory becomes a work
 * item of a Windows threadpool, `sWorkQueued` counts the submitted work
 * items that have not finished, and the main thread waits until the count
 * is zero. There is no deferred list and no `--keep-root`: a directory that
 * still had subdirectories is simply left in place. A CreateThreadpoolWork
 * failure stops the enumeration (or the submission of the roots) at that
 * entry.
 *
 * The pool is modelled running one callback at a time, oldest submission
 * first; `refused` is the set of jobs for which CreateThreadpoolWork fails.
 */
module FastDeleteMS {
  import opened Wrappers
  import opened Paths
  import opened FileSystem
  import opened Progress
  import FastDelete

  // ---------------------------------------------------------------------
  // One callback: FastDeleteDir

  /**
   * What the enumeration loop has done so far: as in the queue version, plus
   * `stopped` once a CreateThreadpoolWork call failed and the loop broke.
   */
  datatype ScanReport = ScanReport(volume: Volume, calls: seq<Call>, jobs: seq<Path>, fileFailed: bool, stopped: bool)

  /** One pass of the enumeration loop, on entry `e`; nothing once the loop has broken. */
  function ScanEntry(s: ScanReport, refused: set<Path>, directory: Path, e: Entry): (next: ScanReport)
    requires WildcardFits(directory)
  {
    if s.stopped then s
    else if e.isDirectory then
      if IsDotName(e.name) then s
      else
        var job := ChildJob(directory, e.name);
        if job in refused then s.(stopped := true) else s.(jobs := s.jobs + [job])
    else
      var path := FileName(directory, e.name);
      var (w, ok) := DeleteFile(s.volume, path);
      s.(volume := w, calls := s.calls + [DeleteFileCall(path, ok)], fileFailed := s.fileFailed || !ok)
  }

  function Scan(v: Volume, refused: set<Path>, directory: Path, es: seq<Entry>): (s: ScanReport)
    requires WildcardFits(directory)
    decreases |es|
  {
    if es == [] then ScanReport(v, [], [], false, false)
    else ScanEntry(Scan(v, refused, directory, es[..|es| - 1]), refused, directory, es[|es| - 1])
  }

  /** How a callback ended: gave up, left a directory with subdirectories, or called RemoveDirectory. */
  datatype Outcome = Abandoned | LeftInPlace | RemovedNow(ok: bool)

  datatype WorkReport = WorkReport(outcome: Outcome, jobs: seq<Path>, volume: Volume, calls: seq<Call>)

  function ProcessDir(v: Volume, refused: set<Path>, directory: Path): (r: WorkReport)
    requires |directory| > 0
  {
    if !WildcardFits(directory) then WorkReport(Abandoned, [], v, [])
    else
      match FindFiles(v, directory)
      case None => WorkReport(Abandoned, [], v, [])
      case Some(listing) =>
        var s := Scan(v, refused, directory, listing);
        if s.fileFailed then WorkReport(Abandoned, s.jobs, s.volume, s.calls)
        else if s.jobs != [] then WorkReport(LeftInPlace, s.jobs, s.volume, s.calls)
        else
          var (w, ok) := RemoveDirectory(s.volume, directory);
          WorkReport(RemovedNow(ok), [], w, s.calls + [RemoveDirectoryCall(directory, ok)])
  }

  // ---------------------------------------------------------------------
  // The pool and the main thread

  /** The submitted work items not yet run, `sWorkQueued`, and the filesystem with the calls made on it. */
  datatype Pool = Pool(pending: seq<Path>, workQueued: int, volume: Volume, calls: seq<Call>)

  predicate GoodJobs(jobs: seq<Path>) {
    forall i :: 0 <= i < |jobs| ==> |jobs[i]| > 0
  }

  /** The pool runs the oldest work item: FastDeleteWork on its directory. */
  function Work(refused: set<Path>, p: Pool): (next: Pool)
    requires p.pending != [] && GoodJobs(p.pending)
  {
    var r := ProcessDir(p.volume, refused, p.pending[0]);
    Pool(p.pending[1..] + r.jobs, p.workQueued + |r.jobs| - 1, r.volume, p.calls + r.calls)
  }

  /**
   * The root jobs the main thread manages to submit: one per root, in
   * order, up to the first one CreateThreadpoolWork refuses.
   */
  function Submitted(roots: seq<Path>, refused: set<Path>): (jobs: seq<Path>)
    requires FastDelete.ValidRoots(roots)
    decreases |roots|
  {
    if roots == [] then []
    else
      var job := NormalizeRoot(roots[0]);
      if job in refused then [] else [job] + Submitted(roots[1..], refused)
  }

  /** The submitted jobs are the normalised roots, in order, stopping just before the first refused one. */
  lemma {:induction false} SubmittedMeaning(roots: seq<Path>, refused: set<Path>)
    requires FastDelete.ValidRoots(roots)
    ensures var jobs := Submitted(roots, refused);
            && |jobs| <= |roots|
            && (forall j :: 0 <= j < |jobs| ==> jobs[j] == NormalizeRoot(roots[j]) && jobs[j] !in refused)
            && (|jobs| < |roots| ==> NormalizeRoot(roots[|jobs|]) in refused)
    decreases |roots|
  {
    if roots != [] && NormalizeRoot(roots[0]) !in refused {
      var jobs, rest := Submitted(roots, refused), Submitted(roots[1..], refused);
      SubmittedMeaning(roots[1..], refused);
      forall j | 0 <= j < |jobs| ensures jobs[j] == NormalizeRoot(roots[j]) && jobs[j] !in refused {
        if j > 0 {
          assert jobs[j] == rest[j - 1] && roots[1..][j - 1] == roots[j];
        }
      }
      if |jobs| < |roots| {
        assert roots[1..][|rest|] == roots[|jobs|];
      }
    }
  }

  /** One root of the submission loop: it is either refused, ending it, or submitted. */
  lemma SubmittedStep(roots: seq<Path>, refused: set<Path>, i: nat)
    requires FastDelete.ValidRoots(roots) && i < |roots|
    ensures NormalizeRoot(roots[i]) in refused ==> Submitted(roots[i..], refused) == []
    ensures NormalizeRoot(roots[i]) !in refused ==>
              Submitted(roots[i..], refused) == [NormalizeRoot(roots[i])] + Submitted(roots[i + 1..], refused)
  {
    assert roots[i..][0] == roots[i] && roots[i..][1..] == roots[i + 1..];
  }

  function Submit(roots: seq<Path>, refused: set<Path>, p: Pool): (submitted: Pool)
    requires FastDelete.ValidRoots(roots)
  {
    var jobs := Submitted(roots, refused);
    p.(pending := p.pending + jobs, workQueued := p.workQueued + |jobs|)
  }

  predicate Drainable(p: Pool, maxLen: nat, fanOut: nat) {
    fanOut >= 1 && Bounded(p.volume, maxLen, fanOut) && GoodJobs(p.pending)
  }

  /** The pool runs work items until none is pending. */
  function Drain(refused: set<Path>, p: Pool, maxLen: nat, fanOut: nat): (q: Pool)
    requires Drainable(p, maxLen, fanOut)
    ensures q.pending == []
    decreases Potential(maxLen, fanOut, p.pending)
  {
    if p.pending == [] then p
    else
      WorkProgress(refused, p, maxLen, fanOut);
      Drain(refused, Work(refused, p), maxLen, fanOut)
  }

  function Start(v: Volume): (p: Pool) {
    Pool([], 0, v, [])
  }

  /** The whole run: submit the roots, then wait until `sWorkQueued` is zero. */
  ghost function Run(roots: seq<Path>, refused: set<Path>, v: Volume): (final: Pool)
    requires FastDelete.ValidRoots(roots)
  {
    var (maxLen, fanOut) := BoundsOf(v);
    var p := Submit(roots, refused, Start(v));
    SubmittedMeaning(roots, refused);
    assert Drainable(p, maxLen, fanOut);
    Drain(refused, p, maxLen, fanOut)
  }

  // ---------------------------------------------------------------------
  // Properties

  /** The report of the queue version's enumeration that a threadpool enumeration agrees with. */
  predicate Agrees(s: ScanReport, t: FastDelete.ScanReport) {
    s.volume == t.volume && s.calls == t.calls && s.jobs == t.jobs && s.fileFailed == t.fileFailed
  }

  /** How many entries the enumeration loop got through before a refusal broke it. */
  function Reached(v: Volume, refused: set<Path>, directory: Path, es: seq<Entry>): (k: nat)
    requires WildcardFits(directory)
    ensures k <= |es|
    decreases |es|
  {
    if es == [] then 0
    else
      var e := es[|es| - 1];
      if Scan(v, refused, directory, es[..|es| - 1]).stopped then Reached(v, refused, directory, es[..|es| - 1])
      else if e.isDirectory && !IsDotName(e.name) && ChildJob(directory, e.name) in refused then |es| - 1
      else |es|
  }

  /**
   * Once CreateThreadpoolWork has failed, the loop has broken: later entries
   * change nothing.
   */
  lemma {:induction false} StoppedStaysStopped(v: Volume, refused: set<Path>, directory: Path, es: seq<Entry>, more: seq<Entry>)
    requires WildcardFits(directory) && Scan(v, refused, directory, es).stopped
    ensures Scan(v, refused, directory, es + more) == Scan(v, refused, directory, es)
    decreases |more|
  {
    if more != [] {
      var init := more[..|more| - 1];
      StoppedStaysStopped(v, refused, directory, es, init);
      assert (es + more)[..|es + more| - 1] == es + init;
    } else {
      assert es + more == es;
    }
  }

  /**
   * The threadpool enumeration does exactly what the queue version's does on
   * the entries it reached; it stops only at a subdirectory whose work item
   * was refused, and without a refusal it reaches every entry.
   */
  lemma {:induction false} ScanAgrees(v: Volume, refused: set<Path>, directory: Path, es: seq<Entry>)
    requires WildcardFits(directory)
    ensures var s, k := Scan(v, refused, directory, es), Reached(v, refused, directory, es);
            && Agrees(s, FastDelete.Scan(v, directory, es[..k]))
            && (s.stopped <==> k < |es|)
            && (s.stopped ==> es[k].isDirectory && !IsDotName(es[k].name) && ChildJob(directory, es[k].name) in refused)
    decreases |es|
  {
    if es != [] {
      var init, e := es[..|es| - 1], es[|es| - 1];
      ScanAgrees(v, refused, directory, init);
      var k0 := Reached(v, refused, directory, init);
      assert es[..k0] == init[..k0];
      assert init[..|init|] == init;
      assert es[..|es|] == es;
      if !Scan(v, refused, directory, init).stopped && !(e.isDirectory && !IsDotName(e.name) && ChildJob(directory, e.name) in refused) {
        assert es[..|es|][..|es| - 1] == init;
      }
    }
  }

  /** Every job the enumeration records is the job of a subdirectory entry other than "." and "..". */
  lemma {:induction false} JobsFromEntries(v: Volume, refused: set<Path>, directory: Path, es: seq<Entry>)
    requires WildcardFits(directory)
    ensures var s := Scan(v, refused, directory, es);
            && |s.jobs| <= |es|
            && forall c :: c in s.jobs ==>
                 exists e :: e in es && e.isDirectory && !IsDotName(e.name) && c == ChildJob(directory, e.name)
    decreases |es|
  {
    if es != [] {
      var init := es[..|es| - 1];
      JobsFromEntries(v, refused, directory, init);
      forall e | e in init ensures e in es { }
    }
  }

  /** The subdirectories the enumeration submitted exist in the volume, under the listed directory. */
  lemma SubmittedExist(v: Volume, refused: set<Path>, directory: Path)
    requires WildcardFits(directory) && IsListable(v, directory)
    ensures var listing := FindFiles(v, directory).value;
            var s := Scan(v, refused, directory, listing);
            && |s.jobs| <= |listing|
            && forall c :: c in s.jobs ==> |directory| < |c| && c in v.nodes
  {
    var listing := FindFiles(v, directory).value;
    JobsFromEntries(v, refused, directory, listing);
    forall c | c in Scan(v, refused, directory, listing).jobs ensures |directory| < |c| && c in v.nodes {
      var e :| e in listing && e.isDirectory && !IsDotName(e.name) && c == ChildJob(directory, e.name);
      FastDelete.ListedSubdirectoryExists(v, directory, e);
    }
  }

  /** The enumeration only removes paths from the volume. */
  lemma ScanShrinks(v: Volume, refused: set<Path>, directory: Path, es: seq<Entry>)
    requires WildcardFits(directory)
    ensures Shrinks(Scan(v, refused, directory, es).volume, v)
  {
    ScanAgrees(v, refused, directory, es);
    FastDelete.ScanVolume(v, directory, es[..Reached(v, refused, directory, es)]);
  }

  /** Every job a callback submits is one CreateThreadpoolWork accepted, for a subdirectory of the one it processed. */
  lemma ProcessDirJobs(v: Volume, refused: set<Path>, directory: Path)
    requires |directory| > 0
    ensures var r := ProcessDir(v, refused, directory);
            && Shrinks(r.volume, v)
            && (r.jobs != [] ==> directory in v.nodes && v.nodes[directory].Dir? &&
                                 |r.jobs| <= |v.nodes[directory].entries| + 2)
            && forall c :: c in r.jobs ==> |directory| < |c| && c in v.nodes && c !in refused
  {
    if WildcardFits(directory) && IsListable(v, directory) {
      var listing := FindFiles(v, directory).value;
      var s := Scan(v, refused, directory, listing);
      SubmittedExist(v, refused, directory);
      ScanShrinks(v, refused, directory, listing);
      NotRefused(v, refused, directory, listing);
      if !s.fileFailed && s.jobs == [] {
        RemoveDirectoryMeaning(s.volume, directory);
        ShrinksTransitive(RemoveDirectory(s.volume, directory).0, s.volume, v);
      }
    }
  }

  /** The enumeration never records a job whose work item was refused. */
  lemma {:induction false} NotRefused(v: Volume, refused: set<Path>, directory: Path, es: seq<Entry>)
    requires WildcardFits(directory)
    ensures forall c :: c in Scan(v, refused, directory, es).jobs ==> c !in refused
    decreases |es|
  {
    if es != [] {
      NotRefused(v, refused, directory, es[..|es| - 1]);
    }
  }

  /**
   * FastDeleteDir calls RemoveDirectory, once and last, exactly when the
   * enumeration ran, no DeleteFile failed and no subdirectory was submitted;
   * a directory that had a subdirectory submitted is left in place.
   */
  lemma ProcessDirOutcome(v: Volume, refused: set<Path>, directory: Path)
    requires |directory| > 0
    ensures var r := ProcessDir(v, refused, directory);
            var ran := WildcardFits(directory) && IsListable(v, directory);
            var s := if ran then Scan(v, refused, directory, FindFiles(v, directory).value) else ScanReport(v, [], [], false, false);
            && (r.outcome == Abandoned <==> !ran || s.fileFailed)
            && (r.outcome == LeftInPlace <==> ran && !s.fileFailed && s.jobs != [])
            && (r.outcome.RemovedNow? <==> ran && !s.fileFailed && s.jobs == [])
            && (FastDelete.Removals(r.calls) == if r.outcome.RemovedNow? then 1 else 0)
            && (r.outcome.RemovedNow? ==> r.calls[|r.calls| - 1] == RemoveDirectoryCall(directory, r.outcome.ok))
            && (directory in v.nodes && directory !in r.volume.nodes <==> r.outcome == RemovedNow(true))
  {
    var r := ProcessDir(v, refused, directory);
    if WildcardFits(directory) && IsListable(v, directory) {
      var listing := FindFiles(v, directory).value;
      var s := Scan(v, refused, directory, listing);
      var k := Reached(v, refused, directory, listing);
      ScanAgrees(v, refused, directory, listing);
      FastDelete.ScanCalls(v, directory, listing[..k]);
      FastDelete.ScanVolume(v, directory, listing[..k]);
      FastDelete.NoRemovals(s.calls);
      if !s.fileFailed && s.jobs == [] {
        RemoveDirectoryMeaning(s.volume, directory);
        assert r.calls[..|r.calls| - 1] == s.calls;
      }
    }
  }

  /** One callback keeps the pool drainable, only removes from the volume, and lowers the potential. */
  lemma WorkProgress(refused: set<Path>, p: Pool, maxLen: nat, fanOut: nat)
    requires Drainable(p, maxLen, fanOut) && p.pending != []
    ensures Drainable(Work(refused, p), maxLen, fanOut)
    ensures Shrinks(Work(refused, p).volume, p.volume)
    ensures Potential(maxLen, fanOut, Work(refused, p).pending) < Potential(maxLen, fanOut, p.pending)
  {
    var directory := p.pending[0];
    var r := ProcessDir(p.volume, refused, directory);
    ProcessDirJobs(p.volume, refused, directory);
    ShrinksBounded(r.volume, p.volume, maxLen, fanOut);
    var rest := p.pending[1..];
    assert p.pending == [directory] + rest;
    PotentialDrops(maxLen, fanOut, directory, rest, r.jobs);
    var q := rest + r.jobs;
    forall i | 0 <= i < |q| ensures |q[i]| > 0 {
      if i >= |rest| {
        assert q[i] in r.jobs;
      } else {
        assert q[i] == p.pending[i + 1];
      }
    }
  }

  /**
   * Each callback decrements `sWorkQueued` once and increments it once per
   * work item it submitted, so the count stays the number of pending items.
   */
  lemma WorkKeepsCount(refused: set<Path>, p: Pool)
    requires p.pending != [] && GoodJobs(p.pending)
    ensures var q, r := Work(refused, p), ProcessDir(p.volume, refused, p.pending[0]);
            && q.workQueued == p.workQueued - 1 + |r.jobs|
            && q.workQueued - |q.pending| == p.workQueued - |p.pending|
            && q.pending[..|p.pending| - 1] == p.pending[1..]
  {
  }

  /**
   * Draining runs every pending item: afterwards nothing is pending, the
   * count has dropped by what was pending (to zero when it counted the
   * pending items), the volume only lost paths, and calls were only added.
   */
  lemma {:induction false} DrainEmpties(refused: set<Path>, p: Pool, maxLen: nat, fanOut: nat)
    requires Drainable(p, maxLen, fanOut)
    ensures var q := Drain(refused, p, maxLen, fanOut);
            && q.pending == []
            && q.workQueued == p.workQueued - |p.pending|
            && Shrinks(q.volume, p.volume)
            && p.calls <= q.calls
    decreases Potential(maxLen, fanOut, p.pending)
  {
    if p.pending != [] {
      WorkProgress(refused, p, maxLen, fanOut);
      WorkKeepsCount(refused, p);
      var w := Work(refused, p);
      DrainEmpties(refused, w, maxLen, fanOut);
      ShrinksTransitive(Drain(refused, w, maxLen, fanOut).volume, w.volume, p.volume);
    }
  }

  /**
   * The main thread's wait ends with no work pending and `sWorkQueued` at
   * zero, having submitted the roots up to the first refused one.
   */
  lemma RunEndsIdle(roots: seq<Path>, refused: set<Path>, v: Volume)
    requires FastDelete.ValidRoots(roots)
    ensures var q := Run(roots, refused, v);
            q.pending == [] && q.workQueued == 0 && Shrinks(q.volume, v)
  {
    var (maxLen, fanOut) := BoundsOf(v);
    SubmittedMeaning(roots, refused);
    DrainEmpties(refused, Submit(roots, refused, Start(v)), maxLen, fanOut);
  }

  /**
   * When CreateThreadpoolWork never fails, a callback deletes the same files,
   * submits the same subdirectories and makes the same calls as the queue
   * version's FastDeleteDir without `--keep-root`; it leaves in place the
   * directories the queue version defers.
   */
  lemma AgreesWithQueueVersion(roots: seq<Path>, v: Volume, directory: Path)
    requires |directory| > 0
    ensures var r, t := ProcessDir(v, {}, directory), FastDelete.ProcessDir(FastDelete.Config(roots, false), v, directory);
            && r.jobs == t.jobs && r.volume == t.volume && r.calls == t.calls
            && (r.outcome == Abandoned <==> t.outcome == FastDelete.Abandoned)
            && (r.outcome == LeftInPlace <==> t.outcome == FastDelete.Deferred)
            && (forall ok :: r.outcome == RemovedNow(ok) <==> t.outcome == FastDelete.RemovedNow(ok))
  {
    if WildcardFits(directory) && IsListable(v, directory) {
      var listing := FindFiles(v, directory).value;
      ScanAgrees(v, {}, directory, listing);
      assert listing[..|listing|] == listing;
    }
  }

  // ---------------------------------------------------------------------
  // The program's globals and its functions, imperatively

  class Threadpool {
    /** The directories named on the command line. */
    const roots: seq<Path>
    /** The jobs for which CreateThreadpoolWork fails. */
    const refused: set<Path>
    /** The work items submitted to the pool and not yet run, oldest first. */
    var pending: seq<Path>
    /** `sWorkQueued`. */
    var workQueued: int
    /** The filesystem, and the DeleteFile/RemoveDirectory calls made on it. */
    var volume: Volume
    var calls: seq<Call>

    function State(): (p: Pool)
      reads this
    {
      Pool(pending, workQueued, volume, calls)
    }

    constructor (roots: seq<Path>, refused: set<Path>, volume: Volume)
      ensures this.roots == roots && this.refused == refused
      ensures State() == Start(volume)
    {
      this.roots, this.refused := roots, refused;
      pending, workQueued := [], 0;
      this.volume, calls := volume, [];
    }

    /**
     * CreateThreadpoolWork for `job`, then SubmitThreadpoolWork and
     * InterlockedIncrement; false when the work item could not be created.
     */
    method SubmitWork(job: Path) returns (submitted: bool)
      modifies this
      ensures submitted <==> job !in refused
      ensures pending == old(pending) + (if submitted then [job] else [])
      ensures workQueued == old(workQueued) + (if submitted then 1 else 0)
      ensures volume == old(volume) && calls == old(calls)
    {
      if job in refused {
        return false;
      }
      pending := pending + [job];
      workQueued := workQueued + 1;
      return true;
    }

    /** Build the job of one subdirectory of `directory` and submit it as a work item. */
    method SubmitSubdirectory(directory: Path, name: Path) returns (submitted: bool)
      modifies this
      ensures submitted <==> ChildJob(directory, name) !in refused
      ensures pending == old(pending) + (if submitted then [ChildJob(directory, name)] else [])
      ensures workQueued == old(workQueued) + (if submitted then 1 else 0)
      ensures volume == old(volume) && calls == old(calls)
    {
      var parameter := MakeChildParameter(directory, name);
      submitted := SubmitWork(parameter[..parameter.Length - 1]);
    }

    /** Build the file's path in the MAX_PATH buffer and call DeleteFile on it. */
    method DeleteFileEntry(directory: Path, name: Path) returns (ok: bool)
      requires WildcardFits(directory)
      modifies this
      ensures (volume, ok) == DeleteFile(old(volume), FileName(directory, name))
      ensures calls == old(calls) + [DeleteFileCall(FileName(directory, name), ok)]
      ensures pending == old(pending) && workQueued == old(workQueued)
    {
      var fileName := MakeFileName(directory, name);
      var result := DeleteFile(volume, fileName);
      volume, ok := result.0, result.1;
      calls := calls + [DeleteFileCall(fileName, ok)];
    }

    /**
     * One pass of the enumeration loop on entry `e`, given the report `s` of
     * the passes so far and the state the method started from.
     */
    method DeleteEntry(directory: Path, e: Entry, haveFiles: bool, haveDirectories: bool,
                       ghost s: ScanReport, ghost pending0: seq<Path>, ghost workQueued0: int, ghost calls0: seq<Call>)
      returns (filesLeft: bool, directoriesLeft: bool, stop: bool)
      requires WildcardFits(directory) && !s.stopped
      requires volume == s.volume && calls == calls0 + s.calls
      requires pending == pending0 + s.jobs && workQueued == workQueued0 + |s.jobs|
      requires haveFiles == s.fileFailed && haveDirectories == (s.jobs != [])
      modifies this
      ensures var n := ScanEntry(s, refused, directory, e);
              && volume == n.volume && calls == calls0 + n.calls
              && pending == pending0 + n.jobs && workQueued == workQueued0 + |n.jobs|
              && filesLeft == n.fileFailed && directoriesLeft == (n.jobs != []) && stop == n.stopped
    {
      filesLeft, directoriesLeft, stop := haveFiles, haveDirectories, false;
      if e.isDirectory {
        if !IsDotName(e.name) {
          var submitted := SubmitSubdirectory(directory, e.name);
          if !submitted {
            return filesLeft, directoriesLeft, true;
          }
          directoriesLeft := true;
        }
      } else {
        var ok := DeleteFileEntry(directory, e.name);
        if !ok {
          filesLeft := true;
        }
      }
    }

    /**
     * The FindNextFile loop of FastDeleteDir: submit every subdirectory other
     * than "." and "..", delete every file, and break at the first work item
     * the pool refuses.
     */
    method DeleteEntries(directory: Path, listing: seq<Entry>) returns (haveFiles: bool, haveDirectories: bool)
      requires WildcardFits(directory)
      modifies this
      ensures var s := Scan(old(volume), refused, directory, listing);
              && haveFiles == s.fileFailed && haveDirectories == (s.jobs != [])
              && pending == old(pending) + s.jobs && workQueued == old(workQueued) + |s.jobs|
              && volume == s.volume && calls == old(calls) + s.calls
    {
      ghost var v0 := volume;
      ghost var s := Scan(v0, refused, directory, []);
      haveFiles, haveDirectories := false, false;
      var i := 0;
      while i < |listing|
        invariant 0 <= i <= |listing|
        invariant s == Scan(v0, refused, directory, listing[..i]) && !s.stopped
        invariant volume == s.volume && calls == old(calls) + s.calls
        invariant pending == old(pending) + s.jobs && workQueued == old(workQueued) + |s.jobs|
        invariant haveFiles == s.fileFailed && haveDirectories == (s.jobs != [])
      {
        assert listing[..i + 1][..i] == listing[..i];
        assert Scan(v0, refused, directory, listing[..i + 1]) == ScanEntry(s, refused, directory, listing[i]);
        var stop;
        haveFiles, haveDirectories, stop :=
          DeleteEntry(directory, listing[i], haveFiles, haveDirectories, s, old(pending), old(workQueued), old(calls));
        s := ScanEntry(s, refused, directory, listing[i]);
        if stop {
          StoppedStaysStopped(v0, refused, directory, listing[..i + 1], listing[i + 1..]);
          assert listing[..i + 1] + listing[i + 1..] == listing;
          return;
        }
        i := i + 1;
      }
      assert listing[..|listing|] == listing;
    }

    /**
     * FastDeleteDir: every way out decrements `sWorkQueued` once; a
     * directory is removed only when no file failed and no subdirectory was
     * submitted.
     */
    method FastDeleteDir(directory: Path)
      requires |directory| > 0
      modifies this
      ensures var r := ProcessDir(old(volume), refused, directory);
              && pending == old(pending) + r.jobs
              && workQueued == old(workQueued) + |r.jobs| - 1
              && volume == r.volume && calls == old(calls) + r.calls
    {
      var fits, wildcard := MakeWildcard(directory);
      if !fits {
        workQueued := workQueued - 1;
        return;
      }
      var found := FindFiles(volume, directory);
      if found.None? {
        workQueued := workQueued - 1;
        return;
      }
      var haveFiles, haveDirectories := DeleteEntries(directory, found.value);
      workQueued := workQueued - 1;
      if haveFiles {
        return;
      }
      if haveDirectories {
        return;
      }
      var removed := RemoveDirectory(volume, directory);
      volume := removed.0;
      calls := calls + [RemoveDirectoryCall(directory, removed.1)];
    }

    /** The pool runs the oldest work item: FastDeleteWork. */
    method FastDeleteWork()
      requires pending != [] && GoodJobs(pending)
      modifies this
      ensures State() == Work(refused, old(State()))
    {
      var directory := pending[0];
      pending := pending[1..];
      FastDeleteDir(directory);
    }

    /** One pass of the root loop: build the root's job buffer and submit it as a work item. */
    method SubmitRoot(root: Path) returns (submitted: bool)
      requires |root| > 0
      modifies this
      ensures submitted <==> NormalizeRoot(root) !in refused
      ensures pending == old(pending) + (if submitted then [NormalizeRoot(root)] else [])
      ensures workQueued == old(workQueued) + (if submitted then 1 else 0)
      ensures volume == old(volume) && calls == old(calls)
    {
      var parameter := MakeRootParameter(root);
      assert parameter[..parameter.Length - 1] == NormalizeRoot(root) by {
        assert parameter[..] == NormalizeRoot(root) + [NUL];
      }
      submitted := SubmitWork(parameter[..parameter.Length - 1]);
    }

    /** The main thread submits one normalised job per root, stopping at the first refused one. */
    method SubmitRoots()
      requires FastDelete.ValidRoots(roots)
      modifies this
      ensures State() == Submit(roots, refused, old(State()))
    {
      ghost var jobs := Submitted(roots, refused);
      var i := 0;
      while i < |roots|
        invariant 0 <= i <= |roots|
        invariant pending + Submitted(roots[i..], refused) == old(pending) + jobs
        invariant workQueued - |pending| == old(workQueued) - |old(pending)|
        invariant volume == old(volume) && calls == old(calls)
      {
        SubmittedStep(roots, refused, i);
        var submitted := SubmitRoot(roots[i]);
        if !submitted {
          assert pending + [] == pending;
          return;
        }
        i := i + 1;
      }
      assert roots[i..] == [];
      assert pending + [] == pending;
    }

    /**
     * The main thread's FastDelete: submit the roots, then wait while
     * `sWorkQueued` is not zero, the pool running the submitted work.
     */
    method FastDeleteRoots()
      requires FastDelete.ValidRoots(roots) && State() == Start(volume)
      modifies this
      ensures State() == Run(roots, refused, old(volume))
      ensures pending == [] && workQueued == 0 && Shrinks(volume, old(volume))
    {
      RunEndsIdle(roots, refused, volume);
      ghost var (maxLen, fanOut) := BoundsOf(volume);
      SubmitRoots();
      SubmittedMeaning(roots, refused);
      ghost var submitted := State();
      while workQueued != 0
        invariant Drainable(State(), maxLen, fanOut) && workQueued == |pending|
        invariant Drain(refused, State(), maxLen, fanOut) == Drain(refused, submitted, maxLen, fanOut)
        decreases Potential(maxLen, fanOut, pending)
      {
        WorkProgress(refused, State(), maxLen, fanOut);
        WorkKeepsCount(refused, State());
        FastDeleteWork();
      }
    }
  }
}

