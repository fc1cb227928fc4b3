# FastDelete, modelled in Dafny

FastDelete is a Windows command-line tool that deletes directory trees quickly. The program puts every root directory in a queue, and worker threads process the queue.

A worker pops a directory and lists it. It deletes the directory's files and queues each subdirectory as a new job. Then it either:
- removes the directory at once;
- leaves it alone, when a file could not be deleted or when it is a protected root under `--keep-root`; or
- defers it to a cleanup pass, when subdirectories were queued.

A counter of outstanding jobs tells the main thread when the traversal is over. The main thread then sends one null item per worker to shut them down, and walks the deferred list calling `RemoveDirectory` on each entry. An older variant, kept under `Backup/`, submits every directory to a Windows threadpool instead. It has no deferred list, so a directory that had subdirectories is simply left in place.

This project models that core sequentially, with one worker, over an abstract filesystem.

- `Wrappers.dfy` defines `Option`.
- `Paths.dfy` (module `Paths`) holds the path strings:
  - C strings are modelled as the characters before the terminator, and reading past the end yields NUL, so the C tests read as in the source;
  - root normalisation, child jobs, the `.`/`..` test and the `--keep-root` match;
  - the `_tcscpy_s`-based builders of the `MAX_PATH` buffers, as methods over `array<char>`.
- `FileSystem.dfy` (module `FileSystem`) replaces the Win32 calls `FindFirstFileEx`/`FindNextFile`, `DeleteFile` and `RemoveDirectory`.
  - The filesystem is a `Volume`: a map from paths to `File` or `Dir(entries)`, plus a set of `denied` paths on which the calls fail. That set is the failure oracle.
  - Every call made is recorded in a trace of `Call`s. A call with `ok == false` is one the program reports on stderr.
- `Progress.dfy` (module `Progress`) holds the termination argument for the traversal: a potential that every processed job lowers.
- `ThreadQueue.dfy` (module `Queues`) models `ThreadQueue<T>` as a class over a `seq`. A blocking `pop_front` becomes a non-empty precondition. A trace semantics proves the queue is FIFO, and `Apply`, which runs a trace against the class, is proved to compute the same.
- `FastDelete.dfy` (module `FastDelete`) has two layers:
  - specification functions: `Scan` (the enumeration loop), `ProcessDir` (`FastDeleteDir`), `Iterate` (one pass of `FastDeleteThread`), `Seed`, `Traverse`, `Cleanup` and `Run` (the whole of `_tmain` after argument parsing), with lemmas about them;
  - the class `Engine`, holding the program's globals, whose methods are proved equal to those functions.
- `FastDeleteMS.dfy` (module `FastDeleteMS`) models the threadpool variant the same way, in the class `Threadpool`. The pool runs the submitted work items one at a time, oldest first. The set `refused` holds the jobs for which `CreateThreadpoolWork` fails.
- `Scenarios.dfy` (module `Scenarios`) works out whole runs on small trees: the nested-tree run, the two `--keep-root` runs and the locked-file run.

On two points the code differs from how the tool is described, and the model follows the code:
- `FastDelete.cpp:373-385` walks the deferred directories in insertion order and does not sort them deepest first. In a single-worker run a parent is deferred before its subdirectories, so its cleanup `RemoveDirectory` fails while they still exist. `Scenarios.NestedTreeLeavesRoot` shows the root left behind.
- A root written with a trailing `/` is queued unchanged (`FastDelete.cpp:317`). The keep-root test accepts only end-of-string or one `\` after the compared prefix (`FastDelete.cpp:151`), so `--keep-root` does not protect such a root. `Paths.RootProtectsOwnJob` and `Scenarios.KeepRootMissesSlash` show this.

## Model

| member | source | states |
|---|---|---|
| Paths.DotNameMeaning | FastDelete.cpp:78 | the character test on a directory entry's name holds exactly when the name is "." or ".." |
| Paths.NormalizeRoot | FastDelete.cpp:315-345 | the queued root job ends with a separator and starts with the root; it equals the root iff the root already ends in `\` or `/`, and otherwise is the root plus exactly one `\` |
| Paths.MakeRootParameter | FastDelete.cpp:315-345 | the allocated parameter buffer holds the normalised root followed by the terminator |
| Paths.ChildJob | FastDelete.cpp:83-105 | a subdirectory's job starts with the directory, continues with the entry name, ends with `\`, and is one character longer than the two together |
| Paths.MakeChildParameter | FastDelete.cpp:83-105 | the allocated parameter buffer holds `directory + name + '\'` followed by the terminator |
| Paths.StringCopyS | FastDelete.cpp:34 | `_tcscpy_s` fails iff the source and its terminator do not fit; on success the buffer holds the source and a terminator and nothing else changes; on failure the destination starts with a terminator |
| Paths.MakeWildcard | FastDelete.cpp:33-51 | building `directory*` in the `MAX_PATH` buffer succeeds iff the directory plus two characters fits, and then the buffer holds `directory + "*"` terminated |
| Paths.MakeFileName | FastDelete.cpp:113-115 | the path handed to DeleteFile is `directory + name`, or just `directory` when the name overflowed the buffer (the copy's error is ignored) |
| Paths.StrnEqualMeaning | FastDelete.cpp:146 | for terminator-free strings, `_tcsnccmp(a, b, n) == 0` iff `b` has at least `n` characters and both have the same first `n` |
| Paths.MatchesRootMeaning | FastDelete.cpp:146-151 | a job matches a root iff the root equals the job without its trailing separator, or that stem plus one `\` |
| Paths.RootProtectsOwnJob | FastDelete.cpp:140-156 | a root's own job matches it under `--keep-root` iff the root does not end in `/` |
| FileSystem.FindFiles | FastDelete.cpp:53-69 | the enumeration succeeds iff the path is an accessible directory; it then reports "." and ".." first and at most the directory's entries after them |
| FileSystem.DeleteFileMeaning | FastDelete.cpp:126 | DeleteFile succeeds iff the path is a file not denied, removes exactly that path on success, and changes nothing on failure |
| FileSystem.RemoveDirectoryMeaning | FastDelete.cpp:166 | RemoveDirectory succeeds iff the path is an accessible directory none of whose entries still exists, and then removes exactly that path |
| FileSystem.RemoveDirectoryNeedsEmpty | FastDelete.cpp:377 | RemoveDirectory fails, changing nothing, while an entry of the directory still exists |
| Progress.PotentialDrops | FastDelete.cpp:176-203 | replacing a job by fewer than `fanOut` strictly longer jobs lowers the potential, so the single-worker loop ends |
| Queues.ThreadQueue.constructor | ThreadQueue.h:12-16 | a new queue is empty |
| Queues.ThreadQueue.PushBack | ThreadQueue.h:23-29 | the item is appended at the tail and the items before it are kept in order |
| Queues.ThreadQueue.PopFront | ThreadQueue.h:31-45 | on a non-empty queue, returns the head and removes exactly it; the rest keep their order |
| Queues.FifoOrder | ThreadQueue.h:23-45 | over any sequence of pushes and pops, the items popped followed by those still queued are exactly the items pushed, in push order |
| Queues.PopNeedsPush | ThreadQueue.h:35-38 | a further pop can proceed iff fewer items have been popped than pushed |
| Queues.BlockedStaysBlocked | ThreadQueue.h:35-38 | once a pop finds the queue empty and waits, no later call of that thread is reached |
| Queues.Apply | ThreadQueue.h:12-45 | one thread's pushes and pops on a new ThreadQueue leave exactly the items, and hand out exactly the items, that the trace semantics computes, so `FifoOrder` holds of the class; the run stops iff a pop would wait forever |
| FastDelete.ScanJobs | FastDelete.cpp:74-110 | the enumeration queues one job `directory + name + '\'` per subdirectory entry other than "." and "..", in enumeration order |
| FastDelete.ScanCalls | FastDelete.cpp:112-131 | the enumeration calls DeleteFile once per non-directory entry, in order, on the path built in the `MAX_PATH` buffer |
| FastDelete.ScanFailure | FastDelete.cpp:126-130 | `haveFiles` ends true iff one of the DeleteFile calls failed |
| FastDelete.ScanVolume | FastDelete.cpp:74-131 | the enumeration removes nothing but files, each by a successful DeleteFile call |
| FastDelete.ProcessDirEarlyExit | FastDelete.cpp:33-69 | a wildcard that overflows `MAX_PATH` or a failed enumeration returns false with no call made and nothing queued |
| FastDelete.ScannedJobsExist | FastDelete.cpp:74-110 | the jobs queued while enumerating an accessible directory are existing paths longer than it, at most its entry count plus two |
| FastDelete.ListedSubdirectoryExists | FastDelete.cpp:78-105 | a listed subdirectory other than "." and ".." exists in the volume, and its job is longer than the directory |
| FastDelete.ProcessDirOrder | FastDelete.cpp:135-171 | the checks run in order: abandoned iff a DeleteFile failed; protected iff none failed and keep-root matches; deferred iff neither and a subdirectory was listed; removed now otherwise |
| FastDelete.ProcessDirRemovesOnce | FastDelete.cpp:158-171 | RemoveDirectory is called exactly once, as the last call, when the directory is removed now, and never otherwise |
| FastDelete.ProcessDirKeepsDirectory | FastDelete.cpp:135-171 | the directory is gone afterwards iff it was removed now successfully; the volume only loses paths |
| FastDelete.ProcessDirJobs | FastDelete.cpp:74-110 | the queued jobs are existing paths longer than the directory, at most its entry count plus two |
| FastDelete.IterateProgress | FastDelete.cpp:176-203 | one worker pass on a queue of non-empty jobs leaves such a queue and a volume within the same bounds, only removes from the volume, and lowers the potential |
| FastDelete.IterateKeepsCount | FastDelete.cpp:185-199 | a job pass keeps `sQueuedJobs` equal to the number of queued jobs and signals completion iff none remain; a null item ends the loop and changes nothing else |
| FastDelete.TraverseDrains | FastDelete.cpp:176-203 | the worker drains the queue: the counter reaches 0, completion is signalled once if there was work, the volume only shrinks, and the deferred list and the trace only grow |
| FastDelete.CleanupInOrder | FastDelete.cpp:373-385 | the cleanup pass calls RemoveDirectory once per deferred directory, in insertion order, and the volume only shrinks |
| FastDelete.SeedTraversable | FastDelete.cpp:312-349 | after the roots are queued, each counted before its push, the counter equals the queue length and the queue holds only non-empty jobs |
| FastDelete.TraverseAnyBounds | FastDelete.cpp:176-203 | what the worker loop computes does not depend on the volume bounds used to show that it ends |
| FastDelete.RunWith | FastDelete.cpp:310-385 | a run with roots is: queue the roots, drain the queue, stop the worker, then clean up the deferred directories |
| FastDelete.RunEndsQuiet | FastDelete.cpp:310-385 | a run ends with the queue empty, the counter 0, the deferred list cleared, completion signalled once (none without roots), and only paths removed |
| FastDelete.ScanSpares | FastDelete.cpp:74-131 | the enumeration loop calls RemoveDirectory on nothing and leaves every directory of the volume as it was |
| FastDelete.ProcessDirSpares | FastDelete.cpp:135-171 | under keep-root, FastDeleteDir on any job leaves a directory that matches a root unchanged, never calls RemoveDirectory on it and never defers it |
| FastDelete.IterateSpares | FastDelete.cpp:176-203 | under keep-root, one worker pass keeps a protected directory present, off the deferred list and never named by RemoveDirectory |
| FastDelete.TraverseSpares | FastDelete.cpp:176-203 | under keep-root, the whole traversal keeps a protected directory present, off the deferred list and never named by RemoveDirectory |
| FastDelete.CleanupSpares | FastDelete.cpp:373-385 | the cleanup pass neither names nor removes a directory that is not on the deferred list |
| FastDelete.RunSparesProtected | FastDelete.cpp:140-156 | under keep-root, a directory that matches a root survives the whole run unchanged and no RemoveDirectory call ever names it |
| FastDelete.KeepRootKeepsRoot | FastDelete.cpp:140-156 | under keep-root, the directory named by a root that does not end in `/` is still there after the whole run and no RemoveDirectory call names it |
| FastDelete.Engine.constructor | FastDelete.cpp:17-25 | the globals start with an empty queue, a zero counter and an empty deferred list |
| FastDelete.Engine.DeleteEntry | FastDelete.cpp:76-130 | one pass of the enumeration loop queues, counts, deletes and updates the two flags as one step of `Scan` specifies |
| FastDelete.Engine.DeleteEntries | FastDelete.cpp:71-131 | the enumeration loop queues, counts, deletes and sets `haveFiles`/`haveDirectories` as `Scan` specifies |
| FastDelete.Engine.QueueSubdirectory | FastDelete.cpp:84-110 | the counter grows by one and the child job is appended to the queue |
| FastDelete.Engine.DeleteFileEntry | FastDelete.cpp:113-130 | DeleteFile is called once on the buffer-built path and the call is recorded |
| FastDelete.Engine.IsRootDirectory | FastDelete.cpp:140-156 | the loop over the roots reports whether some root matches the directory |
| FastDelete.Engine.FastDeleteDir | FastDelete.cpp:29-172 | the method returns true iff the directory is deferred, and changes the queue, counter, volume and trace as `ProcessDir` specifies |
| FastDelete.Engine.WorkerIteration | FastDelete.cpp:176-203 | one pass of the worker loop is `Iterate`, and it exits iff it popped the null item |
| FastDelete.Engine.SeedRoots | FastDelete.cpp:312-349 | the main thread queues one normalised job per root, counting each |
| FastDelete.Engine.CleanupDeferred | FastDelete.cpp:373-385 | the cleanup pass is `Cleanup`: RemoveDirectory on each deferred directory in list order, then the list is cleared |
| FastDelete.Engine.Execute | FastDelete.cpp:310-385 | seeding, draining, the shutdown item and cleanup produce `Run`, ending with the queue empty, the counter 0 and the deferred list cleared |
| FastDeleteMS.SubmittedMeaning | Backup/FastDeleteMS.cpp:169-214 | the submitted root jobs are the normalised roots, in order, up to (excluding) the first one the pool refuses |
| FastDeleteMS.SubmittedStep | Backup/FastDeleteMS.cpp:204-213 | at each root the loop either stops, when the pool refuses it, or submits its job and continues with the next root |
| FastDeleteMS.StoppedStaysStopped | Backup/FastDeleteMS.cpp:101-108 | once work creation has failed, the loop has broken: later entries change nothing |
| FastDeleteMS.ScanAgrees | Backup/FastDeleteMS.cpp:68-135 | the enumeration does what the queue version's does on the entries before the break, and breaks only at a refused subdirectory |
| FastDeleteMS.JobsFromEntries | Backup/FastDeleteMS.cpp:70-113 | every submitted job is `directory + name + '\'` for a subdirectory entry other than "." and ".." |
| FastDeleteMS.NotRefused | Backup/FastDeleteMS.cpp:101-113 | a subdirectory is counted only when its work item was created |
| FastDeleteMS.ProcessDirJobs | Backup/FastDeleteMS.cpp:70-113 | submitted jobs are existing, accepted paths longer than the directory; the volume only shrinks |
| FastDeleteMS.ProcessDirOutcome | Backup/FastDeleteMS.cpp:139-157 | RemoveDirectory is called once, last, iff the enumeration ran, no DeleteFile failed and no subdirectory was submitted; a failed file or a submitted subdirectory leaves the directory |
| FastDeleteMS.WorkProgress | Backup/FastDeleteMS.cpp:160-165 | one callback keeps the pool's jobs non-empty, only shrinks the volume and lowers the potential |
| FastDeleteMS.WorkKeepsCount | Backup/FastDeleteMS.cpp:101-139 | a callback decrements `sWorkQueued` once and increments it once per submitted child, so the counter minus the pending work is unchanged; the older pending items keep their order |
| FastDeleteMS.DrainEmpties | Backup/FastDeleteMS.cpp:216-219 | the wait ends with nothing pending, the counter lowered by the pending count, the volume shrunk and the trace extended |
| FastDeleteMS.RunEndsIdle | Backup/FastDeleteMS.cpp:167-220 | a run ends with no work pending and `sWorkQueued` at zero |
| FastDeleteMS.AgreesWithQueueVersion | Backup/FastDeleteMS.cpp:20-158 | with no refusals, a callback makes the same calls and queues the same jobs as the queue version without keep-root, leaving in place what it defers |
| FastDeleteMS.Threadpool.constructor | Backup/FastDeleteMS.cpp:13-15 | nothing is pending and `sWorkQueued` is 0 |
| FastDeleteMS.Threadpool.SubmitWork | Backup/FastDeleteMS.cpp:101-111 | a work item is submitted and counted iff the pool accepts it |
| FastDeleteMS.Threadpool.SubmitSubdirectory | Backup/FastDeleteMS.cpp:77-113 | a subdirectory's job is submitted and counted iff the pool accepts it |
| FastDeleteMS.Threadpool.SubmitRoot | Backup/FastDeleteMS.cpp:171-213 | a root's normalised job is submitted and counted iff the pool accepts it |
| FastDeleteMS.Threadpool.DeleteFileEntry | Backup/FastDeleteMS.cpp:116-133 | DeleteFile is called once on the buffer-built path and the call is recorded |
| FastDeleteMS.Threadpool.DeleteEntry | Backup/FastDeleteMS.cpp:70-133 | one pass of the enumeration loop submits, counts, deletes and updates the two flags as one step of `Scan` specifies, and reports whether the loop breaks |
| FastDeleteMS.Threadpool.DeleteEntries | Backup/FastDeleteMS.cpp:65-137 | the enumeration loop, with its break on refusal, does what `Scan` specifies |
| FastDeleteMS.Threadpool.FastDeleteDir | Backup/FastDeleteMS.cpp:20-158 | every exit path decrements `sWorkQueued` once; queue, volume and trace change as `ProcessDir` specifies |
| FastDeleteMS.Threadpool.FastDeleteWork | Backup/FastDeleteMS.cpp:160-165 | the oldest pending work item is run, as `Work` specifies |
| FastDeleteMS.Threadpool.SubmitRoots | Backup/FastDeleteMS.cpp:169-214 | the roots are submitted in order up to the first refusal, each counted |
| FastDeleteMS.Threadpool.FastDeleteRoots | Backup/FastDeleteMS.cpp:167-220 | submitting the roots and spinning until `sWorkQueued` is zero produce `Run`, ending with nothing pending |
| Scenarios.EmptyRemoved | FastDelete.cpp:166-171 | an unprotected empty directory is removed at once by one RemoveDirectory call |
| Scenarios.OneSubdirectoryDeferred | FastDelete.cpp:158-162 | a directory whose only entry is a subdirectory is deferred, with that subdirectory's job queued |
| Scenarios.NestedTreeLeavesRoot | FastDelete.cpp:373-385 | for R\x\y\, the run removes y\ and x\ but not R\: cleanup tries R\ while x\ still exists |
| Scenarios.KeepRootProtects | FastDelete.cpp:140-156 | with keep-root, root R keeps its directory R\ and no RemoveDirectory is called |
| Scenarios.KeepRootMissesSlash | FastDelete.cpp:317 | with keep-root, root R/ is not matched and its directory is removed |
| Scenarios.LockedFileKeepsDirectory | FastDelete.cpp:126-138 | a file DeleteFile cannot remove leaves its directory, neither removed nor deferred |

## Left out

- Concurrency: the worker threads, `_beginthreadex`, the critical section, the condition variable, the completion event, the `Interlocked*` operations and the Windows threadpool with its cleanup group. One sequential worker, or one callback at a time in the pool, is modelled. Races are therefore not captured, for example:
  - a worker can finish a first root before the next root is queued and fire the completion event early;
  - in the threadpool variant, the count is incremented after the submit.
- Thread creation: the main thread queues the roots only when every worker thread started (`FastDelete.cpp:310`). Thread creation is left out, so the model always queues them.
- The shutdown: one null item is pushed and consumed, for the one modelled worker, rather than one per processor.
- Pool order: the threadpool's execution order is unspecified. The model runs work items oldest first.
- The Win32 filesystem: `FindFirstFileEx`, `FindNextFile`, `DeleteFile`, `RemoveDirectory` and `GetFileAttributes` are replaced by the abstract `Volume` and its `denied` oracle. The listing of an accessible directory always starts with "." and "..", so drive roots, which lack them, are not modelled.
- Command-line parsing, the help text, validation of the roots and the exit codes.
- `stderr` messages. A failed call is recorded in the trace with `ok == false`. `CreateThreadpoolWork` failures are not recorded.
- Allocation failures and `assert`: the `new` checks and the `_tcscpy_s` copies that cannot fail are not modelled as failing. A `_tcscpy_s` that does fail is modelled as returning its error code. This assumes an invalid-parameter handler that returns; the default handler would end the process. It matters for the wildcard copy (`FastDelete.cpp:34-51`) and the unchecked file-name copy (`FastDelete.cpp:115`).
- Memory: `delete[]` and the ownership of job buffers are not modelled.
- Not modelled, because the code does not do them: sorting the deferred directories, clearing read-only attributes, special handling of symbolic links or junctions, and case-insensitive root matching.
- A permission failure of `RemoveDirectory` on an empty directory: one `denied` set governs listing, `DeleteFile` and `RemoveDirectory`, so a directory that could be listed fails `RemoveDirectory` only while one of its entries still exists. The failure branches at `FastDelete.cpp:166-169` and `FastDelete.cpp:377-380` are reached only that way.
- Progress.PotentialDrops: the termination bound uses the longest path and the largest directory of the initial volume. It is a proof device, not a behaviour of the source.
