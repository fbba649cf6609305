# A verified model of fio's core

This project models the parts of fio 2.1.12 whose correctness depends on more
than one function: the named file locks and the semaphore under them, the life
of I/O units through one `do_io` pass, the queue-depth search for a latency
target, the job scheduler with its stonewall barriers, flow control between
jobs, file reference counts, the write history, the byte FIFO, and the string
and hash algorithms around them. `dafny verify dfyconfig.toml` checks everything.

How the model is built:

- Code that updates state in place is a class or a method with loops; its
  postcondition ties the new state to a function of the old one, and the
  theorems are lemmas about that function over whole runs.
- Concurrent code (locks, semaphore, jobs) is a step relation. One step is one
  critical section. Any number of threads and every interleaving are covered.
  In the file locks, `filelock_lock` itself is an owner field; that a semaphore
  used this way admits one thread at a time is `SemaphoreRuns.LockRunsExclude`.
- Clocks, the I/O engine, `waitpid`, descriptors that open or fail, offsets and
  the allocator are inputs: each theorem holds for every answer they can give.
- Unsigned 32-bit and 64-bit arithmetic wraps explicitly where it matters.

Files, by what they cover:

| file | covers |
|---|---|
| `Basics.dfy` | definitions that several modules share |
| `Semaphore.dfy`, `FileLock.dfy` | mutex.c, filelock.c |
| `Bits.dfy`, `IoQueues.dfy`, `UnitPool.dfy`, `IoPass.dfy` | io_u_queue.c, io_u_queue.h, io_u.c, ioengines.c, do_io |
| `LatencySearch.dfy` | the lat_target functions of io_u.c |
| `Scheduler.dfy`, `Flow.dfy` | run_threads, reap_threads, flow.c |
| `FileRefs.dfy`, `History.dfy`, `Fifo.dfy` | file references, iolog.c, fifo.c |
| `EditDistance.dfy`, `NameList.dfy`, `StatusString.dfy`, `Hash.dfy` | parse.c, options.c, eta.c, hash.h |

Where the code does not meet the obvious expectation, the model keeps the code
and states the exact condition:

- the latency search reaches its final run if and only if some depth passes and
  the best passing depth is not iodepth - 1; in that case it alternates between
  iodepth and iodepth - 1 for ever;
- `fio_trylock_file` can sleep: its second chance is a blocking wait, taken exactly
  when nobody else holds or asks for the lock, and a run with three threads gets there;
- the semaphore loses wake-ups when used as a counter: a reached state can end with
  a value to take, a sleeper and nobody under way if and only if more threads sleep
  than signals are due and the value exceeds what the threads under way will take;
  no run does that in which no up finds a value left over while two threads wait,
  which covers use as a lock and use with a single waiter;
- `io_u_rinit` wraps to size zero from 2^31 units on, and the ring's full test is
  right only because units are fewer than slots;
- `io_u_in_flight` alone wraps if and only if more events were reaped than units
  committed; only its sum with `io_u_queued` counts something;
- closing a file keeps the reference counts right if and only if it is not closing
  already; otherwise a unit's reference is dropped;
- logging a write keeps the history in order if and only if no other unit's write at
  the same place is in flight; otherwise that unit is left with a freed entry, and
  the length is wrong once it unlogs;
- splitting a joined name list gives it back if and only if no name is empty and
  no name but the last ends in a backslash;
- `jhash` reads three of every twelve bytes before the last block, so names that
  differ elsewhere share one lock; up to the final mixing, names that differ in one
  block are confused if and only if they differ in unread bytes only;
- what `update_condensed_str` writes fits its buffer of five bytes for each of the
  2048 possible jobs if and only if there are fewer jobs or two neighbouring jobs
  have the same status; otherwise it takes one byte more, although the finished
  string fits.

## Model

| member | source | states |
|---|---|---|
| `Semaphore.FioMutex.DownSection` | fio-2.1.12/mutex.c:147-161 | one evaluation of the wait loop, fresh or after a wake-up, changes value and waiters as the critical section Enter does |
| `Semaphore.FioMutex.DownTrylock` | fio-2.1.12/mutex.c:131-145 | takes the semaphore if and only if the value is non-zero and returns 0 exactly then |
| `Semaphore.FioMutex.UpSection` | fio-2.1.12/mutex.c:163-178 | raises the value and asks for a signal exactly when the value was zero and somebody waits |
| `SemaphoreRuns.LockRunsExclude` | fio-2.1.12/mutex.c:131-178 | after every interleaving of lock use, with barging and spurious wake-ups: at most one thread inside, value 1 iff nobody is, waiters counts sleeping and woken threads |
| `SemaphoreRuns.GetsExactly` | fio-2.1.12/mutex.c:131-178 | after every run from every starting value, a down or trylock that tests the semaphore gets it iff fewer were taken so far than the starting value plus the ups |
| `SemaphoreRuns.FreeLockIsTaken` | fio-2.1.12/mutex.c:131-161 | after every run of lock use, a test by down or trylock succeeds iff no thread is inside |
| `SemaphoreRuns.NoLostWakeup` | fio-2.1.12/mutex.c:147-178 | whenever the lock is free and a thread sleeps, the signaller and woken threads already under way can hand the lock to a waiter with nobody new arriving |
| `SemaphoreRuns.CountingUseLosesWakeup` | fio-2.1.12/mutex.c:163-178 | used as a counter, a run ends with value 1, a sleeper, and nobody left to wake it |
| `SemaphoreRuns.LosesWakeupExactly` | fio-2.1.12/mutex.c:131-178 | for every starting value, every mix of downs, trylocks and ups, by threads that up what they took or go on without, and every reached state: the signallers and woken threads under way can end in a lost wake-up iff more threads sleep than signal and the value exceeds signallers plus woken threads |
| `SemaphoreRuns.CarefulUpsLoseNothing` | fio-2.1.12/mutex.c:163-178 | from every starting value, while no up finds a value left over with two waiters, no wake-up can be lost and the threads under way can always hand a value over to a waiter |
| `SemaphoreRuns.LockUseIsCareful` | fio-2.1.12/mutex.c:163-178 | when only holders up, no up finds a value left over while two threads wait |
| `SemaphoreRuns.SoleWaiterLosesNothing` | fio-2.1.12/backend.c:1293-1297 | a semaphore on which only one thread ever waits, however often and without upping, as fio uses it for starting jobs, never loses a wake-up, whoever ups |
| `FileLock.LockList.HashFind` | fio-2.1.12/filelock.c:55-67 | the list walk returns the first record with the hash, or none |
| `FileLock.LockList.HashGet` | fio-2.1.12/filelock.c:69-83 | finds or makes the record and takes a reference, keeping list and records in step and hashes distinct |
| `FileLock.LockList.ReleaseIfUnused` | fio-2.1.12/filelock.c:145-154 | removes exactly the unreferenced record, keeping list and records in step |
| `FileLock.UnlockFinds` | fio-2.1.12/filelock.c:143-154 | an unlock by a holder always finds the record, so the error message is never reached |
| `FileLock.StepKeepsInv` | fio-2.1.12/filelock.c:85-157 | every step of lock, trylock and unlock keeps the invariant on records, pointers, counts and wake-ups |
| `FileLock.AtMostOneHolder` | fio-2.1.12/filelock.c:85-157 | on every run at most one thread holds a given name hash |
| `FileLock.ReferencesExact` | fio-2.1.12/filelock.c:69-157 | on every run: one record per hash; references = holders + threads inside lock or trylock; waiters = sleeping + woken threads |
| `FileLock.NoUseAfterFree` | fio-2.1.12/filelock.c:136-157 | on every run no record is freed while a thread refers to it: pointers and held names lead to live, listed records |
| `FileLock.EmptyIffUnreferenced` | fio-2.1.12/filelock.c:43-53 | outside an unlock the list is empty iff no thread refers to a lock, so the assertion at exit holds |
| `FileLock.NoSleeperForgotten` | fio-2.1.12/filelock.c:121-157 | on every run, while a thread sleeps on a free lock, a signal already due or a woken thread's retry hands the lock to a waiter |
| `FileLock.TestGrantsExactly` | fio-2.1.12/filelock.c:85-134 | on every run, a test in lock or trylock grants the name iff no thread holds it or is still releasing it |
| `FileLock.SecondChanceExact` | fio-2.1.12/filelock.c:99-118 | the second look of trylock gives up iff the lock is held or another thread is inside lock or trylock on it |
| `FileLock.TrylockCanSleep` | fio-2.1.12/filelock.c:105-116 | whenever the second chance is taken, a thread locking the name in between puts the trylock to sleep |
| `FileLock.TrylockSleeps` | fio-2.1.12/filelock.c:99-118 | from the empty table and any three threads, a run reaches a state where a thread that only called trylock is asleep |
| `IoQueues.IoUQueue.Pop` | fio-2.1.12/io_u_queue.h:13-24 | takes the top of the stack, or returns null and changes nothing |
| `IoQueues.IoUQueue.Push` | fio-2.1.12/io_u_queue.h:26-29 | appends to the stack |
| `IoQueues.RingSize` | fio-2.1.12/io_u_queue.c:19-31 | the least power of two that is at least nr + 1 if nr < 2^31, zero otherwise, for every 32-bit nr |
| `IoQueues.IoURing.Push` | fio-2.1.12/io_u_queue.h:52-61 | appends while a slot stays free; on the last slot the assertion fires unless tail is zero, and then the full ring looks empty |
| `IoQueues.IoURing.Pop` | fio-2.1.12/io_u_queue.h:63-73 | takes the oldest unit, or returns null and changes nothing |
| `UnitPool.ThreadUnits.constructor` | fio-2.1.12/backend.c:987-1073 | starts with every unit free, on a stack and ring of the right sizes |
| `UnitPool.ThreadUnits.QueueIsFull` | fio-2.1.12/io_u.c:1284-1294 | full when nothing is free, or at the latency depth when a target is set |
| `UnitPool.ThreadUnits.GetIoU` | fio-2.1.12/io_u.c:1296-1336 | requeued units first, then the free stack, whose pop never yields null; the unit found carries the free flag |
| `UnitPool.ThreadUnits.PutIoU` | fio-2.1.12/io_u.c:687-702 | a held unit goes to the free stack, which has room, and the depth drops |
| `UnitPool.ThreadUnits.RequeueIoU` | fio-2.1.12/io_u.c:710-730 | a held unit goes to the ring, whose assertion never fires |
| `UnitPool.CurDepthCountsHeld` | fio-2.1.12/io_u.c:687-730 | cur_depth is the number of held units |
| `UnitPool.GetFailsExactly` | fio-2.1.12/io_u.c:1284-1310 | a get fails iff nothing is requeued and either every unit is held or a latency target is set and as many units are held as it allows |
| `UnitPool.TargetLimitsDepth` | fio-2.1.12/io_u.c:1284-1310 | under a fixed latency target, held plus requeued units never exceed the depth allowed, on any run |
| `UnitPool.EveryRunPartitions` | fio-2.1.12/io_u.c:687-730 | after every run each unit is in exactly one of free stack, ring or held, and both containers have room for any held unit |
| `IoPass.ThreadData.TdIoCommit` | fio-2.1.12/ioengines.c:384-408 | moves queued units to in flight, keeping their unsigned sum |
| `IoPass.ThreadData.TdIoQueue` | fio-2.1.12/ioengines.c:265-347 | sets the in-flight flag, counts the issue, and on a queued answer counts and perhaps commits it |
| `IoPass.ThreadData.IoCompleted` | fio-2.1.12/io_u.c:1610-1697 | clears the flag, credits buflen - resid unless in error, and frees the unit |
| `IoPass.ThreadData.SyncDone` | fio-2.1.12/backend.c:781-827 | full, short and end-of-file completions update the transfer, bytes_issued and the queues as Settle says |
| `IoPass.ThreadData.DoIoIteration` | fio-2.1.12/backend.c:728-849 | one iteration is the step Apply, for every answer of the engine |
| `IoPass.ThreadData.IoUQueuedComplete` | fio-2.1.12/io_u.c:1783-1820 | reaping completes every event once and lowers in flight by their number, wrapping |
| `IoPass.ThreadData.DoIo` | fio-2.1.12/backend.c:698-916 | the loop performs the run and ends in a state where all counters are exact |
| `IoPass.RoomBelowLimit` | fio-2.1.12/backend.c:634-645 | exceeds_number_ios compares the true number of completed and outstanding units with the limit |
| `IoPass.OutstandingExact` | fio-2.1.12/ioengines.c:222-262 | on every run the unsigned sum of the two counters is the number of units queued and not reaped, and completed plus outstanding never exceeds number_ios |
| `IoPass.InFlightExact` | fio-2.1.12/ioengines.c:250-255 | on every run io_u_in_flight is the units committed less the events reaped, modulo 2^32, and it has wrapped iff more were reaped than committed; queued plus committed less reaped is the number of outstanding units |
| `IoPass.InFlightAloneWraps` | fio-2.1.12/ioengines.c:237-257 | a reap before a commit takes io_u_in_flight below zero while the sum stays right |
| `IoPass.ShortenOk` | fio-2.1.12/backend.c:786-814 | a short transfer strictly lowers the remaining length and keeps the pieces contiguous |
| `IoPass.TransfersExact` | fio-2.1.12/backend.c:779-849 | on every run: bytes and blocks are the sums over completions, io_issues is the units retired plus those outstanding, bytes_issued is all retired and in-flight buffers plus what requeued units moved |
| `IoPass.ReportsAccounted` | fio-2.1.12/backend.c:779-849 | on every run: bytes credited, bytes of units that ended in error and bytes of units under way add up to what the engine's answers and events reported as moved; retired units are successes plus reported errors |
| `IoPass.SyncExact` | fio-2.1.12/backend.c:786-827 | a full answer credits the buffer; a short one at the end of the file credits the range up to there; any other short one credits nothing and puts the unit on the ring with exactly the rest to do |
| `IoPass.ErrorExact` | fio-2.1.12/backend.c:782-785 | an error answer credits and issues nothing and frees the unit |
| `IoPass.EventExact` | fio-2.1.12/io_u.c:1652-1690 | a reaped event credits what earlier rounds moved plus what it reports, or nothing in error |
| `IoPass.PrepareOk` | fio-2.1.12/io_u.c:1296-1336 | the unit handed out is the oldest requeued one with the rest of its transfer, or a free one set up for all of the new range |
| `IoPass.BatchLimitsQueue` | fio-2.1.12/ioengines.c:325-347 | on every run fewer units than the batch size stay queued and uncommitted |
| `IoPass.DoneMeans` | fio-2.1.12/io_u.c:1652-1690 | a completion is credited with exactly the sum of its pieces, which tile its range from the start without gap or overlap; it counts once and adds its whole buffer to bytes_issued |
| `LatencySearch.LatTarget.LatTargetFailed` | fio-2.1.12/io_u.c:1160-1181 | lowers the depth between the bounds, or reports that depth one failed |
| `LatencySearch.LatTarget.LatTargetSuccess` | fio-2.1.12/io_u.c:1213-1253 | doubles or bisects upwards, and starts or ends the final run when the depth stays |
| `LatencySearch.WindowsKeepBounds` | fio-2.1.12/io_u.c:1160-1253 | under every sequence of windows 1 <= low <= qd <= high <= iodepth |
| `LatencySearch.ReachesEndRun` | fio-2.1.12/io_u.c:1160-1253 | with a decreasing measure, the search ends at the best depth within a bounded number of windows, and the next passing window is the last |
| `LatencySearch.ConvergesExactly` | fio-2.1.12/io_u.c:1192-1253 | the final run is reached iff some depth passes and the best is not iodepth - 1, at depth min(best, iodepth), within 4 * iodepth + 1 windows |
| `LatencySearch.BestDepthNextToLast` | fio-2.1.12/io_u.c:1160-1253 | when the best depth is iodepth - 1 the search alternates between iodepth and iodepth - 1 for ever |
| `Scheduler.RunThreads.CreateJobs` | fio-2.1.12/backend.c:1821-1896 | the creation pass keeps all counters exact; every recorded creation respects delays and barriers; a job that is due stays uncreated only behind a due stonewall job while something is started or running; nobody is reaped |
| `Scheduler.RunThreads.StartJobs` | fio-2.1.12/backend.c:1941-1955 | exactly the initialised jobs become running, with counters and rates following |
| `Scheduler.RunThreads.ReapTurn` | fio-2.1.12/backend.c:1634-1700 | at its turn a job is reaped iff it is active and has exited or its process is reported dead; every other job only moves on its own |
| `Scheduler.RunThreads.ReapThreads` | fio-2.1.12/backend.c:1616-1722 | the state of every job afterwards: reaped iff it was active and had exited by its turn or was found dead, otherwise exited or still running as it moved; counters and rates follow |
| `Scheduler.RunThreads.OneRound` | fio-2.1.12/backend.c:1813-1962 | one turn of the main loop never raises the measure of work left, and lowers it when no job is delayed and running jobs end |
| `Scheduler.RunThreads.Run` | fio-2.1.12/backend.c:1813-1966 | on every run the counters are exact; of any two creations the jobs differ, and if the later is a stonewall the earlier had been reaped; every job reaped, at the end or when another was created, had exited or been found dead; nothing is left to do iff every job is reaped; and every job has been created, run and reaped once at least 2n + 1 rounds (in any positions) had no delays and let running jobs end, n being the jobs not running at the start |
| `Scheduler.MovesKeepExact` | fio-2.1.12/backend.c:1293-1295 | jobs that initialise or exit on their own never disturb the counters and never undo a creation or a reap |
| `Scheduler.MoveAllIs` | fio-2.1.12/backend.c:1293-1295 | any sequence of such moves takes a created job to initialised iff it initialises, a running one to exited iff it exits, and no other anywhere |
| `Flow.FlowControl.FlowGet` | fio-2.1.12/flow.c:40-75 | finds the flow by id or appends a new one, and takes a reference |
| `Flow.FlowControl.FlowExitJob` | fio-2.1.12/flow.c:77-104 | drops the reference and removes the flow with the last one |
| `Flow.FlowControl.FlowThresholdExceeded` | fio-2.1.12/flow.c:16-38 | refuses past the watermark on the job's side, otherwise adds the weight |
| `Flow.CheckExact` | fio-2.1.12/flow.c:16-38 | a member is refused iff the counter is past its watermark on its side; otherwise its counter moves by its weight, and no other counter ever does |
| `Flow.CounterIsBalance` | fio-2.1.12/flow.c:24-37 | over any run of checks by members a counter moves by exactly the weights admitted |
| `Flow.AdmittedExactly` | fio-2.1.12/flow.c:24-37 | from any counter, a member checking alone is admitted exactly (watermark - counter) / weight + 1 times, on its side, and is refused from then on |
| `Flow.FirstAdmissions` | fio-2.1.12/flow.c:16-75 | from the start, joining and checking: admitted exactly watermark / weight + 1 times |
| `Flow.JoinThenLeave` | fio-2.1.12/flow.c:40-104 | joining makes the job a member, and leaving then restores the state |
| `Flow.LeaveExact` | fio-2.1.12/flow.c:77-104 | the job is out; counters live on while another job uses them and are forgotten with the last |
| `Flow.EveryScheduleBounded` | fio-2.1.12/flow.c:16-104 | on every schedule of joins, checks and leaves from the start: one record per id, references are the members, the counter is the sum of admitted weights and within W + M of zero |
| `Flow.NeverAllRefused` | fio-2.1.12/flow.c:24-32 | with both signs on a flow, not both jobs are refused |
| `Flow.RefusalOverlap` | fio-2.1.12/flow.c:24-32 | for any watermarks, a counter that refuses both signs exists iff the watermarks add up to less than -1 |
| `Flow.RatioKept` | fio-2.1.12/flow.c:24-37 | two weights w > 0 > v admitted a and b times satisfy w*a + v*b within W + M of zero |
| `FileRefs.OpenKeepsInv` | fio-2.1.12/ioengines.c:410-435 | opening gives a usable file with one reference of its own and counts it |
| `FileRefs.CloseKeepsInv` | fio-2.1.12/ioengines.c:491-507 | a close request closes the descriptor at once iff no unit holds the file |
| `FileRefs.CloseExact` | fio-2.1.12/filesetup.c:1084-1093 | closing an open file keeps the counts right iff it is not closing already |
| `FileRefs.SecondCloseDropsReference` | fio-2.1.12/ioengines.c:491-507 | on any usable file: take it, close it, close it again, and the unit's reference is gone; the descriptor is closed under the unit iff no other unit held the file |
| `FileRefs.ClosedWhileHeld` | fio-2.1.12/filesetup.c:1084-1093 | from a newly set up job, a file that is open, closing and held is reached, and a second close closes it while held |
| `FileRefs.CloseFilesExact` | fio-2.1.12/filesetup.c:1084-1093 | asking every open file to close keeps the counts right iff no file was closing already |
| `FileRefs.DetachKeepsInv` | fio-2.1.12/filesetup.c:1350-1381 | a put closes the descriptor exactly when the file is closing and this was its last unit |
| `FileRefs.AttachDetach` | fio-2.1.12/filesetup.c:1343-1381 | taking a usable file and putting it back changes nothing |
| `FileRefs.FileService.GetNextFileRr` | fio-2.1.12/io_u.c:1008-1058 | takes the first file not skipped from next_file on, opening at most that one, and leaves next_file just after it; busy only at a file that is not open, at the limit; nothing only if every file is done, closing or refuses to open |
| `FileRefs.FileService.GetNextFile` | fio-2.1.12/io_u.c:1060-1099 | stays on the usable file being served when told to; otherwise the answer is that of the turn around the files; no file only if all are skipped, busy only at the limit |
| `FileRefs.FileService.SetIoUFile` | fio-2.1.12/io_u.c:1113-1138 | terminates, whatever opens in which round; the unit holds a usable file that fills it; it goes without only when the turn meets a file that cannot be opened within the limit, or when all files are skipped in the last round and no usable file fills it; a served file that fills it is kept; only files that could not fill it are marked done |
| `FileRefs.FileService.PutIoUFile` | fio-2.1.12/io_u.c:687-695 | drops the unit's reference and keeps the invariant |
| `FileRefs.FileService.CloseFiles` | fio-2.1.12/filesetup.c:1084-1093 | every open file is asked to close, held or not; the counts stay right iff none was closing already; if no unit holds a file, every descriptor is closed and closes equal opens |
| `History.IoHistory.LogIoPiece` | fio-2.1.12/iolog.c:235-271 | for every key, in flight or not: the new entry replaces any old one under it, the restart loop ends, and the history stays in order iff no other unit's write under the key is in flight |
| `History.IoHistory.UnlogIoPiece` | fio-2.1.12/iolog.c:273-288 | removes exactly the unit's entry, or nothing for a unit without one; an entry already freed is not found, but the length falls |
| `History.IoHistory.CompleteWrite` | fio-2.1.12/io_u.c:1623-1636 | only the in-flight flag of the unit's entry changes |
| `History.IoHistory.PruneIoPieceLog` | fio-2.1.12/iolog.c:167-178 | empties the tree and takes its size off the length; the history is in order afterwards iff no unit still points at an entry |
| `History.LoggedExact` | fio-2.1.12/iolog.c:255-264 | every unit under way keeps a live entry of its own, and the length counts the entries, iff no other unit's write under the same key is in flight |
| `History.ReplacedEntryIsMiscounted` | fio-2.1.12/iolog.c:255-288 | in every history where it is: the other unit's entry is freed, and once that unit unlogs the length is one less than the number of entries |
| `History.TwoWritesAtOnePlace` | fio-2.1.12/iolog.c:255-288 | from the empty history, two units that write at one place and both unlog leave an empty tree of length -1 |
| `History.RunKeepsInv` | fio-2.1.12/iolog.c:188-288 | any mix of logging, unlogging and completing that never writes over a write in flight keeps the history in order |
| `History.UnlogIs` | fio-2.1.12/iolog.c:273-288 | in order, unlogging removes exactly the unit's own entry, which was live and in flight |
| `History.CompleteIs` | fio-2.1.12/io_u.c:1623-1636 | in order, completing changes nothing but the flag of the unit's own entry |
| `History.InOrderSorted` | fio-2.1.12/iolog.c:237-271 | the entries are strictly sorted by file and offset, hence one per key |
| `History.EraseOne` | fio-2.1.12/iolog.c:255-263 | erasing removes exactly the entry under the key and keeps the order |
| `Fifo.ByteFifo.Put` | fio-2.1.12/fifo.c:49-70 | appends as many bytes as fit and returns that number, across buffer end and index wrap |
| `Fifo.ByteFifo.Get` | fio-2.1.12/fifo.c:72-97 | takes as many bytes as there are, in order, or discards them; the rest stays |
| `Fifo.ByteFifo.Room` | fio-2.1.12/fifo.h:38-41 | the wrapped difference is the free space |
| `Fifo.ByteFifo.Len` | fio-2.1.12/fifo.h:33-36 | the wrapped difference is the number of stored bytes |
| `Fifo.MaskExact` | fio-2.1.12/fifo.c:56-57 | masking with size - 1 finds the right position for every index iff the size is a power of two |
| `EditDistance.StringDistance` | fio-2.1.12/parse.c:975-1008 | the two-row loops compute the recurrence Dist |
| `EditDistance.DistIsMinimal` | fio-2.1.12/parse.c:971-1008 | Dist is the length of the shortest chain of single insertions, deletions and replacements |
| `EditDistance.DistZeroOnlyOnEqual` | fio-2.1.12/parse.c:975-1008 | zero exactly on equal strings |
| `EditDistance.DistSymmetric` | fio-2.1.12/parse.c:975-1008 | symmetric |
| `EditDistance.Triangle` | fio-2.1.12/parse.c:975-1008 | the triangle inequality |
| `EditDistance.ShowCmdHelp` | fio-2.1.12/parse.c:1067-1135 | an unknown name gets the first of the nearest options iff one is at most two edits away |
| `NameList.GetNextName` | fio-2.1.12/options.c:768-807 | the in-place cut leaves the name and the rest that reading character by character gives, and touches nothing before the old pointer |
| `NameList.GetMaxNameIdx` | fio-2.1.12/options.c:810-822 | the number of names in the list |
| `NameList.SetNameIdx` | fio-2.1.12/options.c:828-844 | the name at the index modulo the number of names, and a slash |
| `NameList.SplitJoin` | fio-2.1.12/options.c:763-807 | escaping, joining and splitting gives the list back |
| `NameList.RoundTripExact` | fio-2.1.12/options.c:763-807 | the round trip holds iff no name is empty and no name but the last ends in a backslash |
| `StatusString.UpdateCondensedStr` | fio-2.1.12/eta.c:13-29 | writes the groups of the input, comma-separated and terminated, in every buffer that holds them with the last comma and the terminator |
| `StatusString.GroupsMaximal` | fio-2.1.12/eta.c:16-25 | counts are positive and neighbouring groups differ |
| `StatusString.CondensedReadsBack` | fio-2.1.12/eta.c:13-29 | a reader of condensed strings recovers every input |
| `StatusString.CondensedLength` | fio-2.1.12/stat.h:252-252 | five characters per job hold the finished string and its terminator |
| `StatusString.BufferFitsExactly` | fio-2.1.12/eta.c:10-29 | for every map of at most 2048 jobs: what the loop writes, with its terminator, fits the 10240 bytes iff the map is not full or two neighbouring jobs have the same status; one byte more always suffices |
| `StatusString.AlternatingFills` | fio-2.1.12/eta.c:10-29 | for a map of any length n with readers and writers in turn the loop writes 5n characters, so at 2048 jobs it needs one byte more than the buffer has |
| `StatusString.FivePerJobExactly` | fio-2.1.12/stat.h:249-252 | five bytes per job in the map hold what the loop writes and its terminator iff two neighbouring jobs have the same status |
| `Hash.HashLong` | fio-2.1.12/hash.h:33-58 | the shifts and adds multiply by the prime modulo 2^64 |
| `Hash.HashLongInjective` | fio-2.1.12/hash.h:33-58 | different words have different hashes |
| `Hash.JhashMix` | fio-2.1.12/hash.h:88-96 | the macro's assignments compute Mix |
| `Hash.MixBijective` | fio-2.1.12/hash.h:87-96 | Mix is a bijection on triples of words, with Unmix its inverse |
| `Hash.FinalBijective` | fio-2.1.12/hash.h:98-108 | the final mixing is the third word of a bijection on triples of words |
| `Hash.RolByOne` | fio-2.1.12/hash.h:82-85 | rotating by one doubles the word modulo 2^32 and adds its top bit |
| `Hash.RolByMore` | fio-2.1.12/hash.h:82-85 | rotating by k + 1 is rotating by k and then by one |
| `Hash.Jhash` | fio-2.1.12/hash.h:110-149 | the block loop, the fall-through additions of the last block and the final mixing compute Blocks |
| `Hash.LastBlock` | fio-2.1.12/hash.h:128-145 | the cases that fall through add each byte of the last block at its place and nothing past its end |
| `Hash.JhashFinal` | fio-2.1.12/hash.h:99-108 | the macro's assignments compute Final |
| `Hash.UnreadBytesCollide` | fio-2.1.12/hash.h:118-126 | keys that agree on the bytes read have the same hash |
| `Hash.AbsorbExact` | fio-2.1.12/hash.h:118-126 | from one state, two blocks before the last lead to the same state iff they agree on bytes 0, 4 and 8 |
| `Hash.OneBlockExact` | fio-2.1.12/hash.h:113-149 | keys that are equal outside one block reach the same state before the final mixing iff they agree on all bytes that are read |
| `Hash.HashIsFinal` | fio-2.1.12/hash.h:128-149 | the hash of a non-empty key is the final mixing of that state |

## Left out

- The timed semaphore wait, which returns with the pthread mutex held after a timeout.
- Unlocking a name the thread does not hold, failing allocations, and more than 2^32 references to one lock record.
- The wait for asynchronous verify threads in `__get_io_u`, and verification and trim units in a pass.
- Negative engine results and completions that moved no byte: both free a unit with its in-flight flag set and end the pass.
- Sync units (fsync and the like), rate limits, think time, replayed logs and time-based passes.
- Latency targets with iodepth of 2^31 or more, where the doubling wraps.
- Jobs that exit before they run, terminated jobs, start time-outs, and the early termination when only cpu jobs remain.
- The unsynchronised read and add of the flow counter: a check and its add are one step.
- Random file service, pipes, file locks by mode, and the error exit of `td_io_open_file`.
- Reading freed memory: a pointer to a freed history entry finds nothing in the model, and the rest of the call goes on.
- Which keys the final mixing of `jhash` confuses: it maps three words to one, so some must collide.
- Tree balancing, trim lists, and the list form of the write history.
- `Fifo.ByteFifo.constructor`: only sizes that are powers of two, which is what the one caller passes; `Fifo.MaskExact` says why.
- `usec_for_io`, the size split in `setup_files`, pattern and CPU-list parsing: they would only add easy members.
- User interface, sockets, statistics, option tables, random generators, `verify.c`, `trim.c` and `smalloc.c` are not part of this model.
