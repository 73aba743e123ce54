# remmy, modelled and proved in Dafny

remmy is a parallel `rm -r`. This project models the code that makes it parallel and the
code it talks to the system through, and proves what that code promises. It checks with
`dafny verify dfyconfig.toml`.

The layers, each held to what the one above relies on:

1. **The work-stealing deque** (`DequeSpec`, `ConcurrentDeque`, `ChaseLevQueue`). One owner
   and any number of thieves, every load, store and compare-exchange one step: the history
   is one a sequential queue could have produced. The same queue as a class, in place,
   refines a sequence through any number of resizes.
2. **The scheduler** (`TaskScheduler`, `SchedulerProgress`). Worker threads, the seeding
   thread, the counter of pending tasks, thread growth. A queue call is one step, which
   layer 1 justifies. The second module says what gets done: threads are started, queued
   work is found, and Wait can always return.
3. **The descriptor pool** (`FdPool`, `FdPoolProgress`, `FdHandle`). The packed 64-bit word,
   reservations, the learned ceiling, and the Fd objects that lease, close, hand off and move.
4. **The walk** (`Walk` and the `Walk...` modules). Workers, directory nodes with reference
   counts, an abstract tree, and a system that may refuse any call. The main results are in
   `WalkRun` (what is left when the run is over, what the exit status means), `WalkOptions`
   (what -r, -d and -f change, and that no refusal goes unsaid), `WalkOutcomes` (what becomes
   of a directory that has to be opened, for every answer), `WalkSealed` (what is
   reported as left was not looked into) and `WalkTermination` (one worker always
   comes to the end). `WalkSchedule` runs the walk and layer 2 together for one worker: the
   queues hold what the walk has let go, the walk's lone worker is the scheduler's, and the
   walk is over when Wait returns.
5. **Bytes and paths** (`PathText`, `LongPath`, `WalkPaths`, `DirNodes`, `Writers`,
   `Formatting`, `Warnings`, `Reading`, `DirEntries`). Each loop or iterator against a
   specification on sequences, and paths of any length against pathname resolution.

A machine is a `State`, an `Action` for every choice that is open (who moves next, what the
system answers), and a deterministic `Step`. A run is a sequence of states each of which
follows from the one before by some action, so "for all runs" covers every interleaving
and every answer. Invariants are proved for every step, one component at a time, and the
theorems are read off them.

Atomic accesses are sequentially consistent. Indices and counters are unbounded integers,
except the packed word, which wraps at 2^64, and its epoch, which wraps at 2^32. Only one
thread seeds the scheduler. Nobody else changes the tree, each operand is named once, and
"no such file" is answered only for what is gone.

Two results about the code are worth knowing:

- **Exit status 0 does not always mean that nothing is left.** Under `-rf` without root,
  an `lstat` of an operand that fails for any reason is passed over in silence
  (src/main.cpp:456-463). `WalkRun.ExitZeroPromise` gives the exact condition.
- **OpenLong does not find a directory whose trailing slash it cuts at**
  (src/dir_node.cpp:52-59): the rest is then the empty path. `PathText.CutsAtTail` says of a
  path and PATH_MAX alone whether its last cut falls there, `LongPath.AgreesUnlessTailCut`
  that these are exactly the paths OpenLong and resolution disagree on, and
  `LongPath.TrailingSlashLost` gives one for every even PATH_MAX. No path the walk builds is
  of this kind (`WalkPaths.NodeOpens`, `WalkPaths.NodeRemoves`). Those two assume that the
  directories above a node can be opened for reading, which the walk has done before it made
  the node (`WalkRun.AncestorsScanned`).

## Model

| member | source | states |
|---|---|---|
| ConcurrentDeque.StepInv | cutils/include/cutils/workstealing_queue/chase_lev.hpp:79-187 | Each atomic step of an owner (Take, Insert, Resize) or a thief (Steal) keeps the invariant that ties stale tops, bottoms and values, a half-done Take and retired buffers to the queue's contents |
| ConcurrentDeque.HistoryIsSequential | cutils/include/cutils/workstealing_queue/chase_lev.hpp:79-187 | In every interleaving the calls that took effect replay on a sequential queue and leave it with what memory holds |
| ConcurrentDeque.ExactlyOnce | cutils/include/cutils/workstealing_queue/chase_lev.hpp:79-154 | In every interleaving inserted = claimed + resident as multisets, with the owner mid-Take and thieves on retired buffers too |
| ConcurrentDeque.StealGetsItsIndex | cutils/include/cutils/workstealing_queue/chase_lev.hpp:135-154 | A thief whose compare-exchange will succeed holds the element last inserted at its index, whatever was resized or overwritten since; steals come in increasing index order |
| ConcurrentDeque.LosingMeansProgress | cutils/include/cutils/workstealing_queue/chase_lev.hpp:147-150 | A Steal that aborts does so only because some Take or Steal got an element after it read top |
| ConcurrentDeque.EmptyMeansEmpty | cutils/include/cutils/workstealing_queue/chase_lev.hpp:136-153 | A Steal that reports an empty queue saw one, or one with the single element a running Take was after |
| ConcurrentDeque.StealOutcome | cutils/include/cutils/workstealing_queue/chase_lev.hpp:135-154 | However it is interleaved a Steal ends with the element at the front, or with nothing because there is none, because the only one is what a running Take is after, or because another call got one since it began |
| ConcurrentDeque.TakeOutcome | cutils/include/cutils/workstealing_queue/chase_lev.hpp:79-105 | However it is interleaved a Take is settled by one step, with the element then at the back, or with nothing from a queue then empty |
| ConcurrentDeque.StealAlone | cutils/include/cutils/workstealing_queue/chase_lev.hpp:135-154 | From any reachable state with the owner at rest, a Steal by itself gets the front, and nothing exactly from an empty queue |
| ConcurrentDeque.TakeAlone | cutils/include/cutils/workstealing_queue/chase_lev.hpp:79-105 | Likewise a Take by itself gets the back, and nothing exactly from an empty queue |
| ConcurrentDeque.InsertAlone | cutils/include/cutils/workstealing_queue/chase_lev.hpp:110-130 | Likewise an Insert by itself appends, and grows the buffer exactly if it is full |
| ConcurrentDeque.CallsEnd | cutils/include/cutils/workstealing_queue/chase_lev.hpp:79-187 | Every step of a call brings it nearer its end, and no step of another thread takes it further away: nobody waits for anybody |
| ChaseLevQueue.ChaseLev.constructor | cutils/include/cutils/workstealing_queue/chase_lev.hpp:51-57 | A new queue is empty on a ring of the initial capacity |
| ChaseLevQueue.ChaseLev.Take | cutils/include/cutils/workstealing_queue/chase_lev.hpp:79-105 | Removes and returns the back; an empty queue stays as it is |
| ChaseLevQueue.ChaseLev.Insert | cutils/include/cutils/workstealing_queue/chase_lev.hpp:110-130 | Appends at the back, on the same ring, or if that is full on a fresh one of twice the length, never overwriting a live slot |
| ChaseLevQueue.ChaseLev.Steal | cutils/include/cutils/workstealing_queue/chase_lev.hpp:135-154 | Removes and returns the front; an empty queue stays as it is |
| ChaseLevQueue.ChaseLev.CopyCells | cutils/include/cutils/workstealing_queue/chase_lev.hpp:178-183 | Every live index keeps its element across a change of ring length |
| ChaseLevQueue.ChaseLev.Resize | cutils/include/cutils/workstealing_queue/chase_lev.hpp:167-187 | The array doubles, the abstract sequence does not change, the old array is retired as it was |
| ChaseLevQueue.ChaseLev.Calls | cutils/include/cutils/workstealing_queue/chase_lev.hpp:79-187 | Any sequence of calls through any number of resizes answers as a plain double-ended queue does |
| TaskScheduler.StepInv | cutils/include/cutils/task_scheduler/task_scheduler.hpp:145-311 | Every step keeps: the counter equals tasks queued, counted but not inserted, and claimed but not decremented; per task nothing is lost or done twice; each slot has one thread |
| TaskScheduler.ZeroIsFinal | cutils/include/cutils/task_scheduler/task_scheduler.hpp:161-174 | Once outside submission has ended a zero counter stays zero and means empty queues and idle workers |
| TaskScheduler.WaitMeansDone | cutils/include/cutils/task_scheduler/task_scheduler.hpp:161-174 | When Wait returns, every accepted task was processed exactly once and every thread has left its loop |
| TaskScheduler.OwnersOnly | cutils/include/cutils/task_scheduler/task_scheduler.hpp:226-311 | The deque's owner-only contract holds over whole runs: one inserter and taker per queue, thieves are others, the submission queue is never taken from; at most max workers start, no two on one slot |
| TaskScheduler.SomeWorkerLives | cutils/include/cutils/task_scheduler/task_scheduler.hpp:145-155 | With work pending and no outside Submit under way some worker is running |
| TaskScheduler.UrgentFirst | cutils/include/cutils/task_scheduler/task_scheduler.hpp:269-281 | With one worker, from when seeding is over and the worker is between tasks, every task of the run is taken only when nothing more urgent is queued anywhere |
| TaskScheduler.TakesQueued | cutils/include/cutils/task_scheduler/task_scheduler.hpp:269-281 | What a thread takes, with any number of workers, was queued at the priority it is taken at and leaves its queue: the newest of its own queue, the oldest of another's or of what came from outside |
| TaskScheduler.TidyKept | cutils/include/cutils/task_scheduler/task_scheduler.hpp:243-281 | No step leaves anything queued behind the worker's scan |
| SchedulerProgress.GrowthOutcome | cutils/include/cutils/task_scheduler/task_scheduler.hpp:226-238 | In every run MaybeGrowThreads, called by any thread, returns only having started a thread, or with as many live as allowed, or with nothing pending |
| SchedulerProgress.SubmitAlone | cutils/include/cutils/task_scheduler/task_scheduler.hpp:145-155 | A Submit from outside by itself counts and queues its task and starts one more thread exactly if one more is allowed |
| SchedulerProgress.WorkIsFound | cutils/include/cutils/task_scheduler/task_scheduler.hpp:243-281 | In every run a worker that scans by itself, of however many there are, takes a task if any is queued anywhere, and no more urgent one was queued |
| SchedulerProgress.WaitCanReturn | cutils/include/cutils/task_scheduler/task_scheduler.hpp:161-174 | No deadlock: from every state of every run after Wait was called there is a way on in which every task is done, every worker leaves and Wait returns |
| FdPool.NoCarry | cutils/src/os/limits/fd.cpp:22-53 | fetch_add of 1, of 2^32 - 1 and fetch_sub of 1 change the two halves of the word without carry or borrow, at the last epoch too |
| FdPool.StepInv | cutils/src/os/limits/fd.cpp:160-197 | Every step of any thread keeps the count, the ownership of descriptors, the remembered epochs and the ceiling |
| FdPool.WordIsTrue | cutils/src/os/limits/fd.cpp:22-53 | At any time the word decodes to open Fds plus outstanding reservations, and closes modulo 2^32 |
| FdPool.EndedOnce | cutils/include/cutils/os/fd.hpp:69-118 | Every open is ended (closed or handed off) at most once, none is lost by a move, and a close hits the number its own open returned |
| FdPool.AllReturned | cutils/src/os/limits/fd.cpp:165-181 | With everything put away no lease is out and every open was ended exactly once |
| FdPool.VerdictMeans | cutils/src/os/limits/fd.cpp:183-197 | Refused says retry exactly when a lease is out now or the closes since the reservation are not a multiple of 2^32 |
| FdPool.CeilingIsLeast | cutils/src/os/limits/fd.cpp:98-112 | The ceiling is the least count refused since the last raise (the compare-exchange loop takes minima), and the limit is raised at most once |
| FdPoolProgress.OpenThenClose | cutils/include/cutils/os/fd.hpp:48-103 | In every reachable state with room, an open and its close leave descriptors, leases and every other thread as they were, one epoch on |
| FdPoolProgress.OpenThenHandOff | cutils/include/cutils/os/fd.hpp:48-93 | An open that is handed off leaves the word as it was and the number in use |
| FdPoolProgress.MoveThenClose | cutils/include/cutils/os/fd.hpp:69-103 | After a move the old object has nothing to close, and the new one's close ends what the old one had opened |
| FdPoolProgress.CanPutAway | cutils/src/os/limits/fd.cpp:160-197 | From every state of every run there is a way on in which every call ends and every descriptor and lease is given back |
| FdHandle.Pool.RaiseIfNeeded | cutils/src/os/limits/fd.cpp:88-112 | A capacity not known yet is asked for and kept; the first call at half of it, and no other, attempts the raise; without an answer about the limit nothing changes; a raise that succeeds leaves the new capacity and no ceiling, one that fails leaves both as they were |
| FdHandle.RaisedOnce | cutils/src/os/limits/fd.cpp:98-112 | Over any sequence of reservations and refusals the system is asked for a higher limit at most once, and the flag says whether it was |
| FdHandle.LimitSettles | cutils/src/os/limits/fd.cpp:88-112 | Once it was asked and the capacity is known, the capacity stays for good and reservations change nothing |
| FdHandle.SameRaise | cutils/src/os/limits/fd.cpp:98-112 | The interleaved model's reservation raises at the same counts and with the same effect |
| FdHandle.Pool.Refused | cutils/src/os/limits/fd.cpp:183-197 | Gives the lease back, lowers the ceiling to the lesser of what was held and a ceiling there is (a count of none held changes nothing), and its answer, through any number of spurious failures of the exchange |
| FdHandle.Fd.Open | cutils/include/cutils/os/fd.hpp:48-64 | A lease is held exactly if a descriptor is; a failed open leaves the count as it was and is retryable only for want of descriptors while others are out |
| FdHandle.Fd.Close | cutils/include/cutils/os/fd.hpp:96-103 | Closing returns the lease and advances the epoch, once however often it is called |
| FdHandle.Fd.Release | cutils/include/cutils/os/fd.hpp:88-93 | Handing off returns the lease and leaves the epoch |
| FdHandle.Fd.MoveFrom | cutils/include/cutils/os/fd.hpp:69-77 | Move assignment closes what was held, takes over what the other held, and leaves a self-move alone |
| WalkFamily.StepFamily | src/main.cpp:153-302 | Every step keeps the family invariant: reference counts, parents alive, entries not yet handled, open descriptors only where a directory is runnable or scanned |
| WalkPool.StepPool | src/main.cpp:153-270 | Every step keeps the pool's live count equal to the descriptors and reservations the walk holds |
| WalkCover.StepCover | src/main.cpp:153-302 | Every step keeps each surviving path under an operand either still to be dealt with or explained by a report |
| WalkHistory.StepHistory | src/main.cpp:153-302 | Every step keeps the record honest: reports have their cause, removals lie under operands and have their printed line |
| WalkRun.RunInvariant | src/main.cpp:434-518 | All of these hold in every state of every run |
| WalkRun.NodesAreCounted | src/dir_node.hpp:60-89 | A live node's count is its own scan reference plus its children's references; its parent is alive; a directory is removed only when no child node is left |
| WalkRun.DeletedOnce | src/main.cpp:256-302 | Each node is deleted at most once, and whoever is about to drop a reference finds the parent alive with a count of at least one |
| WalkRun.AncestorsScanned | src/main.cpp:164-183 | Every directory above a node has its node still and has been opened to be scanned |
| WalkRun.NothingLeaks | src/main.cpp:256-302 | A finished run has deleted every node it made, and holds no descriptor |
| WalkRun.ScanNeverStarves | src/main.cpp:233-270 | While a directory is scanned the pool is never idle, so a child's open is never given up for want of descriptors |
| WalkRun.WhatIsLeft | src/main.cpp:153-302 | After the run a path under an operand survives only if a refused call on it was reported, something in it survives, a directory above it was reported as not opened or not read as far as the entry it lies under, its operand was skipped in silence, or that is a directory without -r |
| WalkSealed.NeverLookedInto | src/main.cpp:153-302 | What is reported as left whole (a path with everything in it, or an entry a scan whose read failed had not come to) was scanned in no state of the run: no node was made below it, and it and all the tree had below it are there |
| WalkRun.OnlyOperandsGo | src/main.cpp:115-302 | What is gone was removed, once, and lay under an operand; -v's lines are exactly the removed paths in order |
| WalkRun.ReportsAreHonest | src/main.cpp:101-302 | Every failure reported has its refused call (under -f a directory that would not open could not be removed either), its surviving entry, its missing -r (and under -d something in it) or its missing operand |
| WalkRun.ExitZeroPromise | src/main.cpp:453-518 | Exit status 0 implies that no operand path is left, if and only if -f, -r and non-root do not come together or no operand existed |
| WalkRun.FaultFreeRun | src/main.cpp:434-518 | A recursive run with no refused call over existing operands (or under -f) removes everything below them, each path once, and exits 0 |
| WalkRun.ReportMeansTrouble | src/main.cpp:511-517 | Exit status 1 implies a refused call, a survivor, a missing -r or a missing operand without -f |
| WalkOptions.NothingBeneathGoes | src/main.cpp:472-494 | Without -r only operands go, and of directories only empty ones and only under -d; what is reported for want of -r is a directory given without -d, or one with something in it |
| WalkOptions.PlainRun | src/main.cpp:453-518 | A finished run without -r and without a refused call removes exactly the operand files and, under -d, the empty operand directories, and exits 0 exactly if nothing else was named (missing operands under -f apart) |
| WalkOptions.OnlyScannedGo | src/main.cpp:153-175 | Without -f every directory that went was opened and scanned first: one whose open is given up is not tried |
| WalkOptions.TroubleIsReported | src/main.cpp:453-518 | With no operand skipped in silence, a refused call other than an open, a missing operand without -f, or anything left of an operand gives exit status 1 |
| WalkOptions.ParkedForCause | src/main.cpp:230-270 | As long as the pool is never found exhausted, a directory is parked only if its open was refused |
| WalkOutcomes.EpochCountsCloses | src/main.cpp:179-181 | In every run the pool's epoch is the number of directories closed so far, modulo 2^32: no close is missed and nothing else counts |
| WalkOutcomes.OpenOutcome | src/main.cpp:153-175 | In any run and for every answer, a directory taken from a queue is read if it opens, parked exactly if descriptors ran out and another is held or was given back since it asked, and else given up: removed empty under -f, or reported |
| WalkOutcomes.ChildOutcome | src/main.cpp:230-270 | A child directory met in a scan is parked without a call near the ceiling, else queued open, parked whenever descriptors ran out, or given up without becoming a node |
| WalkOutcomes.SeedOutcome | src/main.cpp:496-509 | An operand directory is queued open, or given up whatever the reason, and the next operand is looked at |
| WalkTermination.RefusedForGood | src/main.cpp:153-160 | From when seeding is over and the lone worker is back at its queues, an open refused for want of descriptors finds no lease out and is never retryable, for the rest of the run |
| WalkTermination.SoloStepDecreases | src/main.cpp:153-302 | Every step of a lone worker lowers an explicit lexicographic measure |
| WalkTermination.RunEnds | src/main.cpp:153-302 | Whatever rule picks the steps and the system's answers, permanent lack of descriptors included, following it takes a lone worker's run to its end after finitely many steps |
| WalkTermination.NeverStuck | src/main.cpp:153-302 | Until then there is always a step to take |
| WalkTermination.TakenOnce | src/main.cpp:153-183 | From when seeding is over and the lone worker is back at its queues, a directory it has taken is never queued or parked again, for the rest of the run |
| WalkSchedule.QueuesMatch | src/main.cpp:153-270 | In every run of the main thread and one worker, seeding included, what was submitted and not taken is what the walk has queued or parked, each directory once at its priority; while the walk has one in hand the worker is inside Process |
| WalkSchedule.RunnableFirst | src/main.cpp:129-160 | From when seeding is over and the worker is back at its queues, whatever the scheduler hands out is a directory the walk's rule lets a lone worker take (a parked one only when none is runnable), and the walk takes it |
| WalkSchedule.LoneWorker | src/main.cpp:153-302 | From then on the walk's half of the run is a lone worker's run, so RefusedForGood, TakenOnce and RunEnds are about the program with one worker |
| WalkSchedule.HandedOutOnce | src/main.cpp:153-183 | From then on the scheduler hands no directory out twice |
| WalkSchedule.WaitMeansWalked | src/main.cpp:511-518 | When Wait returns the walk is over: all operands seeded, no directory queued, parked or in hand, so WhatIsLeft, NothingLeaks and the exit status results apply |
| LongPath.RFind | src/dir_node.cpp:39-39 | The last slash at or before a position, or none |
| LongPath.OpenPieces | src/dir_node.cpp:34-60 | The loop opens only pieces that fit PATH_MAX with their NUL, each from the directory the one before led to, and its result is the one OpenLongIs is about |
| LongPath.OpenLongIs | src/dir_node.cpp:34-60 | For any path and file system: the refusal of the first directory at a cut that may be searched but not read; else "no such file" for a directory that is there, if the last cut falls on trailing slashes; else the file, or the error, of resolving the whole path |
| LongPath.AgreesUnlessTailCut | src/dir_node.cpp:34-60 | Where directories can be read, OpenLong agrees with resolution in every file system if and only if the last cut does not fall on trailing slashes (or a component is too long for any file system) |
| LongPath.TrailingSlashLost | src/dir_node.cpp:52-59 | For every even PATH_MAX a path of many components and a trailing slash that resolves to a directory and that OpenLong does not find |
| LongPath.RemoveEmpty | src/dir_node.cpp:114-134 | By path or by parent and last name, the target is the one RemovesTheSame is about |
| LongPath.RemovesTheSame | src/dir_node.cpp:114-134 | For a path with a last name and something before it the same directory is removed, or the same error given, as rmdir of the whole path would, if the parent and the directories at cuts can be read and no cut falls on slashes at the parent's end |
| LongPath.LoneTooLong | src/dir_node.cpp:114-126 | A single over-long name is too long in either form |
| LongPath.BelowRootLost | src/dir_node.cpp:122-133 | A single over-long name below the root is reported missing where rmdir says too long |
| WalkPaths.NodeOpens | src/dir_node.cpp:99-112 | For every directory node of any depth whose ancestors open for reading, opening its path is resolving it: no cut closes the way or falls on trailing slashes |
| WalkPaths.NodeRemoves | src/dir_node.cpp:114-134 | For every such node RemoveEmpty takes away what rmdir of its path names, or gives the same error |
| DirNodes.DirNode.PathSize | src/dir_node.cpp:75-79 | The first pass counts the bytes of the path |
| DirNodes.DirNode.PathInto | src/dir_node.cpp:72-97 | The second pass fills exactly those bytes, from the end, with the path: the parent's path, a slash, the name |
| DirNodes.DirNode.PathIsRendered | src/dir_node.hpp:120-167 | The path is the one the walk's lines and reports use |
| Writers.FdWriter.FillBatch | cutils/include/cutils/io/fd_writer.hpp:56-74 | A batch takes the next bytes in order, at most 64 pieces and INT_MAX bytes, and is empty only at the end |
| Writers.FdWriter.Drain | cutils/include/cutils/io/fd_writer.hpp:80-108 | A batch arrives whole through partial writes and interruptions, or a prefix of it and an error, which is the system's last answer or that it took no byte |
| Writers.FdWriter.Consume | cutils/include/cutils/io/fd_writer.hpp:97-107 | After a partial write what is left of the batch is what was not written |
| Writers.FdWriter.WriteMany | cutils/include/cutils/io/fd_writer.hpp:45-110 | The concatenation of the pieces arrives, or a prefix of it and an error; the error is the system's last answer, and none is given if every answer was an interruption or took some bytes |
| Writers.BufferedWriter.WriteMany | cutils/include/cutils/io/buffered_writer.hpp:74-94 | While there is no error, sink and buffer together are everything written; nothing is written of what fits, and what does not fit leaves the buffer empty; an error is the system's last answer |
| Writers.BufferedWriter.WriteManyInTwo | cutils/include/cutils/io/buffered_writer.hpp:95-98 | The same where ranges cannot be concatenated |
| Writers.BufferedWriter.Flush | cutils/include/cutils/io/buffered_writer.hpp:101-109 | On success the sink has everything written and the buffer is empty; an error is the system's last answer |
| Formatting.Accepts | cutils/include/cutils/io/print.hpp:101-119 | A format string is accepted exactly if it is brace-free literals joined by as many holes as there are arguments |
| Formatting.SplitComplete | cutils/include/cutils/io/print.hpp:107-115 | There is only one way to read it |
| Formatting.FormatPieces | cutils/include/cutils/io/print.hpp:126-147 | The pieces of an accepted string concatenate to it with the i-th hole replaced by argument i |
| Warnings.Iterator.Settle | cutils/include/cutils/io/warn.hpp:124-138 | Skipping used-up and empty pieces changes nothing of what is still to be printed |
| Warnings.Iterator.Current | cutils/include/cutils/io/warn.hpp:60-73 | The current piece is not empty and prints the next bytes, escaped in the body |
| Warnings.Iterator.Next | cutils/include/cutils/io/warn.hpp:75-86 | Advancing drops exactly what the current piece printed, and bytes go down |
| Warnings.Pieces | cutils/include/cutils/io/warn.hpp:44-156 | Iterating ends, yields only non-empty pieces, and concatenates to head, escaped body and tail for any split into pieces |
| Warnings.EscapedIsPrintable | cutils/include/cutils/io/warn.hpp:29-41 | No C0 control character but NUL, tab and newline comes through from the body |
| Warnings.EscapedBytes | cutils/include/cutils/io/warn.hpp:29-41 | Exactly the bytes below 32 other than NUL, tab and newline are escaped |
| Warnings.EscapeReadsBack | cutils/include/cutils/io/warn.hpp:29-41 | An escape names its byte, by C's letter or by three octal digits, whatever follows it |
| Warnings.EscapedReadsBack | cutils/include/cutils/io/warn.hpp:29-41 | A body without backslashes can be read back from what is printed of it |
| Reading.BufferedReader.Read | cutils/include/cutils/io/buffered_reader.hpp:55-72 | Yields the next bytes of the source, none only at its end: what is buffered without a read, else a large request past the buffer and a small one through it |
| Reading.BufferedReader.ReadByte | cutils/include/cutils/io/buffered_reader.hpp:74-79 | Yields the next byte of the source |
| Reading.BufferedReader.SkipPast | cutils/include/cutils/io/buffered_reader.hpp:81-93 | Consumes up to and including the next delimiter, or everything if there is none |
| Reading.ConfirmPromptOnce | src/main.cpp:334-394 | Asks when a directory goes with -r or more than three operands exist, and the answer is a function of the bytes read, not of the chunks: of the whole input if no read fails, else of what had been read, with the failure for the end |
| Reading.DecisionIsFirstAnswer | src/main.cpp:384-393 | That function is yes exactly if the first line that begins with y, Y, n or N begins with y or Y |
| DirEntries.DirEntries.constructor | cutils/include/cutils/os/os.hpp:175-178 | The range starts with everything the directory delivers |
| DirEntries.DirEntries.Current | cutils/include/cutils/os/os.hpp:221-235 | The current item is the next record, or the error |
| DirEntries.DirEntries.Advance | cutils/include/cutils/os/os.hpp:237-248 | Advancing drops exactly the current item, reading the next block when this one is used up |
| DirEntries.DirEntries.Fill | cutils/include/cutils/os/os.hpp:250-267 | A block is read through any number of interruptions |
| DirEntries.ReadAll | cutils/include/cutils/os/os.hpp:165-276 | The range yields the items the reads deliver, in order, and ends |
| DirEntries.ItemsAreRecords | cutils/include/cutils/os/os.hpp:216-275 | Those items are every record once, or the first of them and then one error; without errors the blocks make no difference |

## Left out

- Weak memory: relaxed, acquire and release orders and fences; every atomic access is one sequentially consistent step.
- The system calls: open, unlink, rmdir, fstatat, writev, read and getdents64 answer as an oracle or a script chooses.
- Command line, usage text, unlink mode, environment and the dropped-operands flag, which only forces exit status 1.
- Overlapping or repeated operands and changes to the tree by others, which remmy documents as undefined.
- The prompt's text; and RunRm's call of the prompt, which returns 1 before anything is touched.
- WalkSchedule.LoneWorker: the walk and the scheduler run together for one worker; for several, each is modelled with any number of workers, but apart.
- Termination with several workers, or while the main thread still seeds, or with paths of PATH_MAX bytes and more: other reservations keep refused opens retryable there.
- The walk opens a parked directory in one call; OpenLong's intermediate directories are modelled in LongPath only.
- The walk prints a removal's line in the same step as the removal, so two workers' lines come in the order of their removals.
- The entries "." and "..", which the scan passes over, are not in the modelled tree; what a directory entry says of its kind is the truth or nothing.
- The walk's descriptor ceiling is an arbitrary answer to Exhausted; FdPool models how it is learned.
- LongPath's file system is fixed and does not run out of descriptors; a directory on the way that may be searched but not read is refused there as OpenLong refuses it.
- FdPool.StepInv: no reservation is made that would bring the live half of the word to 2^32 (nor in FdHandle.Fd.Open); a process cannot hold that many descriptors.
- The pool's cached capacity in the interleaved model is the answer of one step; its caching is modelled in FdHandle.
- The buffered reader allocates its buffer when made, not when first filled.
- Records of a directory are laid out by their lengths; alignment and the reinterpreting cast are not modelled.
- HeapArray, allocators, optional<Fd>, concepts, MutexWriter, WriterRef and the standard streams.
- LongPath.RemovesTheSame: a path of PATH_MAX bytes or more that ends in a slash is left out, because the last name is then empty and the walk builds no such path; shorter ones go to rmdir as they are.
- WalkPaths.NodeOpens: the operand is shorter than PATH_MAX, because it was opened by its path, and that the directories above a node open again is assumed of the file system.
- ConcurrentDeque.ExactlyOnce: the 64-bit indices are unbounded integers; wrap-around after 2^63 insertions is not modelled.
