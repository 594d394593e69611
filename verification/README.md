# xv6 for RISC-V, modelled and proved in Dafny

This project models the parts of xv6 whose correctness spans many functions or many processes, and proves what
those parts promise. Code that updates things in place is a class or a method with loops; what several processes
do at once is a state machine whose steps are the stretches of code that run under one lock, and the theorems
about it hold at every state of every run.

| files | what they model |
|---|---|
| `DiskLog`, `LogProtocol`, `LogRuns`, `LogSpace` | the write-ahead log and the buffer cache as one machine with crashes: crash atomicity, cache refinement, the reservation of log space |
| `Bio`, `Wal` | `kernel/bio.c` and `kernel/log.c` statement by statement: the LRU list, and the disk images that a commit or a recovery writes |
| `SleepWakeup`, `SleepLock`, `WaitExit`, `Pipe` | sleep and wakeup for any client, sleep-locks, fork, exit and wait, pipes |
| `Blocks`, `Inodes`, `Capacity`, `FileSys` | block ownership, file contents, the blocks that a write needs, transaction sizes, the life of a file |
| `Mkfs`, `MkfsMain` | the first image, and every sequence of calls from it |
| `Itable`, `InodeCopies` | the inode table under every interleaving; table, copies and disk as one map of inodes |
| `Links`, `Namespace` | link counts and the directory tree; directories as maps of names |
| `Kalloc`, `PageTable`, `Tables`, `Vm`, `VmFree`, `VmProc` | the frame allocator, three-level page tables, the tables that a range lacks, address spaces from creation to release |
| `Virtio` | the disk driver and a device that completes requests in any order |
| `UMalloc`, `Grep` | the user-level allocator; the matcher and line loop of grep |
| `Shell`, `ShellGrammar`, `ShellCode` | the shell's parser as functions, the grammar that it recognises, and its loops and buffer |
| `Sums` | sums over finite maps and sizes of finite sets |

## Findings

Where the code does not have a property that one would expect, the failing case and the exact condition are
proved.

- **Log space.** The comment in `kernel/param.h` lets an operation write MAXOPBLOCKS = 10 blocks. Three operations
  within that limit can reach the "too big a transaction" panic (`LogSpace.TenBlocksCanPanic`), because `log_write`
  leaves one header entry unused. With at most nine new blocks each they cannot (`LogSpace.NeverTooBig`), and on
  a disk with one bitmap block `filewrite` never logs more than seven (`FileSys.ChunkBound`).
- **Pipes.** `pipewrite` returns early without waking readers when it is killed; a reader can then sleep on a pipe
  that holds bytes. `Pipe.ReadersBlockedExactly` says exactly when by the inputs of the call, `Pipe.RunExact` over
  whole runs.
- **".." of a removed directory.** Its parent may be freed while the directory is still somebody's working directory
  (`Links.StaleParentReachable`), and `namex` does not look whether a directory is linked. Such a lookup ends in the
  panic of `ilock` (`Itable.PanicReachable`, `Itable.LookupPanics`) or, if `ialloc` reuses the number in between,
  at another file (`Itable.OtherFileReachable`). `Itable.RunExact` says exactly which lookups keep the table right;
  lookups through linked directories do (`Itable.LinkedIsSound`, `Links.NamedIsAllocated`).
- **Inode leak.** If `ialloc` reuses an inode number while an `iput` is between freeing the inode and dropping its
  count, and the new owner gives the inode up unlinked, it is left allocated in nobody's hands
  (`Itable.OrphanReachable`, `Itable.OrphansArise`), and stays so as long as lookups lead to linked inodes
  (`Itable.OrphanForever`).
- **Link counts.** They are exact as long as no name is entered in a directory that has been removed and no count
  passes 32767, and only as long (`Links.StepExact`, `Links.UnsoundReachable`).
- **mkfs.** Rounding up the root directory's size leaves its last block unmapped if the size was already a multiple
  of the block size (`Mkfs.RootRounded`), as with 62 files (`MkfsMain.FullRoot`, `MkfsMain.Build`).
- **malloc.** Requests above 2^31 - 32 bytes pass a wrapped number to `sbrk`, and more is listed than was given
  (`UMalloc.Heap.Malloc`, `UMalloc.LargestRequest`, `UMalloc.HalfRequest`).
- **grep.** It stops at the first line that does not fit its buffer, and never prints a last line without newline
  (`Grep.Run`, `Grep.OneLongLine`).
- **kill and wait.** A kill that comes between wait's test for it and its sleep goes unnoticed until a child exits
  (`WaitExit.MissedExactly`, `WaitExit.MissedReachable`).
- **kill(0).** It marks a free process entry, and the process that is made there next is killed before it starts
  (`WaitExit.BornKilled`, `WaitExit.KilledExactly`).
- **proc_pagetable.** The tables of the trampoline cover the trapframe, so mapping the trapframe never fails and the
  clean-up for that case is dead code (`VmProc.ProcPagetable`).
- **growproc.** Shrinking by more than the size wraps to a huge size and is ignored, with success
  (`VmFree.Growproc`).

## Hypotheses

- Critical sections and single block writes are atomic, and memory is sequentially consistent.
- There is one disk, ROOTDEV. All zeroed buffers carry device 0, so that at most one buffer holds a block is
  stated for other devices.
- Copies between user and kernel memory succeed inside `writei` and `readi`. In pipes they may fail.
- A process that makes a condition of `sleep` true calls `wakeup` before it releases the lock; for sleep-locks this
  is proved (`SleepLock.Disciplined`). `WaitExit` and `Pipe` take falling asleep and giving up the lock as one step,
  which is what `SleepWakeup.NoLostWakeup` justifies.
- Process identifiers do not wrap.
- Whoever changes a locked inode calls `iupdate` before unlocking it, as the comment on `iupdate` asks.
- Physical memory is the 128 megabytes of `kernel/memlayout.h`.
- `sbrk` answers -1, or the end of the process's memory, which lies at or above the end of what it gave before and
  counts in units of 16 bytes.
- The disk device never reports an error.
- mkfs reads each file in pieces of one block, the last one excepted.

## Model

| member | source | states |
|---|---|---|
| `DiskLog.LogSlotWriteInvisible` | kernel/log.c:178-191 | Filling a log block while the header on disk is empty changes the durable contents of no home block. |
| `DiskLog.HeaderWriteCommits` | kernel/log.c:102-114 | One write of the header block switches all the blocks it names to their logged copies, and no other block. |
| `DiskLog.InstallInvisible` | kernel/log.c:68-83 | Copying a logged block home changes no durable contents. |
| `DiskLog.EraseInvisible` | kernel/log.c:194-203 | Writing the empty header changes no durable contents once every logged block is home. |
| `LogProtocol.EveryStepGood` | kernel/log.c:68-235 | Every event of the machine (bread, modify, log_write, brelse, eviction, begin_op, end_op, each statement of commit and of recovery, crash) keeps the invariant; only a modification changes what readers see, and only the header write of a commit changes what is durable, to exactly what readers see. |
| `LogProtocol.WorkEnds` | kernel/log.c:68-203 | Each step of a commit or a recovery is one nearer to its end. |
| `LogProtocol.LoggedMayRelease` | kernel/log.c:206-235 | A buffer that an operation has changed can be released after log_write, and not before. |
| `LogRuns.RunInv` | kernel/log.c:54-235 | The invariant holds at every state of every run, crashes included. |
| `LogRuns.CrashAtomicity` | kernel/log.c:68-203 | At every state of every run, so at every crash point, also during recoveries that are themselves cut short: the contents that recovery would restore are those of the start of the run or, if a non-empty header has been written, exactly what readers saw at the last such write, when no operation was in progress and no home block was half modified. |
| `LogRuns.ConsistencySurvives` | kernel/log.c:10-24 | Any property of the home blocks that holds at the start and whenever no operation is in progress holds of what recovery restores after a crash at any moment of any run. |
| `LogRuns.RecoveryRestores` | kernel/log.c:116-123 | When recovery ends, every home block reads as its durable contents. |
| `LogRuns.IdleIsDurable` | kernel/log.c:146-203 | Whenever no operation is in progress and no commit or recovery runs, everything that readers see would survive a crash. |
| `LogRuns.CacheRefinesMap` | kernel/bio.c:58-151 | Between boot and crash, under any pattern of eviction, refill, commit and installation, a block reads as the last value stored into it: cache, disk and pending log together are a plain map. |
| `LogRuns.EvictionLosesNothing` | kernel/bio.c:73-87 | An evicted block is not modified and equals its copy on disk. |
| `LogSpace.ReservationHolds` | kernel/log.c:126-142 | In every run the header count plus the unused budgets of the operations in progress is at most LOGSIZE, for budgets up to MAXOPBLOCKS. |
| `LogSpace.NeverTooBig` | kernel/log.c:214-235 | With a log of LOGSIZE blocks, operations that add at most MAXOPBLOCKS - 1 new blocks never reach the "too big a transaction" panic. |
| `LogSpace.TenBlocksCanPanic` | kernel/log.c:214-235 | The bound is exact: a run in which operations add ten, ten and nine blocks, within the limit of MAXOPBLOCKS, ends where the next log_write panics, because the test leaves one header entry unused. |
| `LogSpace.NoCommitDuringOp` | kernel/log.c:146-175 | While an operation is in progress no commit runs, so end_op never finds `committing` set. |
| `LogSpace.NoLostBeginOp` | kernel/log.c:126-175 | Whoever sleeps in begin_op could not go on: a commit is running, or one more operation might not fit. |
| `LogSpace.CommitFindsBuffer` | kernel/bio.c:58-89 | If only logged blocks are in use, there is always a buffer that bget can take, so a commit never meets the "no buffers" panic. |
| `LogSpace.SecondReadIsCached` | kernel/log.c:68-83 | In write_log and install_trans the second bread, made while the log block of the round is held, is of a block that is cached, valid and pinned, so it needs no buffer. |
| `Bio.UnlinkLinks` | kernel/bio.c:128-129 | The two assignments that take a buffer out of the list leave a list that is well linked both ways and lacks just that buffer. |
| `Bio.PushLinks` | kernel/bio.c:130-133 | The four assignments that put a buffer at the front leave a list that is well linked both ways with the buffer in front. |
| `Bio.MoveToFrontPermutes` | kernel/bio.c:117-137 | The order of use stays a permutation of the NBUF buffers. |
| `Bio.ContentAfterRead` | kernel/bio.c:58-103 | Recycling a clean buffer and filling it from disk shows in the contents of no block. |
| `Bio.BCache.constructor` | kernel/bio.c:36-53 | binit makes a well-linked list of all NBUF buffers, with no references. |
| `Bio.BCache.FindCached` | kernel/bio.c:66-71 | The first loop of bget finds the buffer of the block, or there is none. |
| `Bio.BCache.FindFree` | kernel/bio.c:75-77 | The second loop finds the least recently released free buffer, or all are in use. |
| `Bio.BCache.Bget` | kernel/bio.c:58-89 | The buffer that holds the block, or the least recently released free one re-labelled, locked and with one more reference; -1 exactly when the block is not cached and every buffer is in use; at most one buffer per block of a device other than 0; no other buffer changes. |
| `Bio.BCache.Bread` | kernel/bio.c:92-103 | The buffer is valid and holds what a reader sees in the block; no block's contents change. |
| `Bio.BCache.Bwrite` | kernel/bio.c:106-112 | The disk holds the buffer's data, in one step, and nothing else on disk changes. |
| `Bio.BCache.Bpin` | kernel/bio.c:139-144 | One more reference; the list and the contents are as before. |
| `Bio.BCache.Bunpin` | kernel/bio.c:146-151 | One reference less, also the last one of a buffer that is neither locked nor changed; the list and the contents are as before. |
| `Bio.BCache.Brelse` | kernel/bio.c:116-137 | Unlocks and drops one reference; a buffer with none left is the most recently used; the list is a permutation and every block reads as before. |
| `Wal.Log.constructor` | kernel/log.c:54-65 | initlog up to recovery: the in-memory header is empty. |
| `Wal.Log.HeadImage` | kernel/log.c:107-111 | The header block after the loop: count and block numbers, later words untouched. |
| `Wal.Log.WriteHead` | kernel/log.c:102-114 | The header on disk becomes the in-memory header, in one disk write. |
| `Wal.Log.ReadHead` | kernel/log.c:86-97 | The in-memory header becomes the list on disk. |
| `Wal.Log.WriteLog` | kernel/log.c:178-191 | Each log block receives the cached contents of its home block; every disk image on the way has the same durable contents. |
| `Wal.Log.InstallTrans` | kernel/log.c:68-83 | Each logged block reaches its home location and is unpinned unless recovering; every disk image on the way has the same durable contents. |
| `Wal.Log.Commit` | kernel/log.c:193-203 | Of all disk images written, those before the header write have the old durable contents and those from it on have what readers see; at the end the log is empty and everything is home. |
| `Wal.Log.RecoverFromLog` | kernel/log.c:116-123 | Every image written has the durable contents of the start; at the end the header is empty and the home blocks hold them. |
| `Wal.Log.LogWrite` | kernel/log.c:214-235 | Panics exactly on a full log, which it tests before absorption, or outside an operation; otherwise absorbs a block that is already logged, or appends and pins it, and touches no other buffer. |
| `SleepWakeup.StepKeepsInv` | kernel/proc.c:577-628 | Every statement of sleep, wakeup, sched, scheduler, yield and kill, in any interleaving, keeps: a committed sleeper whose condition holds is owed a wakeup. |
| `SleepWakeup.NoLostWakeup` | kernel/proc.c:577-628 | For every client that makes its conditions true and calls wakeup under the lock: whenever that lock is free, nobody asleep on the channel, or on the way to sleep without looking again, has its condition true. |
| `SleepWakeup.WakesExactly` | kernel/proc.c:609-628 | A step touches another process exactly if it is a wakeup on the channel on which that process sleeps, and then makes it runnable and changes nothing else of it. |
| `SleepWakeup.WokenExactly` | kernel/proc.c:609-655 | A sleeper is woken by exactly a wakeup on its channel or a kill. |
| `SleepWakeup.WakesAll` | kernel/proc.c:609-628 | When wakeup returns, nobody sleeps on the channel or is about to. |
| `SleepWakeup.SleepReturns` | kernel/proc.c:577-605 | From its call on a process is inside sleep, asleep on no other channel, until it has taken the same lock again, with which sleep returns. |
| `SleepWakeup.NobodyLost` | kernel/proc.c:470-605 | A process is off the CPU exactly if it is runnable or asleep, its lock is held exactly between two statements of sleep and while it comes back, and its channel is set exactly while it sleeps or comes back; so the scheduler or a wakeup can reach it. |
| `SleepWakeup.Progress` | kernel/proc.c:470-628 | Inside sleep, wakeup and the scheduler the next step can be taken, unless the process sleeps or a lock is in other hands. |
| `SleepWakeup.StepsAdvance` | kernel/proc.c:470-628 | Each step of its own brings a process nearer to the end of its call of sleep or wakeup, and nobody else moves it. |
| `SleepWakeup.WakeFirst` | kernel/proc.c:387-402 | A wakeup before the condition is made true, as in exit, does as well as one after, as long as the lock is not released in between. |
| `SleepLock.Disciplined` | kernel/sleeplock.c:21-41 | acquiresleep and releasesleep obey the discipline that NoLostWakeup asks for. |
| `SleepLock.AtMostOneHolder` | kernel/sleeplock.c:21-41 | In every interleaving a sleep-lock has at most one holder, and is marked locked while it has one. |
| `SleepLock.NobodySleepsOnFreeLock` | kernel/sleeplock.c:21-41 | When neither a sleep-lock nor its spin-lock is held, nobody is asleep on it. |
| `SleepLock.LockedExactlyHeld` | kernel/sleeplock.c:21-41 | A sleep-lock is marked locked exactly while it has a holder. |
| `SleepLock.ReturnsHolding` | kernel/sleeplock.c:21-41 | acquiresleep returns as the holder of its lock, and releasesleep as none. |
| `WaitExit.StepKeepsInv` | kernel/proc.c:290-463 | Every step of fork, reparent, exit, wait and kill keeps the invariant of the process table. |
| `WaitExit.ParentsCanWait` | kernel/proc.c:345-406 | In every interleaving no child has a zombie or freed parent, and every started process but init has a parent. |
| `WaitExit.NoSleeperHasZombie` | kernel/proc.c:408-463 | Whenever wait_lock is free, nobody asleep in wait has a zombie child, also after reparent has handed children to init. |
| `WaitExit.ReapedOnce` | kernel/proc.c:408-463 | No process identifier is reaped twice in any run. |
| `WaitExit.ReapsOwnDeadChild` | kernel/proc.c:420-448 | wait frees only its caller's own zombie child, and only after that child has left the CPU. |
| `WaitExit.Progress` | kernel/proc.c:290-463 | Nobody is stuck: a process that is neither asleep nor dead nor being made can take its next step, or waits for a lock that another process has. |
| `WaitExit.StepsAdvance` | kernel/proc.c:290-463 | Each step of its own brings a process nearer to the end of its fork, exit or scan, and nobody else moves it. |
| `WaitExit.WaitDecides` | kernel/proc.c:418-462 | Once it has scanned the table, wait returns -1 exactly if it has been killed or no entry has it as parent, and otherwise goes on to sleep; in neither case is one of its children a zombie. |
| `WaitExit.WaitFinds` | kernel/proc.c:424-448 | When the scan comes upon a child that is a zombie, wait returns: with its identifier and status and the entry freed, or with -1 and the zombie left as it is if the status cannot be copied out. On any other child it goes on with havekids set. |
| `WaitExit.SleepsForLivingChild` | kernel/proc.c:418-462 | A process that falls asleep in wait has a child, and none that is a zombie. |
| `WaitExit.ZombieExited` | kernel/proc.c:361-406 | A zombie has the status that it passed to exit under its present identifier. |
| `WaitExit.WaitTellsStatus` | kernel/proc.c:408-463 | wait returns the identifier of a child of the caller, with the very status that this child passed to exit. |
| `WaitExit.ForkMakesChild` | kernel/proc.c:290-342 | When fork returns, the child can run, is the caller's child, and has an identifier that nobody has or had. |
| `WaitExit.ParentHistory` | kernel/proc.c:343-359 | As long as a process lives, its parent is the one that forked it, or init after that one has called exit. |
| `WaitExit.FreedExactly` | kernel/proc.c:160-182 | An entry becomes free exactly by freeproc, in a failed fork or in wait, and is then as new. |
| `WaitExit.ZombieExactly` | kernel/proc.c:361-448 | An entry is a zombie exactly from the end of exit until freeproc. |
| `WaitExit.KilledExactly` | kernel/proc.c:630-655 | The mark of kill is on an entry exactly from a kill until freeproc, whoever the entry belongs to meanwhile. |
| `WaitExit.BornKilled` | kernel/proc.c:630-655 | A run in which kill(0) marks a free entry and the process forked into it is killed before it starts. |
| `WaitExit.MissedExactly` | kernel/proc.c:453-461 | A killed process sleeps in wait exactly if the kill came between the test for it and the sleep. |
| `WaitExit.MissedReachable` | kernel/proc.c:453-461 | Such a run. |
| `Pipe.SlotAfterWrap` | kernel/pipe.c:77-130 | The slot of a byte carries over when a 32-bit counter wraps, because PIPESIZE divides 2 to the 32. |
| `Pipe.RingBuffer.constructor` | kernel/pipe.c:22-56 | A new pipe is empty and open at both ends. |
| `Pipe.RingBuffer.PipeWrite` | kernel/pipe.c:76-103 | One critical section of pipewrite puts in, through wrapping counters, the bytes up to the first that it does not get past: where the source ends, the read end is closed, a kill has come, the pipe is full or the copy fails; it gives up, sleeps or returns a count accordingly. It gives up with bytes written exactly if a kill comes midway. |
| `Pipe.RingBuffer.PipeRead` | kernel/pipe.c:105-130 | One critical section of piperead on an empty pipe that can be written gives up exactly if killed and sleeps if not; otherwise it takes the oldest bytes, exactly as many as asked for and there are, up to the first that cannot be copied out, which is lost. |
| `Pipe.AbortsExactly` | kernel/pipe.c:76-103 | pipewrite returns -1 after having written something exactly if a kill comes before the source ends, the pipe is full or a copy fails. |
| `Pipe.SectionMeans` | kernel/pipe.c:76-103 | It gives up only on a closed read end or a kill, sleeps only on a full pipe that can be read, and returns a count only with everything written or at a byte that cannot be copied. |
| `Pipe.WritesAll` | kernel/pipe.c:76-103 | With room for all, an open read end, no kill and no failing copy, all bytes are written. |
| `Pipe.RingBuffer.Close` | kernel/pipe.c:58-74 | Closes one end and leaves the bytes and the other end as they are; the page is given back exactly when both ends are closed. |
| `Pipe.StepKeepsInv` | kernel/pipe.c:58-130 | Every critical section keeps the occupancy within PIPESIZE, a sleeping writer blocked, and every unfinished call at a prefix of its source. |
| `Pipe.FirstInFirstOut` | kernel/pipe.c:76-130 | Under any interleaving of readers and writers, what came out plus what is in the pipe is what was written, and occupancy is at most PIPESIZE. |
| `Pipe.CallWritesPrefix` | kernel/pipe.c:76-103 | However often it sleeps, a call of pipewrite puts in the first bytes of its source, in order and once each; a count that it returns is their number, and then all are in or the next cannot be copied. |
| `Pipe.SleepingWriterIsBlocked` | kernel/pipe.c:76-103 | Whenever the lock is free a sleeping writer faces a full pipe with the read end open. |
| `Pipe.ReadersBlockedExactly` | kernel/pipe.c:76-130 | The same for readers of an empty pipe is kept by a step exactly when it is not a pipewrite that is killed midway, as its inputs say, while readers sleep. |
| `Pipe.RunExact` | kernel/pipe.c:76-130 | Along a whole run it holds throughout exactly when no step is of that kind. |
| `Pipe.KilledWriterStrandsReader` | kernel/pipe.c:76-103 | Such a run: a reader sleeps on although a byte is there. |
| `UMalloc.InsertKeeps` | user/umalloc.c:26-51 | Inserting and merging a freed block keeps the list in address order, without overlap and without two blocks that touch, and adds exactly its units. |
| `UMalloc.FreeStores` | user/umalloc.c:33-50 | The pointer and size assignments of free leave in memory exactly the circular list with the block inserted and merged. |
| `UMalloc.Heap.constructor` | user/umalloc.c:22-24 | Before the first call there is no list and nothing was obtained from sbrk; the units on the list are those obtained. |
| `UMalloc.Heap.Search` | user/umalloc.c:34-36 | The loop of free ends, at the block after which the freed block belongs. |
| `UMalloc.Heap.Free` | user/umalloc.c:26-51 | The block leaves the live blocks and is merged into the list; live blocks stay disjoint from the list and from each other; units are conserved. |
| `UMalloc.Heap.Morecore` | user/umalloc.c:53-68 | A refused sbrk changes nothing; a grant adds max(nu, 4096) units to list and total, while the process gets what the int argument of sbrk says, and some block then has room for the request. |
| `UMalloc.Heap.Take` | user/umalloc.c:83-94 | The allocated block is the whole block or its tail, was not live before, and the units are conserved. |
| `UMalloc.Heap.Malloc` | user/umalloc.c:70-101 | The search ends; the result is null exactly when no block is big enough and sbrk refuses; otherwise a new live block of the right size, with sbrk called at most once and only when no block was big enough; free plus live units are always those listed, and those listed are the ones that sbrk gave exactly if sbrk was not needed, refused, or the request is at most 2^31 - 32 bytes. |
| `UMalloc.SbrkArgument` | user/umalloc.c:58-61 | The int argument of sbrk is the number of bytes wanted exactly for requests of at most 2^31 - 32 bytes. |
| `UMalloc.Overrun` | user/umalloc.c:53-68 | The memory that sbrk gives never ends above the block that morecore lists, and ends there exactly for requests of at most 2^31 - 32 bytes. |
| `UMalloc.LargestRequest` | user/umalloc.c:53-101 | malloc of 2^32 - 1 bytes on a new heap: one unit comes from sbrk, and a live block of 2^28 + 1 units is returned. |
| `UMalloc.HalfRequest` | user/umalloc.c:53-101 | malloc of 2^31 bytes on a new heap: sbrk is asked to shrink, gives nothing and succeeds, and a live block of 2^27 + 1 units is returned. |
| `Grep.HereStar` | user/grep.c:95-120 | A star followed by the rest of the pattern matches here exactly if the rest matches behind some number of characters that the star accepts. |
| `Grep.HereOne` | user/grep.c:95-107 | A pattern that starts with a plain character matches here exactly if the text starts with a character that it accepts and the rest matches behind it. |
| `Grep.Match` | user/grep.c:80-92 | match answers whether some substring, anchored as ^ and $ demand, is in the language of the pattern, which is defined without reference to the code. |
| `Grep.MatchHere` | user/grep.c:94-107 | matchhere answers whether some prefix of the text is in the language, reaching the end after $. |
| `Grep.MatchStar` | user/grep.c:109-120 | matchstar answers the same for a starred character followed by a pattern. |
| `Grep.FitsStep` | user/grep.c:18-38 | A read never takes the data past the first line that is too long for the buffer. |
| `Grep.PrintLines` | user/grep.c:23-31 | The inner loop prints exactly the matching complete lines of the buffer, in order, and restores the buffer. |
| `Grep.Round` | user/grep.c:18-36 | One round: the lines completed by the bytes just read are dealt with and the rest of the buffer is moved to the front. |
| `Grep.Run` | user/grep.c:11-39 | However the reads are split, on data without NUL the output is the matching newline-terminated lines of what was consumed, in order, and all data are consumed exactly if every line fits the buffer of 1023 bytes. |
| `Grep.OneLongLine` | user/grep.c:11-39 | A file of one line with 1023 characters, which matches: grep stops before its end and prints nothing, however the reads are split. |
| `Blocks.OwnTake` | kernel/fs.c:66-88 | Marking a free block and entering it in an empty slot keeps: a bitmap bit is set exactly when the block is metadata or in exactly one slot. |
| `Blocks.OwnDrop` | kernel/fs.c:92-105 | Clearing the bit of a block and dropping its one reference keeps the same. |
| `Inodes.TakenKeeps` | kernel/fs.c:66-88 | Allocating a zeroed block changes the contents of no file. |
| `Inodes.BytesWritten` | kernel/fs.c:516-529 | One round of writei puts its bytes in place and changes no other byte of any file. |
| `Inodes.WrittenContents` | kernel/fs.c:506-539 | Once the size is brought up to date, the bytes written are spliced into the contents. |
| `FileSys.FileSystem.constructor` | mkfs/mkfs.c:75-175 | The file system starts from any image in order, such as the one that MkfsMain proves mkfs to leave. |
| `FileSys.FileSystem.Balloc` | kernel/fs.c:66-88 | The first free block, marked and zeroed; 0 exactly when all blocks are in use; at most two blocks are logged. |
| `FileSys.FileSystem.Bfree` | kernel/fs.c:92-105 | Clears one bit; its panic is the precondition, which every caller here meets. |
| `FileSys.FileSystem.Bmap` | kernel/fs.c:383-421 | The block of a file, allocated if it was missing, across the direct and indirect boundary, with ownership kept exact; 0 only on a full disk, and the panic is not reached. |
| `FileSys.FileSystem.WriteBlock` | kernel/fs.c:516-529 | One round of writei and the blocks that it may log. |
| `FileSys.FileSystem.Writei` | kernel/fs.c:506-539 | -1 exactly for a start beyond the end or an end beyond the largest file; otherwise exactly the returned bytes are spliced into the contents, and every other file and inode is unchanged. The number is the largest for which the free blocks suffice, counting data blocks and the indirect block that the file lacks; with a bound on the blocks logged. |
| `FileSys.FileSystem.Readi` | kernel/fs.c:472-496 | The slice of the contents clipped to the file, nothing for a start beyond the end or 32-bit overflow; changes nothing. |
| `FileSys.FileSystem.Itrunc` | kernel/fs.c:426-453 | The file is empty and refers to no block, every other file is unchanged, ownership stays exact, and no block is freed twice. |
| `FileSys.FileSystem.Ialloc` | kernel/fs.c:199-219 | The first inode without type gets the type and starts empty; 0 exactly when every inode is taken; no file changes, and one block is logged. |
| `FileSys.FileSystem.Ifree` | kernel/fs.c:337-362 | What iput does to an unlinked inode: its blocks return, it is empty and without type, and no other file changes. |
| `FileSys.FileSystem.Filewrite` | kernel/file.c:135-181 | The chunks together splice what was written into the contents at the offset. They get exactly as far as the start, the largest file and the free blocks allow; the result is n exactly if the start is in the file, the end within the largest file and the free blocks suffice, and -1 otherwise. Every transaction logs at most MAXOPBLOCKS distinct blocks. |
| `Capacity.LackingJoin` | kernel/fs.c:383-421 | What a range of bytes lacks is what its front lacks plus what the rest lacks once the front has its blocks, and the free blocks shrink by exactly that. |
| `Capacity.LackingMore` | kernel/fs.c:383-421 | More bytes lack no fewer blocks, so how far a write gets is one number. |
| `FileSys.FileSystem.FileLife` | kernel/fs.c:199-362 | Allocating an inode, writing any bytes to it and freeing it again leaves the bitmap, the inodes and every file as before, also when the disk or the inodes run out. |
| `FileSys.OwnDetermines` | kernel/fs.c:66-105 | Since ownership is exact, the block numbers in the inodes determine the bitmap. |
| `FileSys.ChunkBound` | kernel/file.c:149-174 | A chunk logs at most 10 distinct blocks wherever it starts, and at most 7 on a disk with one bitmap block. |
| `FileSys.SplicedMore` | kernel/file.c:157-173 | Consecutive writes splice like one write of all the bytes. |
| `Mkfs.Image.constructor` | mkfs/mkfs.c:93-118 | The zeroed image, with the metadata blocks of any layout in use and every inode empty, is in order. |
| `Mkfs.Image.Iappend` | mkfs/mkfs.c:255-296 | The bytes go to the end of the file, other files and inodes are unchanged, and fresh blocks come in order. |
| `Mkfs.Image.Bitmap` | mkfs/mkfs.c:237-250 | The assertion holds exactly if fewer blocks are in use than one bitmap block has bits; the bitmap on disk then marks exactly the blocks below freeblock, which are those in use. |
| `Mkfs.Image.FixRoot` | mkfs/mkfs.c:164-170 | Rounding up the root's size leaves the image in order exactly if the size was not a multiple of the block size. |
| `Mkfs.RootRounded` | mkfs/mkfs.c:164-170 | The same for every image: from a multiple of the block size on, the root would end in a block that is not there. |
| `MkfsMain.LayoutFits` | mkfs/mkfs.c:22-111 | The parts of the layout follow each other without gap; log, inodes and bitmap have each enough blocks, and at most one too many. |
| `MkfsMain.BlocksInPlace` | kernel/fs.h:44-51 | With that layout every inode lies in an inode block, sixteen to a block, and every block has its bit in a bitmap block. |
| `MkfsMain.CopyFile` | mkfs/mkfs.c:155-160 | Copying a file in pieces of one block gives its inode exactly the bytes of the file. |
| `MkfsMain.AddFile` | mkfs/mkfs.c:131-162 | One more file: its inode holds its bytes, the root has one more entry that names it, and no other inode changes. |
| `MkfsMain.RootEntry` | mkfs/mkfs.c:120-152 | Entry e of the root reads back as a little-endian number and a name: the dots name the root, and every other entry names the inode numbered like it under the name of its file. |
| `MkfsMain.Build` | mkfs/mkfs.c:75-175 | For every list of files that fits: the root holds "." and ".." and one entry for each file, every file holds its bytes, all other inodes are empty, and the image is in order exactly if the number of files plus two is not a multiple of 64. |
| `MkfsMain.FullRoot` | mkfs/mkfs.c:164-170 | With 62 files, so a root of 1024 bytes before rounding, the root claims 2048 bytes and the image is not in order. |
| `MkfsMain.Boot` | mkfs/mkfs.c:75-175 | The image as a file system of the kernel: in order, exactly the root and the files have a type, inodes without type are empty, the root starts with its entries, and every file reads as it was given. |
| `MkfsMain.Serve` | kernel/fs.c:199-496 | Every call of ialloc, filewrite, readi, itrunc and the freeing of an inode, with any arguments, answers and does to the contents of all files exactly what the call is for, and keeps the file system in order and inodes without type empty. |
| `MkfsMain.ReadsBack` | kernel/fs.c:472-539 | Bytes for which there was room, written to a file and read back, are the same. |
| `MkfsMain.Session` | mkfs/mkfs.c:75-175 | From the image of mkfs on, every sequence of such calls has these answers and effects one after another, and ends with the file system in order. |
| `Virtio.AtMostTwo` | kernel/virtio_disk.c:22-59 | Requests in flight own disjoint triples of descriptors, so there are at most NUM/3. |
| `Virtio.RoomForThree` | kernel/virtio_disk.c:201-213 | With fewer than two requests in flight three descriptors are free. |
| `Virtio.Shifted` | kernel/virtio_disk.c:270-279 | Ring positions carry over when a 16-bit index wraps. |
| `Virtio.RingPush` | kernel/virtio_disk.c:270-279 | A new ring entry never overwrites one that the other side has not read. |
| `Virtio.RingPop` | kernel/virtio_disk.c:314-325 | The oldest entry leaves the ring and the rest stays in order. |
| `Virtio.Disk.constructor` | kernel/virtio_disk.c:61-153 | All descriptors are free and the rings empty. |
| `Virtio.Disk.AllocDesc` | kernel/virtio_disk.c:156-166 | The first free descriptor, or -1 if there is none. |
| `Virtio.Disk.FreeDesc` | kernel/virtio_disk.c:169-182 | Exactly that descriptor becomes free; its panics are the precondition. |
| `Virtio.Disk.Alloc3` | kernel/virtio_disk.c:199-213 | Three different free descriptors or, with fewer than three free, none taken. |
| `Virtio.Disk.Start` | kernel/virtio_disk.c:215-281 | Sleeps exactly when two requests are in flight; otherwise the request is formatted as three chained descriptors and queued once. |
| `Virtio.Disk.Fetch` | kernel/virtio_disk.c:270-281 | The device takes the oldest queued request. |
| `Virtio.Disk.Complete` | kernel/virtio_disk.c:239-281 | The device may complete any request that it has taken; the data move between buffer and medium in the right direction, and the request is posted once. |
| `Virtio.Disk.Acknowledge` | kernel/virtio_disk.c:314-325 | One round of the interrupt handler: the status is 0 and exactly the buffer of the completed request stops being busy. |
| `Virtio.Disk.Intr` | kernel/virtio_disk.c:293-327 | Afterwards every posted request has been acknowledged and the set of requests is the same. |
| `Virtio.Disk.FreeChain` | kernel/virtio_disk.c:184-197 | Frees exactly the three descriptors of the chain. |
| `Virtio.Disk.Finish` | kernel/virtio_disk.c:283-292 | The request is over only when it was acknowledged, and its descriptors return; after a read the buffer holds what the sector held when the device completed the request. |
| `Itable.Scan` | kernel/fs.c:247-277 | The one-pass loop of iget finds the referenced entry of the inode if there is one, else the first empty slot, and the panic exactly if there is neither. |
| `Itable.StepKeepsInv` | kernel/fs.c:199-362 | Every step of ialloc, iget, idup, ilock, iunlock, iupdate and iput, in any interleaving, keeps the invariant of the inode table and its copies, if a lookup leads to an allocated inode that no ialloc is about to return and no iput about to free. |
| `Itable.StepExact` | kernel/fs.c:199-362 | From any state in order, a step keeps this exactly when it is of that kind. |
| `Itable.RunExact` | kernel/fs.c:199-362 | Along a whole run it holds throughout exactly when every step is of that kind. |
| `Itable.StepKeepsTable` | kernel/fs.c:199-362 | Whatever a lookup leads to, each step keeps the table itself: exact counts, one entry per inode, one holder per lock. |
| `Itable.LinkedIsSound` | kernel/fs.c:652-684 | A lookup that leads to an allocated inode with a link, as an entry of a linked directory does, is of that kind. |
| `Itable.LinkedRunIsSound` | kernel/fs.c:652-684 | So along every run whose lookups all lead to linked inodes, every step is of that kind. |
| `Itable.OneEntryPerInode` | kernel/fs.c:247-277 | In every run an inode has at most one referenced entry, and its count is the number of references. |
| `Itable.NeverRecycled` | kernel/fs.c:247-277 | In every run, while a reference lasts it stays with the same entry and that entry with the same inode number. |
| `Itable.SameFile` | kernel/fs.c:247-362 | While lookups are of that kind and the reference is live, the number stays with the file that the reference was taken for, and the file stays allocated. |
| `Itable.LockedIsCurrent` | kernel/fs.c:291-317 | While lookups are of that kind, whoever has an inode locked and loaded sees the file that its reference was taken for, also when ialloc has reused the number during an iput. |
| `InodeCopies.StepFollows` | kernel/fs.c:199-362 | Every step of ialloc, iget, idup, ilock, iunlock, iupdate and iput acts on table and disk together like a plain map of inodes, in which only ialloc, a holder's store and the freeing of an inode change anything. |
| `InodeCopies.HolderSeesLatest` | kernel/fs.c:291-317 | In every run, whatever is looked up and however entries are recycled, whoever has an inode locked and loaded sees all of it as it was last stored: type, links, file and body. |
| `InodeCopies.DiskIsLatest` | kernel/fs.c:199-362 | What nobody has locked and loaded is on disk as it was last stored. |
| `Itable.LoadNeverPanics` | kernel/fs.c:291-317 | While lookups are of that kind, ilock never finds a disk inode without type. |
| `Itable.Progress` | kernel/fs.c:199-362 | While lookups are of that kind, with every reference its process can go on or waits for a sleep-lock that another has. |
| `Itable.StepsAdvance` | kernel/fs.c:291-362 | What that step achieves: ilock locks and loads, a changed inode is written back and then unlocked, and an iput that frees goes through its stages until the reference is gone. |
| `Itable.LookupPanics` | kernel/fs.c:291-317 | From any state in order, a lookup followed by ilock panics exactly if the inode on disk has no type. |
| `Itable.PanicReachable` | kernel/fs.c:652-684 | A run that reaches this panic: the number that the lookup finds, such as the ".." of a removed directory, was freed. |
| `Itable.OtherFileReachable` | kernel/fs.c:652-684 | A run in which the number is reused between such a lookup and the load, so that the holder sees another file. |
| `Itable.IputNeverBlocks` | kernel/fs.c:337-362 | The sleep-lock that iput takes to free an inode is free. |
| `Itable.OrphansArise` | kernel/fs.c:337-362 | An allocated inode without links is left in nobody's hands by exactly these steps: the last reference is dropped by an iput that had passed its test before the number was reused, or put while the copy was never loaded. |
| `Itable.OrphanStays` | kernel/fs.c:199-362 | A step leaves such an inode as it is exactly if it does not look up its number. |
| `Itable.OrphanForever` | kernel/fs.c:199-362 | So it stays allocated and in nobody's hands along every run whose lookups lead to inodes with a link. |
| `Itable.OrphanReachable` | kernel/fs.c:199-362 | A run with such lookups only, in which ialloc reuses a number while iput is still about to drop its count, leaves such an inode. |
| `Shell.ParseBack` | user/sh.c:345-447 | Inside any line, parsing what was printed gives the tree back and stops right behind it. |
| `Shell.RoundTrip` | user/sh.c:266-447 | For every command with valid words and at most nine arguments each, parsing its fully parenthesised form gives the command back and consumes the whole line. |
| `Shell.TokenIs` | user/sh.c:263-309 | gettoken said by characters: blanks are skipped; then the end of the line, an operator, of which only two greater-than signs make one token, or a word up to the next blank or operator; then blanks again. |
| `Shell.PeekIsNext` | user/sh.c:311-321 | peek said by characters. |
| `ShellGrammar.SentenceIsParsed` | user/sh.c:266-447 | With the grammar written down as trees, apart from the code: every line whose tokens are those of a sentence is parsed as what the sentence means, with the precedence and grouping of pipe, ampersand and semicolon and redirections in the order of the line, whatever the blanks. |
| `ShellGrammar.AcceptsExactly` | user/sh.c:328-447 | parsecmd accepts a line exactly if its tokens are those of a sentence in which no command has more than nine arguments; on every other line it panics. |
| `ShellGrammar.OneMeaning` | user/sh.c:266-447 | The grammar is unambiguous. |
| `ShellCode.Gettoken` | user/sh.c:266-309 | The loops and the switch of gettoken yield the token kind, its bounds and the next position, on every line. |
| `ShellCode.Peek` | user/sh.c:311-321 | Skips blanks and tells whether one of the characters follows. |
| `ShellCode.Parseredirs` | user/sh.c:375-398 | The loop yields the redirections in the order of the recursive definition, or panics on a missing file name. |
| `ShellCode.Arguments` | user/sh.c:427-443 | The loop of parseexec yields the command of the recursive definition, with the panics on a bad token and on the tenth argument. |
| `ShellCode.Parseexec` | user/sh.c:416-447 | parseexec on every line ends and yields the recursive definition. |
| `ShellCode.Parseblock` | user/sh.c:400-414 | The same for parseblock, with its two panics. |
| `ShellCode.Parsepipe` | user/sh.c:362-373 | The same for parsepipe. |
| `ShellCode.Parseline` | user/sh.c:345-360 | The same for parseline. |
| `ShellCode.LineGood` | user/sh.c:345-447 | Every string of a parsed command is a word of the line, complete on its right, and every command has fewer than MAXARGS arguments. |
| `ShellCode.Nulterminate` | user/sh.c:449-494 | NUL at the end of every string of the command, and no other byte changes. |
| `ShellCode.Untouched` | user/sh.c:449-494 | The NUL of one string is never inside another. |
| `ShellCode.Parsecmd` | user/sh.c:328-343 | Panics, leaving the line alone, or yields a command every string of which is exactly its token in the line now cut up. |
| `Kalloc.Memory.constructor` | kernel/kalloc.c:26-40 | Every page of the range is on the free list, once. |
| `Kalloc.Memory.Kfree` | kernel/kalloc.c:42-63 | The page is at the head of the list and no other page changes. |
| `Kalloc.Memory.Kalloc` | kernel/kalloc.c:65-82 | Null exactly when the list is empty; otherwise its first page leaves the list and is filled with junk. |
| `Kalloc.Memory.CountFreeMem` | kernel/kalloc.c:84-96 | The page size times the length of the free list. |
| `PageTable.AddMid` | kernel/vm.c:86-103 | A cleared page entered in the root makes the tree represent the map with one more middle table. |
| `PageTable.AddLow` | kernel/vm.c:86-103 | The same one level down. |
| `PageTable.AddLeaf` | kernel/vm.c:144-172 | Setting an entry of the lowest table makes the tree represent the map with that mapping. |
| `PageTable.RemoveLeaf` | kernel/vm.c:178-199 | Clearing it makes the tree represent the map without. |
| `Vm.Walk` | kernel/vm.c:86-103 | The lowest table for a page; with alloc, exactly the missing tables come off the free list and no mapping changes; null exactly when a table is missing without alloc, and with alloc exactly when there are fewer free pages than missing tables. |
| `Vm.Mappages` | kernel/vm.c:144-172 | The map gains exactly the range, exactly if the free pages suffice for the tables that it lacks; otherwise exactly the part before. |
| `Vm.Uvmunmap` | kernel/vm.c:174-199 | The map loses exactly the range, and with do_free exactly the frames behind it are freed, once each. |
| `Vm.UserBelowTrapframe` | kernel/proc.c:269-288 | Since every page of user memory owns a frame, user memory ends far below the trapframe. |
| `Vm.Uvmdealloc` | kernel/vm.c:258-274 | User memory ends at the new size, and exactly the frames in between are freed. |
| `Vm.Uvmalloc` | kernel/vm.c:230-256 | Succeeds exactly if the free pages suffice for the new pages and the tables that they lack; then the new pages are private, zeroed and mapped with the permissions; otherwise every mapping is as before and only tables were taken; frames are conserved either way. |
| `Vm.Uvmcopy` | kernel/vm.c:306-340 | Succeeds exactly if the free pages suffice for the pages and the tables that the child lacks; then the child has equal bytes and flags in private frames; otherwise the child has no mapping more than before; the parent keeps its mappings, frames and bytes, the two stay separate, and frames are conserved either way. |
| `Tables.NeedJoin` | kernel/vm.c:86-103 | The tables that a range of pages lacks are those that its front lacks and those that its rest lacks then. |
| `Tables.NeedFromTop` | kernel/vm.c:86-103 | A page table that maps only trampoline and trapframe lacks one table for every 512 pages of user memory and one for every 512 of those. |
| `VmFree.Freewalk` | kernel/vm.c:277-294 | Every table of the tree is freed exactly once; the panic on a leaf is excluded by the absence of mappings. |
| `VmFree.Uvmfree` | kernel/vm.c:296-304 | Exactly the frames of user memory and of the tables are freed. |
| `VmFree.FreePagetable` | kernel/proc.c:220-228 | The same for a process, whose trampoline and trapframe are unmapped and not freed. |
| `VmFree.CountAfterFree` | kernel/kalloc.c:84-96 | The free list is longer by exactly the number of distinct frames freed, so count_freemmem is conserved. |
| `VmFree.Growproc` | kernel/proc.c:266-288 | The new size, or -1 with all mappings as before, exactly if it grows and the free pages do not suffice for pages and tables; new pages are zeroed and private, pages that stay keep their frames and bytes; a shrink by more than the size wraps and is ignored, leaving everything as it was; user memory stays below the trapframe. |
| `VmProc.Uvmcreate` | kernel/vm.c:201-212 | A page table without mappings in a page off the free list, or null exactly when memory is out. |
| `VmProc.ProcPagetable` | kernel/proc.c:185-218 | A page table that maps exactly trampoline and trapframe, in three pages off the free list, exactly if there are three; otherwise every page is back. The clean-up after a failing second mapping is never reached. |
| `VmProc.Grow` | kernel/vm.c:230-256 | User memory of a new process grows to the size exactly if the free pages suffice and stays empty otherwise, and the pages it owns are those that left the free list. |
| `VmProc.Fork` | kernel/proc.c:293-342 | Succeeds exactly if there are free pages for three tables, the pages and their tables; then the child has equal bytes and flags in pages of its own; otherwise every page is back; the parent is unchanged. |
| `VmProc.FreeProc` | kernel/proc.c:220-228 | Exactly the pages that the process owns return to the free list, once each. |
| `VmProc.Life` | kernel/kalloc.c:84-96 | Creating a process, growing it, forking it and freeing both leaves the count of free memory as it was, wherever memory runs out. |
| `Links.Dirlookup` | kernel/fs.c:550-575 | The first entry in use with the name, or none. |
| `Links.Dirlink` | kernel/fs.c:578-606 | The entry goes to an empty slot or to the end, and no other entry changes. |
| `Links.Isdirempty` | kernel/sysfile.c:172-186 | Whether nothing but the first two entries is in use. |
| `Links.StepKeepsInv` | kernel/sysfile.c:123-302 | Steps of create, link and unlink, also those that fail, keep: every count is the number of entries other than "." that name the inode in linked directories, plus links in flight; and every linked directory but the root has exactly one name beside the dots, in the directory that its ".." leads to. |
| `Links.StepExact` | kernel/sysfile.c:123-302 | From any state in order, a step keeps this exactly when the directory that takes a new name is still linked and no count it raises is at 32767. |
| `Links.RunExact` | kernel/sysfile.c:123-302 | Along a whole run it holds throughout exactly when every step is of that kind. |
| `Links.FormattedInv` | mkfs/mkfs.c:117-170 | The directory tree that mkfs makes is in order. |
| `Links.FromMkfs` | kernel/sysfile.c:123-302 | From the mkfs image, over every sequence of create, link and unlink. |
| `Links.StepRanked` | kernel/sysfile.c:123-302 | Every such step keeps the parents of the linked directories without cycle. |
| `Links.AllReachable` | kernel/sysfile.c:123-302 | After every run of such steps from the mkfs image, each directory that is still linked can be reached from the root by names: there are no cycles and no islands. |
| `Links.UnlinkNeverPanics` | kernel/sysfile.c:215-216 | unlink never finds a count below 1. |
| `Links.OneName` | kernel/sysfile.c:188-243 | An empty directory has exactly one name, the entry that unlink erases, and count 1. |
| `Links.NamedIsAllocated` | kernel/sysfile.c:123-302 | What a linked directory names is allocated, has a count, and cannot be released. |
| `Links.UnsoundReachable` | kernel/sysfile.c:245-302 | A run that leaves this condition: a file is created in a directory already removed. |
| `Links.StaleParentReachable` | kernel/sysfile.c:188-243 | After a run that keeps the counts exact a removed directory is still allocated and its ".." names an inode that is free. |
| `Namespace.StepNames` | kernel/sysfile.c:123-302 | With every directory as a map from names to inodes, whatever slots they are in: create and link enter one name in one directory, a new directory has its two dots, unlink removes one name, a failed create leaves none, and no other name of any directory changes; names stay unique. |
| `Namespace.StepKinds` | kernel/sysfile.c:123-302 | create gives an inode its kind, release takes it away, and nothing else changes a kind. |
| `Namespace.RunUnique` | kernel/sysfile.c:123-302 | Along every run no directory has a name twice. |
| `Namespace.FormattedUnique` | mkfs/mkfs.c:117-170 | Nor in the image that mkfs makes of files with different names. |
| `Namespace.CreateFinds` | kernel/sysfile.c:245-302 | After create the name leads to the new inode. |
| `Namespace.UnlinkSpares` | kernel/sysfile.c:188-243 | After unlink every path that does not go through the removed entry leads where it led. |

## Left out

- FileSys.FileSystem.Writei: not stated for copies from user memory that fail; the buffer may then have changed without being logged.
- FileSys.FileSystem.Balloc: the bitmap is a sequence of bits; packing eight of them into a byte, and inodes into blocks, is not modelled.
- FileSys.FileSystem.Iupdate: one copy of each inode is kept, so only the logging is left; the two copies are in `Itable`.
- FileSys: operations on files run one after another; blocks of an operation that another one interrupts are not modelled.
- Links.StepKeepsInv: create, link and unlink are steps on values, not updates in place; a directory is a list of entries, not bytes of a file.
- Links.UnsoundReachable: that the working directory keeps a removed directory alive is not modelled; the step is allowed while its inode exists.
- Itable.StepKeepsInv: the table is a value and each critical section a step; device numbers and iupdate's block are left out. A lookup may lead to any number; which directory the number was read from is not in the state, so that lookups through linked directories lead to linked inodes is joined from `Links.NamedIsAllocated` by the reader.
- WaitExit.StepKeepsInv: closing files and the working directory in exit, and copying them in fork, are left out; so are the address spaces, which are in `VmProc`.
- Itable.PanicReachable: its run has one inode and one table entry; how a stale number comes to be looked up is `Links.StaleParentReachable`.
- Bio.BCache.Bget: waiting for a buffer that another process has locked is not modelled, so its block must not be locked.
- Bio.BCache.Bread: the same.
- Bio.BCache.Bunpin: the last reference is dropped only from a buffer that is unlocked and unchanged, as install_trans does.
- Bio.BCache.Brelse: a buffer with unwritten changes must be pinned, which is the discipline that log_write asks for.
- Mkfs.Image.Iappend: files that are too large or do not fit on the disk are excluded; mkfs stops on the first with an assertion.
- MkfsMain.Build: room is counted as two blocks for every append, which is more than is used; files that do not fit are excluded.

- UMalloc.Heap.Malloc: called on a heap whose listed units sbrk has given; after a request that listed more, later calls are not described, since stores to memory that was not given may fault.
- Virtio.Disk.Complete: a device that reports an error is not modelled.
- Virtio.Disk.Acknowledge: the status is 0 because the device never reports an error.
- Virtio.Disk.Intr: requests that the device posts while the handler runs are left for the next interrupt.
- Virtio.Disk.Start: waiting for descriptors is answered by false, and the caller starts again; memory fences are left out.
- Vm.Mappages: remapping a page and mapping nothing are panics, and here preconditions.
- SleepWakeup: interrupt nesting (push_off, pop_off) and the identity of CPUs.
- Namespace.UnlinkSpares: a path is a list of names; splitting a string at slashes (skipelem) is left out.
- The open-file table's reference counts: they would add only easy members.
- The shell's executor (runcmd), command input and built-in cd.
- UART, PLIC, traps, assembly, ELF loading, argument fetching, the trace and sysinfo calls beyond the count of free memory.
- Starvation: nothing is proved about fairness of the scheduler or of spin-locks.
