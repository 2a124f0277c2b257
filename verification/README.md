# Verification of xv6

A model of the core of the xv6 teaching kernel for RISC-V and of three of its user programs,
in Dafny, with proofs about it. `dafny verify dfyconfig.toml` checks everything.

| file | what it models |
|---|---|
| `Log.dfy`, `LogDriver.dfy` | the write-ahead log as a transition system with crashes between any two block writes, and the code of kernel/log.c as steps of it |
| `BufferCache.dfy` | the buffer cache over the disk: the linked list, reference counts, pins |
| `CachedLog.dfy` | the log over the cache: both together, interleaved and with crashes |
| `FileBlocks.dfy`, `FileData.dfy` | the free bitmap, direct and indirect block maps, file contents, filewrite |
| `InodeTable.dfy` | the lifetimes of in-memory inodes, interleaved, and who frees them |
| `Runs.dfy`, `Common.dfy` | runs of a transition system and induction over them; shared datatypes |
| `Scheduler.dfy` | scheduler, sched and the hand-off of process locks over any number of CPUs |
| `SleepLock.dfy` | sleep locks over sleep and wakeup |
| `ExitWait.dfy` | fork, exit and wait |
| `PageTable.dfy`, `UserMemory.dfy`, `CopyUser.dfy`, `ProcTable.dfy` | Sv39 page tables, the page allocator, user memory |
| `Virtio.dfy` | the descriptor protocol between the disk driver and the device |
| `Malloc.dfy` | the user-level allocator |
| `ShellGrammar.dfy`, `ShellScript.dfy`, `Shell.dfy` | the shell's parser, and the language it accepts |
| `Grep.dfy` | the pattern matcher and the line loop of grep |

Code that changes state in place is a class or a method with loops, proved against a
specification on values. Code that runs concurrently is a transition system, or a class
each of whose methods is one critical section, and its theorems hold for every sequence of
steps. A panic is a precondition that callers are proved to meet, a result that says so, or
a state proved unreachable.

Assumptions. A spinlock is atomic, and memory is sequentially consistent. A block write is
atomic. Clients of the log change a buffer only inside an operation and log it before
releasing it. For balloc, bfree, bmap, itrunc, iupdate, ialloc, writei and filewrite
`FileBlocks.dfy` and `FileData.dfy` prove the second part, with one exception that `Log.dfy`
and `CachedLog.dfy` do not cover: writei, when its copy from the caller fails, releases a
changed buffer unlogged (kernel/fs.c:545-548); `FileData.dfy` says which block that is, and
what it does to the file. A process's size is
at most TRAPFRAME, which lazy growth by sbrk does not check (kernel/sysproc.c:58-60). File
system images start out well formed. Choices made outside the model are parameters: how much
a read returns, whether sbrk or copyout succeeds, which process a step belongs to.

## Model

| member | source | states |
|---|---|---|
| `Log.CrashAtomicity` | kernel/log.c:66-236 | for every interleaving of operations, commits, crashes and interrupted recoveries, recovering the disk of any state gives exactly the effect of a prefix of what clients did, in which every operation that began has ended |
| `Log.PromisesKept` | kernel/log.c:194-204 | whatever a state has promised every later state of the run still promises: a group whose header was written is never undone, not by crashes and not by recovery |
| `Log.HeaderWriteCommits` | kernel/log.c:100-115 | the header write is the commit point: right after it, everything clients had done is promised, and that is what memory holds |
| `Log.RecoveryIdempotent` | kernel/log.c:117-124 | recovering a recovered disk changes no home block |
| `Log.RecoverRestores` | kernel/log.c:66-84 | installing the logged blocks and clearing the header restores the promised contents of every home block |
| `Log.QuietIsDurable` | kernel/log.c:147-204 | in every run, whenever no operation is open and no commit is under way, a crash would lose nothing: recovery gives the effect of everything clients have done, which is what memory holds |
| `Log.StepKeepsGood` | kernel/log.c:127-236 | every enabled step of a client, of commit or of recovery, and a crash at any point, keeps the invariant |
| `Log.RunStaysGood` | kernel/log.c:127-236 | the invariant holds in every state of every run |
| `Log.CopyStep` | kernel/log.c:178-192 | a step of write_log disturbs nothing that a crash would have to restore |
| `Log.CommitPoint` | kernel/log.c:194-204 | at the header write the log holds memory's value of every listed block, so the promise becomes everything done so far |
| `Log.InstallStep` | kernel/log.c:66-84 | a step of install_trans, which copies a log block into the home block's buffer and writes that, leaves log and home blocks such that a crash restores the same promise; after a commit no buffer changes its contents |
| `Log.InstallFinds` | kernel/log.c:74-78 | when install_trans comes to a block after a commit, its buffer already holds what the log block holds |
| `Log.ClearStep` | kernel/log.c:194-204 | clearing the header once all is installed keeps the promise |
| `Log.CrashStep` | kernel/log.c:117-124 | a crash at any point, also inside recovery, leaves a state from which recovery restores the promise |
| `Log.EndStep` | kernel/log.c:147-176 | ending the last operation starts a commit in which every changed block is listed |
| `Log.NotFull` | kernel/log.c:215-236 | an operation that has added fewer than MAXOPBLOCKS blocks meets neither panic of log_write |
| `Log.ShareSuffices` | kernel/log.c:215-236 | in every run, an operation that has given fewer than MAXOPBLOCKS distinct blocks to log_write meets neither of its panics, whatever the others have logged and although the test comes before absorption |
| `Log.AddedAtMost` | kernel/log.c:225-234 | in every run, an operation has added at most as many blocks as it has logged distinct ones, all of them still listed |
| `Log.SpaceKept` | kernel/log.c:127-143 | begin_op's admission test keeps enough room in the log for all operations in progress |
| `Log.TurnedAway` | kernel/log.c:127-143 | begin_op lets an operation in exactly if the listed blocks and ten for each open operation leave ten more of the thirty; with an empty list it lets in three at a time and no fourth |
| `Log.HeaderRoundTrip` | kernel/log.c:86-115 | read_head reads back the block list that write_head wrote, whatever words lie behind it |
| `LogDriver.FillHeader` | kernel/log.c:103-115 | write_head's loop produces the encoded header and leaves the words behind it |
| `LogDriver.ScanHeader` | kernel/log.c:87-98 | read_head's loop produces the decoded list |
| `LogDriver.FsLog.CopyLoop` | kernel/log.c:178-192 | each block write of write_log is one step of the run; the loop ends ready for the header write |
| `LogDriver.FsLog.HeadBlock` | kernel/log.c:100-115 | write_head is one step of the run, the commit point or the clearing |
| `LogDriver.FsLog.InstallLoop` | kernel/log.c:66-84 | install_trans, in a commit and in recovery: each block write is one step of the run, and a commit leaves memory as it was |
| `LogDriver.FsLog.Commit` | kernel/log.c:194-204 | a commit ends with an empty list and, if anything was logged, with everything done so far promised |
| `LogDriver.FsLog.BeginOp` | kernel/log.c:127-143 | succeeds exactly if no commit is under way and the listed blocks, MAXOPBLOCKS for each open operation and MAXOPBLOCKS for this one fit into LOGBLOCKS; then one more operation is open, otherwise nothing changes |
| `LogDriver.FsLog.EndOp` | kernel/log.c:147-176 | the last operation to end commits the group; after it all operations so far are durable |
| `LogDriver.FsLog.LogWrite` | kernel/log.c:215-236 | lists a block once however often it is logged; both panics are unreachable |
| `LogDriver.FsLog.LoadHeader` | kernel/log.c:86-98 | the list in memory is the one on disk |
| `LogDriver.FsLog.RecoverFromLog` | kernel/log.c:117-124 | from the state a crash leaves, memory and home blocks end up as the effect of everything promised, and the log is empty |
| `LogDriver.FsLog.Survives` | kernel/log.c:66-236 | whatever this code has done since the first boot: had the machine stopped after any of its block writes, recovery would restore exactly the effect of a prefix of the record in which every operation that began has ended |
| `LogDriver.FsLog.constructor` | kernel/log.c:53-63 | the first boot from a formatted disk gives a valid log, about to recover |
| `LogDriver.FsLog.Reboot` | kernel/log.c:53-63 | a crash at any time and the next boot: the disk is as it was, the record is what was promised, and the log is about to recover |
| `BufferCache.Cache.constructor` | kernel/bio.c:36-53 | binit builds a circular doubly linked list of all buffers, each once |
| `BufferCache.Unlink` | kernel/bio.c:128-129 | taking a buffer out through its two neighbours leaves a circle of the others in the same order |
| `BufferCache.Insert` | kernel/bio.c:130-133 | inserting a buffer behind the head gives a circle with it in front |
| `BufferCache.Cache.BGet` | kernel/bio.c:58-89 | finds the one buffer that has the block or recycles the least recently used unused one, and nothing else changes; it fails only if the block is not cached and every buffer is in use |
| `BufferCache.Cache.Evict` | kernel/bio.c:76-88 | the backward scan stops at the unused buffer with only used ones behind it |
| `BufferCache.HitSound` | kernel/bio.c:65-74 | another reference to a cached block keeps the cache sound |
| `BufferCache.RecycleSound` | kernel/bio.c:76-88 | recycling an unused buffer loses nothing: its contents are on the disk, it is not pinned, and nobody relies on its block |
| `BufferCache.Unused` | kernel/bio.c:76-80 | a buffer with refcnt 0 is unpinned, unlocked, unreferenced, and equal to the disk |
| `BufferCache.Cache.Acquire` | kernel/bio.c:70-71 | a referenced buffer still has the block it was asked for when its lock is obtained |
| `BufferCache.Cache.Fill` | kernel/bio.c:92-103 | bread returns the latest value of the block, from the cache or from the disk |
| `BufferCache.Cache.BRead` | kernel/bio.c:92-103 | bread up to where it may sleep: the latest value in a buffer locked for the caller and nothing else changed; or the block is locked by somebody else and the reference is counted; or no buffer is left |
| `BufferCache.Cache.BWrite` | kernel/bio.c:105-112 | only the disk copy of that block changes |
| `BufferCache.Cache.Release` | kernel/bio.c:116-122 | a buffer may be unlocked when its contents are pinned for the log or on the disk; no later eviction can then lose them |
| `BufferCache.Cache.Drop` | kernel/bio.c:123-136 | one reference less; a buffer no longer used moves to the front of the same permutation, others keep their order: it is taken out of its place and put in front |
| `BufferCache.Cache.LogWrite` | kernel/log.c:215-236 | a block already in the header changes nothing; a new one is added and its buffer pinned once |
| `BufferCache.PinSound` | kernel/bio.c:139-144 | pinning for the log keeps counts exact, and the buffer was not pinned before |
| `BufferCache.Cache.BUnpin` | kernel/bio.c:146-151 | the next block of the header is in a pinned buffer, which is unpinned once it is on the disk |
| `BufferCache.Cache.InstallAll` | kernel/log.c:66-84 | after write_log every listed block is found in its pinned buffer, gets from the log what it holds already, is written home and unpinned once; then nothing is pinned, and no other disk block and no latest value has changed |
| `BufferCache.Cache.InstallOne` | kernel/log.c:71-83 | one turn of install_trans, through the buffers of the log block and of the home block: only the home block's disk copy changes, to its latest value |
| `BufferCache.Cache.CopyOne` | kernel/log.c:184-191 | one turn of write_log, through the buffers of the listed block and of the log block: the log block, in cache and on disk, gets the latest value of the listed block, which stays pinned |
| `BufferCache.Cache.CopyAll` | kernel/log.c:178-192 | write_log puts the latest value of every listed block into its log block and changes nothing outside the log |
| `BufferCache.Cache.Commit` | kernel/log.c:194-204 | the copies of a commit: all listed blocks end up on the disk with their latest values, nothing is pinned, and no home block's value has changed |
| `BufferCache.ClearSound` | kernel/log.c:194-204 | when all is installed nothing is pinned any more |
| `CachedLog.CachedCrashAtomicity` | kernel/log.c:66-236 | the cached file system: in every interleaving of processes using buffers with commits, recoveries and crashes, recovering the disk below the cache gives exactly the effect of a prefix of what clients did, in which every operation that began has ended |
| `CachedLog.HolderSeesAll` | kernel/bio.c:92-136 | in every such run, after recovery, whoever has a home block's buffer locked and filled sees the effect of everything clients have done so far, whatever was evicted and read again |
| `CachedLog.PromisesKept` | kernel/log.c:194-204 | in every such run, what was once promised to survive is promised ever after |
| `CachedLog.StepKeeps` | kernel/log.c:66-236 | every step on a buffer, memmove, bwrite, pin and crash keeps cache, disk and log in agreement |
| `CachedLog.StepRefines` | kernel/log.c:66-236 | every step of the cached system is a step of the log or leaves the log where it is |
| `CachedLog.StageKeeps` | kernel/log.c:66-192 | the memmoves of write_log, write_head and install_trans put into the buffer what the log's next block write is to write |
| `CachedLog.FlushKeeps` | kernel/log.c:66-192 | their bwrites are that block write |
| `CachedLog.UnpinKeeps` | kernel/log.c:78-80 | when install_trans unpins a buffer, its contents are on the disk |
| `CachedLog.UseKeeps` | kernel/bio.c:58-136 | bget, bread and brelse, evictions included, change nothing that the log relies on |
| `CachedLog.LoadHeadKeeps` | kernel/log.c:86-98 | read_head finds in the buffer the list that the log goes on with |
| `Scheduler.NeverOnTwoCpus` | kernel/proc.c:421-498 | in every interleaving at most one CPU is on a process's kernel stack or switching to it |
| `Scheduler.RunnableIsSaved` | kernel/proc.c:421-498 | in every interleaving a RUNNABLE process whose lock is free has its registers saved and no CPU on its stack |
| `Scheduler.ResumesSaved` | kernel/proc.c:438-446 | in every interleaving swtch resumes a context that is fully saved |
| `Scheduler.MyProc` | kernel/proc.c:469-487 | in every interleaving myproc is the process on whose stack the CPU is, and sched finds its lock held and its state changed |
| `Scheduler.StepKeeps` | kernel/proc.c:421-584 | every step of scheduler, yield, sleep, exit, forkret, wakeup, kill, fork and wait keeps the invariant, also a wakeup by an interrupt handler while no process is running |
| `Scheduler.Running` | kernel/proc.c:570-608 | no step by one CPU changes the state or saved registers of a process that another CPU is running |
| `Scheduler.TargetLock` | kernel/proc.c:421-584 | whoever changes a process holds that process's lock or takes it |
| `Scheduler.StatesAndLocks` | kernel/proc.c:421-608 | a process changes its state only along the state diagram, only under its own lock, and to the state asked for; a CPU has at most the one process lock that it took last |
| `Scheduler.NextStage` | kernel/proc.c:438-498 | a RUNNABLE process that was chosen is made RUNNING and resumed; it runs until it sets its own state, and keeps that state until its registers are saved and the scheduler has let go of it |
| `Scheduler.WholeTurn` | kernel/proc.c:421-498 | in every run, a CPU that has chosen a RUNNABLE process is back in the loop only after that process has run on it and has its registers saved |
| `SleepLock.MutualExclusion` | kernel/sleeplock.c:21-41 | in every interleaving at most one process holds the sleep lock |
| `SleepLock.NoLostWakeup` | kernel/sleeplock.c:21-41 | in every interleaving, while the inner spinlock is free, a process asleep on the lock, or committed to sleep, implies that some process holds the lock |
| `SleepLock.WakeupMissesNobody` | kernel/proc.c:570-584 | the wakeup loop of a release leaves no committed sleeper among the processes it has passed |
| `SleepLock.HoldingSleep` | kernel/sleeplock.c:43-52 | in every interleaving holdingsleep is true for exactly the holder |
| `SleepLock.StepKeeps` | kernel/proc.c:539-584 | every step of acquiresleep, releasesleep, sleep, wakeup, the scheduler and kill keeps the invariant; where a step leads is NextStage and StepsRunOut |
| `SleepLock.NextStage` | kernel/sleeplock.c:21-41 | whoever wants the lock goes on wanting it, however often it sleeps and is woken, until it finds the lock free and takes it; then it owns it, then it is in releasesleep, opens the lock, and is out when wakeup is through |
| `SleepLock.OutOnlyAsOwner` | kernel/sleeplock.c:21-31 | in every run, whoever has called acquiresleep is not back outside before it has owned the lock |
| `SleepLock.OutOnlyAfterOpening` | kernel/sleeplock.c:33-41 | in every run, whoever has called releasesleep is not back outside before it has opened the lock, nor before the end of the wakeup loop |
| `SleepLock.StageByStage` | kernel/sleeplock.c:21-41 | in every run no stage of this way is skipped |
| `SleepLock.WakeupInOrder` | kernel/proc.c:570-584 | wakeup goes from each process to the next, and ends only after the last |
| `SleepLock.StepsRunOut` | kernel/sleeplock.c:21-41 | every step inside acquiresleep and releasesleep brings its process nearer to owning the lock, to being asleep, or to being out: at most seven of its steps, and at most 2n + 4 in releasesleep among n processes |
| `SleepLock.OthersSleepOn` | kernel/proc.c:570-584 | a process asleep is woken by others exactly if wakeup comes to it and it sleeps on this lock |
| `ExitWait.ParentsAlive` | kernel/proc.c:256-412 | in every interleaving every process but init that can run or is a zombie has a parent that is neither unused nor a zombie |
| `ExitWait.NobodySleepsOnZombie` | kernel/proc.c:323-412 | in every interleaving, while wait_lock is free no process asleep in kwait, or committed to sleep there, has a zombie child, although kexit calls wakeup before it sets ZOMBIE |
| `ExitWait.ReapIsSafe` | kernel/proc.c:380-398 | what kwait frees has left its CPU for good and has no children |
| `ExitWait.FreedOnce` | kernel/proc.c:388-398 | a zombie stays one until a step of its parent's kwait makes it unused, and no other step does |
| `ExitWait.StepKeeps` | kernel/proc.c:256-412 | every step of kfork, kexit, reparent, kwait, sleep, wakeup and the scheduler keeps the invariant |
| `ExitWait.SelfExit` | kernel/proc.c:305-318 | reparent leaves behind no child that it has passed |
| `ExitWait.SelfWait` | kernel/proc.c:377-411 | kwait goes to sleep only after it has seen that no child is a zombie; that it counts its children right is KidsCounted |
| `ExitWait.KidsCounted` | kernel/proc.c:377-402 | in every run, at any point of its scan havekids is set exactly if some process already seen is a child |
| `ExitWait.WaitAnswers` | kernel/proc.c:366-412 | in every run, whoever is in kwait leaves it only by finding a zombie child, which is freed unless the copyout fails, or at the end of a scan if it was killed or has no children at all at that moment |
| `ExitWait.WaitSleeps` | kernel/proc.c:404-411 | in every run, the end of a scan leads to sleep exactly if the caller has a child and was not killed |
| `ExitWait.ParentsKept` | kernel/proc.c:366-402 | while a process has wait_lock nobody else changes whose child any process is |
| `ExitWait.ForkAnswers` | kernel/proc.c:256-303 | in every run, kfork ends with the new process unused again, or RUNNABLE with the caller as its parent |
| `ExitWait.ExitEnds` | kernel/proc.c:323-364 | in every run, kexit never returns: its caller gets on with it, and is freed only as a zombie that has left its CPU |
| `ExitWait.StepsRunOut` | kernel/proc.c:256-412 | every step inside kfork, kexit and kwait brings its process nearer to the end of the call or to sleep, within a bound that depends on the number of processes alone |
| `ExitWait.StepsBegin` | kernel/proc.c:256-412 | the other steps begin or resume such a call, or only change the state of their process |
| `ExitWait.OthersSleepOn` | kernel/proc.c:570-584 | no process is woken by an exit but one that sleeps on init or on the parent of the exiting process |
| `ExitWait.SelfRouse` | kernel/proc.c:347-353 | a wakeup passes the process it is looking for only by waking it |
| `PageTable.PteRoundTrip` | kernel/riscv.h:384-394 | an address survives the trip through an entry exactly when it is page aligned; flags always do |
| `PageTable.PteOfPage` | kernel/vm.c:161-168 | the word that mappages writes for a page and permissions stands for the decoded entry that this model writes |
| `PageTable.PteClearUser` | kernel/vm.c:329-337 | a word that stands for an entry stands, with PTE_U cleared, for that entry without the user bit |
| `PageTable.Machine.constructor` | kernel/kalloc.c:26-40 | after freerange every page is free, once |
| `PageTable.Machine.Kalloc` | kernel/kalloc.c:68-82 | takes the head of the free list, a page with no other use; fails only on an empty list |
| `PageTable.Machine.Kfree` | kernel/kalloc.c:46-63 | a page that was in use becomes free; the list keeps exactly the free pages |
| `PageTable.Machine.Walk` | kernel/vm.c:97-115 | finds the last-level table for the page, building missing ones of free pages; success or not, the flat map is unchanged |
| `PageTable.AddNode` | kernel/vm.c:104-112 | linking an empty table keeps the tree well formed and the flat map as it was |
| `PageTable.SetEntry` | kernel/vm.c:167-167 | writing one last-level entry changes the flat map there and nowhere else |
| `PageTable.Machine.MapPages` | kernel/vm.c:145-174 | maps exactly the named pages to consecutive physical pages; when memory runs out a prefix is mapped and reported |
| `PageTable.Machine.UnmapOne` | kernel/vm.c:201-211 | one mapping goes, if there was one, and its page goes to the free list or to the caller |
| `PageTable.Machine.Unmap` | kernel/vm.c:192-212 | exactly the named mappings go, and exactly their pages change hands; missing mappings are skipped |
| `PageTable.Machine.AllocMap` | kernel/vm.c:227-237 | the page is mapped with the given contents, or every page and mapping is as before; nothing leaks |
| `PageTable.Machine.FreeWalk` | kernel/vm.c:262-278 | with all leaves gone, every table page of the subtree is freed, once, and the panic on a leaf is not reached |
| `UserMemory.UvmFree` | kernel/vm.c:280-288 | all pages and tables of the address space are free afterwards, nothing else has changed |
| `UserMemory.UvmDealloc` | kernel/vm.c:246-258 | exactly the pages between the two sizes go, and go to the free list; nothing stays mapped beyond the new size |
| `UserMemory.UvmAlloc` | kernel/vm.c:216-240 | success maps the new range to fresh zeroed pages; failure leaves the flat map and every page in use as before; nothing gets mapped beyond the resulting size |
| `UserMemory.WithinGrown` | kernel/vm.c:216-240 | growing keeps what uvmfree relies on: beyond the size nothing is mapped but the kernel's two pages |
| `UserMemory.WithinShrunk` | kernel/vm.c:246-258 | so does shrinking |
| `UserMemory.ExtendedUndone` | kernel/vm.c:229-237 | undoing a partial growth leaves nothing behind but tables |
| `UserMemory.UvmCopy` | kernel/vm.c:296-324 | the child maps the same pages with the same flags and bytes, on pages that were free, and nothing beyond; on failure no page of its range is mapped |
| `UserMemory.UvmClear` | kernel/vm.c:328-337 | the page loses the user bit; every other entry and page is as before |
| `UserMemory.TreeWithout` | kernel/vm.c:262-278 | without one root's tables the rest is still a well-formed forest with the same mappings |
| `CopyUser.VmFault` | kernel/vm.c:452-473 | maps one fresh zeroed page below the size, or nothing; no byte of user memory changes |
| `CopyUser.ExtendedBytes` | kernel/vm.c:452-473 | a page faulted in reads as zero, which is what it read before |
| `CopyUser.WalkAddr` | kernel/vm.c:120-138 | succeeds exactly on mapped user pages and names their physical page |
| `CopyUser.CopyOut` | kernel/vm.c:342-375 | user memory changes in exactly the bytes copied, all of them on success; if it stops, the next page is not writable by the user or cannot be had |
| `CopyUser.CopyIn` | kernel/vm.c:380-403 | returns the bytes of the flat user memory, unmapped pages as zero, and changes none; if it stops, the next page is not readable or cannot be had |
| `CopyUser.WithinKept` | kernel/vm.c:342-473 | faulting pages in, as copyout, copyin and vmfault do, maps nothing beyond the size |
| `CopyUser.OutThenIn` | kernel/vm.c:342-403 | after a copyout that succeeds, copyin of the same range succeeds and returns the same bytes, whatever the alignment |
| `CopyUser.CopiedBytes` | kernel/vm.c:296-324 | after uvmcopy the child's flat memory reads as the parent's did |
| `ProcTable.UvmCreate` | kernel/vm.c:176-187 | an empty table on a page that was free; every other address space is as before |
| `ProcTable.ProcPagetable` | kernel/proc.c:174-206 | success maps the trampoline and the trapframe and nothing for the user; every failure path gives back every page |
| `ProcTable.BootstrapPrivate` | kernel/proc.c:186-202 | in a new table the user can reach neither the trampoline nor the trapframe, as copyin and copyout assume, and nothing else is mapped |
| `ProcTable.CreateDestroy` | kernel/proc.c:174-216 | building a table and freeing it restores every page's use |
| `ProcTable.ProcFreePagetable` | kernel/proc.c:208-216 | with nothing mapped beyond the size, the whole table and its user pages are free; the trapframe's page stays with its holder |
| `FileBlocks.Fs.BAlloc` | kernel/fs.c:66-89 | marks and zeroes the first free block, or finds every block in use; never block 0; every block in which the disk differs afterwards is logged |
| `FileBlocks.Fs.BFree` | kernel/fs.c:92-106 | clears that block's bit and no other; every block in which the disk differs afterwards is logged |
| `FileBlocks.Fs.BMap` | kernel/fs.c:405-444 | returns the block of the slot, giving it a fresh zeroed one if need be; no other slot, no byte of any file changes, and the bitmap stays exact, also when space runs out midway; names what it may log; every block in which the disk differs afterwards is logged |
| `FileBlocks.Fs.ITrunc` | kernel/fs.c:446-476 | exactly the blocks of the inode become free, none twice; other files keep every byte; every block in which the disk differs afterwards is logged |
| `FileBlocks.Fs.FreeInode` | kernel/fs.c:342-359 | the freeing branch of iput leaves a free inode without blocks, on disk too, and an exact bitmap; every block in which the disk differs afterwards is logged |
| `FileBlocks.Fs.IAlloc` | kernel/fs.c:199-220 | the first free inode becomes an empty one of the given kind; the bitmap stays exact; its block is logged, and no other differs |
| `FileBlocks.Fs.IUpdate` | kernel/fs.c:226-242 | the disk copy of the inode is the one in memory, which restores the invariant after a change of kind; every block in which the disk differs afterwards is logged |
| `FileBlocks.Fs.LogsMore` | kernel/fs.c:66-476 | if every change of a first step is in one set of blocks and every change of a second in a larger one, that has the changes of both: how the claims about logging add up |
| `FileBlocks.Fs.BitLogs` | kernel/fs.c:76-82 | setting or clearing one block's bit changes no block of the disk but its bitmap block |
| `FileBlocks.ExactUse` | kernel/fs.c:66-106 | a block that is not metadata is marked exactly when it is in a slot of an allocated inode, and it is in one slot only |
| `FileBlocks.Gained` | kernel/fs.c:410-438 | a free zeroed block in an empty slot keeps the bitmap exact, every block in place and every file's bytes |
| `FileBlocks.TruncatedExact` | kernel/fs.c:446-476 | truncation keeps the bitmap exact; the other files read as before and the truncated one as empty |
| `FileBlocks.SetBitOnly` | kernel/fs.c:76-78 | setting a bit through its byte and mask changes that bit only |
| `FileBlocks.ClearBitOnly` | kernel/fs.c:99-103 | clearing a bit through its byte and mask changes that bit only |
| `FileData.ReadI` | kernel/fs.c:494-519 | returns the slice of the file, cut at its size, and allocates nothing; if the caller's buffer cannot take all of it, the result is -1 and the bytes before were delivered; unless that happens it delivers n bytes or reaches the end of the file |
| `FileData.WriteI` | kernel/fs.c:528-562 | replaces bytes of this file only, from the offset on, grows the size to cover those it reports, keeps every block below the size mapped; it is cut short only by a full disk or by a failed copy, and then at the last block boundary before the failure; for every call the file afterwards is the old one with exactly the reported bytes replaced if and only if the bytes between that boundary and the failing one, where the file had any, are what it held already; for three blocks' worth of bytes every log_write is made with fewer than MAXOPBLOCKS distinct blocks logged; it is refused exactly if it starts past the end or would end past the largest file; every block in which the disk differs afterwards is logged, but for the one in which a failed copy stopped |
| `FileData.WriteLoop` | kernel/fs.c:538-552 | each turn adds its bytes; a failed copy stops it at the last block boundary before the failure, a full disk no later; the blocks logged stay within two per block touched, one less when the write starts inside a block; every block changed is logged, but for the one in which a failed copy stopped |
| `FileData.WriteChunk` | kernel/fs.c:538-551 | one turn: the chunk, or as much of it as could be copied, is in place, or the disk is full and no file has changed; every data, indirect and bitmap block that differs afterwards is logged, and the data block too unless the copy failed |
| `FileData.WroteContents` | kernel/fs.c:521-562 | on files as byte sequences a write is a splice, and every other file is unchanged |
| `FileData.LandedContents` | kernel/fs.c:545-562 | if d has been written and n bytes of it are reported, the file is the one with those n spliced in exactly if the rest of d is what it held before |
| `FileData.WriteExact` | kernel/fs.c:545-562 | from how writei's loop ended to the condition on its arguments: the boundary, the failing byte and the old contents decide whether more than what is reported has changed |
| `FileData.UnreportedByte` | kernel/fs.c:545-548 | a write of two bytes of which the second cannot be copied: it reports 0 and the first byte of the file has changed |
| `FileData.AllowChunk` | kernel/file.c:148-154 | for any offset and any spread over the bitmap, a chunk of filewrite logs fewer than MAXOPBLOCKS blocks before its inode, because an unaligned first block exists already |
| `FileData.FirstBlock` | kernel/fs.c:533-539 | a write that starts inside a block starts in one that is mapped |
| `FileData.FileWrite` | kernel/file.c:134-179 | for every n: all bytes are written, or as many as found room and could be copied; the offset and the result say which; each chunk logs fewer than MAXOPBLOCKS blocks before its last log_write; the file is the old one with exactly the bytes counted by the offset replaced if and only if the chunk that meets the failing byte is refused or the bytes between its last block boundary and that byte are what the file held; the disks between chunks form a trail in which every block that an operation changed is logged by it, but for the one in which a failed copy stopped |
| `FileData.TrailMore` | kernel/file.c:153-172 | one more operation whose changes are all logged extends such a trail |
| `FileData.ChunkLoop` | kernel/file.c:153-172 | the loop over chunks, with the reason for which it stopped: the copy failed, the disk was full, or the file would have become too large |
| `FileData.ChunkFits` | kernel/file.c:148-166 | in every run of the log, an operation that has logged no more than such a chunk meets neither panic of log_write |
| `InodeTable.HolderSeesItsFile` | kernel/fs.c:247-363 | in every interleaving there is one entry per inode, and a holder with the lock sees the file its reference was taken for, also when ialloc reused the number while iput was freeing it |
| `InodeTable.LoadFindsType` | kernel/fs.c:293-318 | in every interleaving ilock finds a type: its panic is not reached |
| `InodeTable.OneHolder` | kernel/fs.c:293-328 | in every interleaving two holders never have the same inode locked |
| `InodeTable.PutDoesNotWait` | kernel/fs.c:342-347 | the last reference finds the inode's lock open |
| `InodeTable.Scan` | kernel/fs.c:252-266 | iget's scan finds the entry in use for the inode, or else an empty one; it fails only if there is neither |
| `InodeTable.AllocKeeps` | kernel/fs.c:206-216 | ialloc's reuse of a number keeps the invariant: whoever still refers to it is past writing it |
| `InodeTable.AllocatedAs` | kernel/fs.c:199-220 | in every run, until the first iget after ialloc the inode keeps the type asked for, no links and no data |
| `InodeTable.ClaimKept` | kernel/fs.c:199-220 | no step changes an inode that is claimed and not yet referred to |
| `InodeTable.LocalKeeps` | kernel/fs.c:293-363 | every step of ilock, iunlock, iupdate and iput's freeing branch keeps the invariant |
| `InodeTable.WithoutKeeps` | kernel/fs.c:361-362 | dropping a reference keeps the invariant |
| `InodeTable.StepKeeps` | kernel/fs.c:199-395 | every step keeps the invariant |
| `InodeTable.OrphanRun` | kernel/fs.c:330-363 | iput does not always keep the promise that the last reference to an inode without links frees it: a run, from unlinking a file to reusing its number, at whose end the inode is allocated without links and nobody refers to it |
| `InodeTable.OrphanMade` | kernel/fs.c:330-363 | in every run a step leaves such an inode exactly when it is iput of the last reference that could free it, and the inode was not read through its entry or another holder is still between iput's write and its last decrement |
| `InodeTable.OrphanStep` | kernel/fs.c:199-395 | for every step, which inodes are left so afterwards: those there were, less the one ireclaim takes, and the one whose last reference was put while iput's test failed |
| `InodeTable.FreesExactly` | kernel/fs.c:342 | iput's test by the last reference that could free an inode without links succeeds exactly if the inode was read and nobody else is on the way out |
| `InodeTable.FreedForGood` | kernel/fs.c:342-359 | in every run, once iput's test has succeeded its holder has the inode to itself until the write that frees it |
| `InodeTable.ReclaimAll` | kernel/fs.c:373-395 | ireclaim, run at boot, frees every inode it finds allocated without links and changes no other |
| `InodeTable.ReclaimOne` | kernel/fs.c:380-393 | one turn of it: the inode is taken, read and put, and that frees it |
| `Virtio.Disk.constructor` | kernel/virtio_disk.c:62-153 | the state after initialisation: all descriptors free, both rings empty |
| `Virtio.Disk.AllocDesc` | kernel/virtio_disk.c:156-166 | takes a free descriptor, or finds that there is none |
| `Virtio.Disk.FreeDesc` | kernel/virtio_disk.c:168-182 | the descriptor is free and wiped, the others are untouched, and one more is free |
| `Virtio.Disk.Alloc3` | kernel/virtio_disk.c:199-213 | three descriptors or none; on failure all are given back |
| `Virtio.Disk.Submit` | kernel/virtio_disk.c:215-281 | succeeds exactly when three descriptors are free; adds one chain, queued behind the others, and keeps free descriptors plus three times the chains equal to NUM |
| `Virtio.Disk.Format` | kernel/virtio_disk.c:238-265 | the three descriptors form the chain of the request and no other descriptor changes |
| `Virtio.SectorsDiffer` | kernel/virtio_disk.c:218 | the 32-bit product for the sector number: two blocks have the same sector exactly if they are 2^31 apart |
| `Virtio.Disk.DeviceTake` | kernel/virtio_disk.c:271-277 | the device finds the oldest entry it has not taken, also when the 16-bit index has wrapped |
| `Virtio.Disk.DeviceComplete` | kernel/virtio_disk.c:283-286 | the device moves the data the request asked for and reports the chain once |
| `Virtio.Disk.ReleaseOne` | kernel/virtio_disk.c:312-324 | each completion names a live chain with status 0, and releases that chain's waiter only |
| `Virtio.Disk.Interrupt` | kernel/virtio_disk.c:294-327 | every completion reported so far releases its waiter exactly once |
| `Virtio.Disk.FreeChain` | kernel/virtio_disk.c:184-197 | stops after exactly three frees, of the chain's own descriptors |
| `Virtio.Disk.Finish` | kernel/virtio_disk.c:283-292 | the chain is gone and its three descriptors are free |
| `Virtio.RingAppend` | kernel/virtio_disk.c:271-277 | publishing an entry overwrites none that is still waiting, also when the 16-bit index wraps |
| `Virtio.RingRead` | kernel/virtio_disk.c:312-324 | a reader counting in 16 bits sees an empty ring exactly when it is one, and else the entry that is due |
| `Virtio.QueuesShort` | kernel/virtio_disk.c:215-281 | neither ring ever holds more entries than there are chains |
| `Malloc.Allocator.Malloc` | user/umalloc.c:63-90 | for every byte count: returns a block of the needed size that was not live, or 0 when sbrk has no room; live blocks are undisturbed; grows the heap at most once, and only when no free block was large enough; all that the headers claim has been obtained from sbrk afterwards exactly if it had been before and the growth, if there was one, was for less than 2^31 bytes |
| `Malloc.Allocator.Free` | user/umalloc.c:24-44 | the block is no longer live and is part of a free block; every other live block keeps its place and size; the list stays circular, ordered and coalesced |
| `Malloc.Allocator.MoreCore` | user/umalloc.c:46-61 | one growth by what sbrk makes of the byte count; the header claims the units asked for, and the heap has them exactly if their bytes are fewer than 2^31 |
| `Malloc.Allocator.FindPlace` | user/umalloc.c:30-32 | free's search ends, at the place in address order where the block belongs |
| `Malloc.Allocator.Search` | user/umalloc.c:74-88 | malloc's search ends, at the first block from freep on that is large enough or after having seen that none is |
| `Malloc.Allocator.Take` | user/umalloc.c:75-84 | an exact fit is unlinked and a larger block loses its tail; the block handed out was free |
| `Malloc.Allocator.Init` | user/umalloc.c:70-73 | the first call builds the one-element list |
| `Malloc.FreeKeepsList` | user/umalloc.c:33-43 | after both joins the list is again circular, in address order, and no two of its blocks touch |
| `Malloc.FreeKeepsInv` | user/umalloc.c:24-44 | free keeps the invariant: every unit from sbrk lies in exactly one block, free or live |
| `Malloc.TakeWhole` | user/umalloc.c:76-77 | unlinking a block keeps the invariant |
| `Malloc.TakePart` | user/umalloc.c:78-82 | carving the tail off a block keeps the invariant |
| `Malloc.GrowKeepsInv` | user/umalloc.c:46-61 | new units become one more live block of an exactly tiled heap |
| `Malloc.OneCircle` | user/umalloc.c:30-32 | following the links from any element reaches every element |
| `Malloc.OneOwner` | user/umalloc.c:24-90 | no unit is claimed by the headers of two blocks, live or free |
| `Malloc.GrowthCovers` | user/umalloc.c:52-58 | for every number of units: the heap reaches the end of the block that morecore writes a header for exactly if the units are fewer than 2^31 bytes |
| `Malloc.WrappedGrowth` | user/umalloc.c:52-58 | where the byte count wraps to one that is not negative, the next growth of any size overlaps the block or is taken for it |
| `Malloc.LargestRequest` | user/umalloc.c:52-69 | malloc(4294967295) on any heap without so large a free block: a header for 268435457 units, 16 bytes from sbrk, and the next growth lies inside the block |
| `ShellGrammar.RoundTrip` | user/sh.c:333-452 | for every legal command tree, parsing its fully parenthesised text gives the tree back |
| `ShellGrammar.Parses` | user/sh.c:350-452 | the same in any context: what follows the text is left unread |
| `ShellGrammar.ArgsPrinted` | user/sh.c:437-448 | up to nine words are read as the arguments they are |
| `ShellGrammar.OneRedirect` | user/sh.c:380-403 | an operator and a word are read as that redirection, with its mode and descriptor |
| `ShellGrammar.SkipParse` | user/sh.c:316-326 | leading white space makes no difference to any parser |
| `ShellScript.ParsesExactly` | user/sh.c:333-452 | for every text and tree: parsecmd reads the text as that tree if and only if its tokens are those of a command line (pipelines, lists, &, blocks, redirections before, between and after words) that means it |
| `ShellScript.ReadsExactly` | user/sh.c:333-348 | parsecmd fails on exactly the texts whose tokens are those of no command line |
| `ShellScript.LexesExactly` | user/sh.c:271-314 | for every text and sequence of tokens: gettoken finds those tokens if and only if the text is they with white space around them, at least where two would run together |
| `ShellScript.ScriptRead` | user/sh.c:333-452 | every command line, in every spacing, is read as what it means |
| `ShellScript.Unambiguous` | user/sh.c:333-452 | two command lines with the same tokens mean the same |
| `ShellScript.FewestRead` | user/sh.c:333-452 | every legal command tree, written with blocks only where it needs them, in every spacing, is read back; no way to write it has fewer parentheses |
| `ShellScript.FewestScript` | user/sh.c:350-452 | whatever a command line means, the one made from its tree has no more parentheses |
| `ShellScript.ScriptOfMeans` | user/sh.c:350-452 | every legal tree is what some command line means |
| `ShellScript.ReadsItems` | user/sh.c:380-450 | redirections before, between and after the words of a simple command are gathered in their order, and the words in theirs |
| `ShellScript.ReadsPipes` | user/sh.c:367-378 | a pipeline of any length is read, nested to the right |
| `ShellScript.ReadsScript` | user/sh.c:350-365 | a list of any length, with any number of & after each pipeline, is read |
| `ShellScript.PipeRead` | user/sh.c:367-378 | whatever parsepipe accepts is a pipeline that means what it returns |
| `ShellScript.LineRead` | user/sh.c:350-365 | whatever parseline accepts is a command line that means what it returns |
| `Shell.GetToken` | user/sh.c:271-314 | the token, its pointers and the cursor are those of the grammar; a word's pointers enclose a maximal run of word characters |
| `Shell.PeekAt` | user/sh.c:316-326 | skips white space and looks at one character |
| `Shell.ParseRedirs` | user/sh.c:380-403 | succeeds exactly when the grammar does, with the redirections around the command, the last outermost |
| `Shell.ParseArgs` | user/sh.c:434-450 | the argument loop fills the innermost node although redirections already surround it; ten arguments fail |
| `Shell.AddArgs` | user/sh.c:442-444 | an argument added in place reaches the exec node through any number of redirections |
| `Shell.ParseExec` | user/sh.c:421-452 | terminates and delivers what the grammar says |
| `Shell.ParseBlock` | user/sh.c:405-419 | terminates and delivers what the grammar says, or fails on a missing parenthesis |
| `Shell.ParsePipe` | user/sh.c:367-378 | terminates and delivers what the grammar says, which ShellScript.ReadsPipes and PipeRead show to be all pipelines c1|c2|...|cn, nested to the right |
| `Shell.ParseLine` | user/sh.c:350-365 | terminates and delivers what the grammar says, which ShellScript.ReadsScript and LineRead show to be all lines of pipelines with any number of & after each and ; between them |
| `Shell.NulTerminate` | user/sh.c:454-499 | NUL at the end of every word of the command, and no other change to the buffer |
| `Shell.AllSurvive` | user/sh.c:454-499 | after nulterminate every argument and file, read as a C string, is the word that was scanned |
| `Shell.ParseCmd` | user/sh.c:333-348 | succeeds on exactly the texts whose tokens are those of a command line; the nodes' C strings then spell the command that the line means |
| `Shell.ParsePrinted` | user/sh.c:333-499 | the text of any legal command, as a C string in a buffer, is parsed in place into nodes whose C strings spell that command |
| `Shell.ParseScript` | user/sh.c:333-499 | any command line whose words are C strings, however spaced, is parsed in place into nodes whose C strings spell what it means |
| `Shell.PrintNulFree` | user/sh.c:333-348 | the text of a command whose words are C strings is one |
| `Grep.Match` | user/grep.c:72-82 | true exactly when some substring is in the pattern's language, subject to ^ and $ |
| `Grep.MatchHere` | user/grep.c:84-96 | true exactly when some prefix of the text is in the pattern's language |
| `Grep.MatchStar` | user/grep.c:98-106 | true exactly when some number of fitting characters is followed by a match of the rest |
| `Grep.HereStar` | user/grep.c:89-90 | the language of c* followed by a pattern |
| `Grep.HereOne` | user/grep.c:93-94 | the language of one character followed by a pattern |
| `Grep.HereEnd` | user/grep.c:91-92 | the language of a final $ |
| `Grep.Run` | user/grep.c:11-35 | for every input up to the end or a failing read, the output is the matching complete lines up to the first that has a NUL in it or does not fit the buffer, however the reads split the input |
| `Grep.Scan` | user/grep.c:21-29 | the inner loop prints the matching complete lines of the buffer and stops at the incomplete rest |
| `Grep.Shift` | user/grep.c:30-33 | the incomplete rest moves to the front of the buffer |

## Left out

- Device registers, interrupt controllers, UART, boot code, the trampoline and the assembly of swtch: swtch is two abstract steps.
- kernel/spinlock.c: acquire and release are atomic steps; push_off, the count of held locks that sched checks, and weak memory are not modelled.
- kernel/pipe.c and kernel/console.c: bounded buffers over sleep and wakeup, whose lost-wakeup argument is the one in SleepLock.
- kernel/sysfile.c, kernel/syscall.c, kernel/exec.c and kernel/trap.c: argument fetching, the ELF loader and dispatch, which call what is modelled here.
- Directories, path lookup and link counts of kernel/fs.c; what a directory names is taken to have links.
- copyinstr of kernel/vm.c: a loop like copyin's.
- mkfs/mkfs.c: `FileBlocks.Fs.Empty` stands for the image it makes.
- Liveness: that sleepers are eventually scheduled, that spinning ends.
- LogDriver.FsLog.BeginOp: one turn of the loop; sleeping and trying again is the caller's.
- BufferCache.Cache.BGet: a failed search is a result, not a panic; that a spare buffer exists is not proved, because LOGBLOCKS equals NBUF.
- BufferCache.Cache.InstallAll: as a method it runs when nobody else has the blocks of the header and of the log locked; with readers that have some, its steps are those of CachedLog, in any interleaving.
- BufferCache.Cache.InstallOne: the same.
- BufferCache.Cache.CopyAll: the same.
- BufferCache.Cache.Commit: the same, and the header writes are in CachedLog and LogDriver.
- BufferCache.Cache.CopyOne: the same.
- Scheduler.StepKeeps: channels and pids are left out, so a wakeup may choose any sleeper; SleepLock and ExitWait have them.
- SleepLock.StepKeeps: one sleep lock at a time; sleeping on other channels is one step.
- ExitWait.StepKeeps: a critical section with one access is one step; open files and exit status are left out.
- PageTable.Machine.MapPages: entries are decoded into their fields, PteOfPage and PteClearUser link them to the words; alignment is by construction, addresses being page numbers.
- CopyUser.CopyOut: the table is the current process's own, as vmfault assumes; exec's use on a table not yet current, whose pages are all mapped, is the case without faults.
- CopyUser.CopyIn: the same.
- CachedLog.StepKeeps: an operation logs a block before it lets go of a buffer that it changed, unless the block is logged already; writei's failed copy does not.
- CopyUser.OutThenIn: the source has no such function; it composes the two.
- FileBlocks.Fs.BMap: block numbers in an indirect block are words of their own, not four bytes each.
- FileData.WriteI: that a block changed by a failed copy, which is not logged, falls back to its old contents when its buffer is recycled or the machine stops is not modelled.
- FileData.FileWrite: nobody else writes the file between two chunks; pipes and devices are left out.
- InodeTable.StepKeeps: an inode taken by name has links at that moment; looking up . and .. in a directory that was removed is left out.
- InodeTable.OrphanMade: that an orphan is found again at the next boot is ReclaimAll; when that boot comes is not modelled.
- Malloc.Allocator.Malloc: once the headers claim more than sbrk gave, it is specified only for requests that a free block can meet; what the next growth does then is WrappedGrowth and LargestRequest. Page faults on memory beyond the heap are not modelled.
- Virtio.Disk.Submit: the memory fences around the ring updates, and notification of the device.
- Virtio.Disk.DeviceComplete: the device is modelled by the standard, section 2.6 and section 5.2 of VIRTIO 1.1; it completes each chain once, in any order, with status 0.
- Shell.ParseCmd: nodes are values; that malloc gives memory for them is taken for granted.
