# xv6-riscv with copy-on-write fork: a verified model

This project models the parts of the kernel and of the user programs where correctness is a
property of whole runs, and proves those properties. Code that updates state in place is a class
with methods; what runs concurrently is a state machine whose steps interleave freely.

| file | what it models |
|---|---|
| `Sv39.dfy` | three-level page tables as trees of frames, and the map from page numbers to entries they stand for |
| `Cow.dfy` | the eager-copy machine that says what fork means, and the copy-on-write invariant |
| `MemorySteps.dfy` | how each step of the memory code keeps that invariant |
| `Kernel.dfy` | `kalloc.c`, `vm.c`, the write fault of `trap.c`, the memory side of `proc.c` |
| `LogMachine.dfy` | the write-ahead log as a machine of block writes, crashes and recoveries |
| `BufferCache.dfy`, `Logging.dfy` | `bio.c` and `log.c`; the log's code leaves a run of that machine behind |
| `FileBlocks.dfy`, `FileSystem.dfy` | bitmap, inodes, block map, reading and writing of files |
| `ProcMachine.dfy` | sleep, wakeup, the scheduler's hand-over, fork, exit, wait, kill, sleep locks |
| `Virtio.dfy` | the disk driver's descriptors and rings, with a device that completes in any order |
| `Umalloc.dfy`, `Grep.dfy` | the K&R allocator, the regular-expression matcher |
| `Shell.dfy`, `ShellGrammar.dfy` | the shell's parser, and the grammar it implements |
| `Common.dfy` | facts about sequences and sets that several models share |

The main results:

- **Copy-on-write is eager copy.** Over every sequence of fork, store (with fault and retry),
  copyout, sbrk, uvmclear and exit, what the processes see is a run of the machine in which fork copies
  every page (`Kernel.Execute`), though no page is copied at fork, and an operation runs out of memory
  only when memory is short. Counts are exact, nothing leaks, and a fork that fails leaves every count and
  the set of free pages as they were.
- **Crashes are atomic.** From any crash point, through any number of crashes during recovery, the
  disk ends with the effect of a prefix of history made of whole operations (`CrashAtomicity`), and the
  code of `log.c` only ever makes disk images that occur in such a run (`CrashAnywhere`).
- **The log reservation is one block too generous.** An operation may be told it can write
  `MAXOPBLOCKS` blocks, but the panic in `log_write` is unreachable exactly when operations keep below
  `MAXOPBLOCKS` (`ReservationExact`). Each chunk of `filewrite` logs at most seven, so that no interleaving
  of such chunks, crashes and recoveries meets the panic (`FilewriteFits`).
- **No wakeup is lost, no stack is shared.** In every interleaving, for any data and any condition
  under a spin lock whose changes obey the wakeup rule (`NoLostWakeup`, with sleep locks and `begin_op` as
  instances; `OneCpuEach`, `ReapedOffStack`, `ReapedOnce`, `AdoptedByInit`). Every slot goes round one
  cycle of states (`LifeCycle`), whoever sleeps in `wait` has a child (`WaiterHasChild`), and the locks
  cannot deadlock (`NoDeadlock`).
- **Files are byte sequences** without holes across the direct/indirect boundary: a write splices, a read
  returns the slice and changes nothing, every block has one owner, and every block that a write or a
  truncation changes is logged (`Writei`, `Itrunc`, `Filewrite`).
- **The disk driver's requests do what they say**, whatever order the device completes them in: a read
  gets what the last completed write of its block was submitted with (`ReadGetsLastWrite`).
- **The allocator's blocks partition its memory**, and neither side can hurt the other's: programs keep to
  their blocks' insides and the allocator to its own.
- **The shell parses its grammar**: exactly the lines the grammar derives are accepted, with the tree it
  derives and no word lost (`Grammar`, `NoWordLost`); which blanks are used, and a blank at the end, do not
  matter (`BlanksAlike`, `TrailingBlank`); parsing inverts printing.
- **Grep's matcher decides the language of its pattern.**

Conventions. Each update of a reference count, each memory operation and each 1024-byte block write is
one atomic step. A frame is either 4096 bytes or a table of 512 entries. Integers are unbounded except
where the source's width shows: `uint sz` in `growproc`, the `int` argument of `sbrk` in `morecore`,
the 16-bit ring indices and the 32-bit sector number of the disk driver, and `uint` offsets in `readi`
and `writei`. Panics are results (`ok`, `Overrun`, `Panicked`), so that their absence or exact condition
is proved. User memory that cannot be read or written in the middle of a transfer, and an `sbrk` that fails, are
parameters (`src` shorter than `n`, `torn`, `room`, `sbrkOk`).

## Model

| member | source | states |
|---|---|---|
| `Sv39.OnePath` | kernel/vm.c:80-98 | no two frames serve as the same table of the same tree: each table page is reached by one path |
| `Sv39.LeafWrite` | kernel/riscv.h:348-364 | storing an entry in a lowest-level table changes the mapping of exactly one page of exactly one page table |
| `Sv39.LinkTable` | kernel/vm.c:88-95 | adding a fresh table during a walk changes no mapping of any page table |
| `Sv39.UnlinkTable` | kernel/vm.c:266-282 | unlinking a leaf-free table keeps the tree sound and every other page table's mappings |
| `Sv39.DropRoot` | kernel/vm.c:266-282 | freeing an emptied root removes one address space, leaves no table that belonged to it, and changes no other mapping |
| `Sv39.NewRoot` | kernel/proc.c:171-200 | a zeroed page made a root maps nothing and disturbs no other page table |
| `Cow.OwnersOneLeaf` | kernel/vm.c:308-332 | changing one user entry changes the number of references to a frame by exactly what the old and new entry say |
| `Cow.Reflag` | kernel/trap.c:83-92 | swapping write permission for the copy-on-write mark keeps the accounting as long as a writable page has one reference |
| `Cow.Share` | kernel/vm.c:308-325 | mapping a read-only page once more with its count raised by one keeps all counts exact |
| `Cow.SoleOwner` | kernel/trap.c:83-90 | a frame whose count is one is referred to by a single user entry over all page tables |
| `Cow.Unmap` | kernel/vm.c:165-187 | clearing an entry and dropping one reference keeps all counts exact, the frame becoming free at zero |
| `Cow.Remap` | kernel/trap.c:93-107 | moving an entry to a private copy while the shared frame loses one reference keeps all counts exact |
| `MemorySteps.Accounting` | kernel/kalloc.c:44-113 | a page's count is its user references over all page tables plus the kernel's own; it is zero exactly when the page is on the free list, and then it is there once |
| `MemorySteps.EntryKinds` | kernel/vm.c:366-387 | a valid user entry has exactly one of write permission and the copy-on-write mark, and a writable one is the only reference to its page |
| `MemorySteps.NothingLeaks` | kernel/proc.c:150-167 | when every process is gone, every page is free |
| `KernelMemory.Kernel.Kalloc` | kernel/kalloc.c:89-105 | fails exactly when the free list is empty; otherwise takes its first page with count one and changes no mapping |
| `KernelMemory.Kernel.Kfree` | kernel/kalloc.c:59-84 | drops one reference; the page goes to the free list exactly when that was the last |
| `KernelMemory.Kernel.Walk` | kernel/vm.c:80-98 | finds the table that maps a page, or reports that there is none; allocating uses at most two pages, changes no mapping, and fails only when memory ran out |
| `KernelMemory.Kernel.Walkaddr` | kernel/vm.c:103-121 | answers exactly for pages that are mapped and the user's, with the frame mapped there, and changes nothing |
| `KernelMemory.Kernel.MapPages` | kernel/vm.c:137-160 | maps exactly the pages of the range to consecutive frames; if memory runs out, exactly the first `done` of them |
| `KernelMemory.Kernel.UvmunmapFree` | kernel/vm.c:165-187 | the range's pages are gone, every other page of every process is seen as before, and the counts stay exact |
| `KernelMemory.Kernel.Freewalk` | kernel/vm.c:266-282 | frees each table page of a leaf-free tree exactly once and nothing else |
| `KernelMemory.Kernel.UvmfreeTables` | kernel/vm.c:286-292 | the whole tree is gone, and everything beside it is as it was |
| `KernelMemory.Kernel.Uvmdealloc` | kernel/vm.c:250-262 | exactly the pages below the new size stay mapped, with the same contents |
| `KernelMemory.Kernel.Uvmalloc` | kernel/vm.c:220-244 | adds zeroed pages up to the new size, or takes back those it added; it fails only if fewer than three pages per page asked for were free |
| `KernelMemory.Kernel.CopyPage` | kernel/trap.c:93-107 | the entry moves to a private copy with the same contents; failing for want of memory changes nothing |
| `KernelMemory.Kernel.BreakSharing` | kernel/vm.c:366-387 | after it the page is private, with the same contents and the same user and execute permission, and no process sees a difference; it is writable if the caller asked for that or the frame had no other user, in which case nothing is copied |
| `KernelMemory.Kernel.WriteFault` | kernel/trap.c:70-108 | the process may now write the page and nobody sees a difference; it is killed only for an address that is not a copy-on-write page of its own, or for want of memory |
| `KernelMemory.Kernel.Store` | kernel/trap.c:70-108 | a user store, with fault and retry, is a store of the eager machine; it is killed for memory only when there is none |
| `KernelMemory.Kernel.Copyout` | kernel/vm.c:350-402 | a prefix of the bytes is laid over what the process saw, all of them unless the next address is not the process's or memory is gone; no other process sees a change |
| `KernelMemory.Kernel.CopyoutTo` | kernel/vm.c:350-402 | copyout to a process is a step of the eager machine |
| `KernelMemory.Kernel.Copyin` | kernel/vm.c:407-427 | returns exactly the bytes the eager machine says are there, changing nothing, and stops early only at an address the process may not use |
| `KernelMemory.Kernel.Sbrk` | kernel/proc.c:252-268 | a step of the eager machine; the new size is the old one plus the argument if that lies in [0, 2^32), else the old size; failure changes no size and happens only when memory is short |
| `Eager.ResizeSeen` | kernel/proc.c:252-268 | the size that growproc's arithmetic gives; addresses on pages that stay read as before and pages that are new read as zeroes |
| `Eager.GrowShrink` | kernel/proc.c:252-268 | growing by n and then shrinking by n gives back the same address space |
| `Eager.WriteSeen` | kernel/vm.c:350-402 | after a write the process reads what was written, every other address and every other process as before |
| `MemorySteps.SpacesShaped` | kernel/vm.c:219-262 | every process's address space is whole pages that just cover its size |
| `KernelMemory.Kernel.Uvmcopy` | kernel/vm.c:300-332 | the child sees the parent's pages with the same permissions, each page one frame that neither may write; if it fails, the child has none again, and nobody else ever saw a difference |
| `MemorySteps.SharedCounted` | kernel/vm.c:308-325 | a frame that parent and child share counts at least both |
| `KernelMemory.Kernel.Uvmclear` | kernel/vm.c:336-345 | exactly one page leaves the process's reach |
| `KernelMemory.Kernel.ProcPagetable` | kernel/proc.c:171-200 | a page table with just the trampoline, readable and executable, and the trapframe, readable and writable, both out of reach of user mode; or every page it took given back |
| `KernelMemory.Kernel.FreeMemory` | kernel/proc.c:150-167 | the process's page table, pages and trapframe go back, and everything beside them stays |
| `KernelMemory.Kernel.Exit` | kernel/proc.c:339-428 | the process leaves the eager machine and nobody else sees a difference |
| `KernelMemory.Kernel.Fork` | kernel/proc.c:272-319 | the child is an eager copy of the parent, yet no frame becomes a user page: parent and child share every page, marked copy-on-write in both; failure leaves all counts, the set of free pages and the process table as before, and happens only for want of a slot or of pages |
| `KernelMemory.Kernel.Userinit` | kernel/proc.c:225-250 | a first process whose only page is its code followed by zeros, and no other change; fails only if the code does not fit or a slot or seven free pages are missing |
| `KernelMemory.Kernel.Freerange` | kernel/kalloc.c:44-53 | every page ends up on the free list with count zero |
| `KernelMemory.Kernel.constructor` | kernel/kalloc.c:30-42 | after boot every page is free and no process exists |
| `KernelMemory.Kernel.Execute` | kernel/vm.c:300-402 | any sequence of operations is a run of the eager-copy machine through sound states, and an operation that runs out of memory does so in a state where slots or free pages are fewer than it may need |
| `LogMachine.StepInv` | kernel/log.c:126-235 | every step of begin, write, end, commit, crash and recovery keeps the invariant that what recovery would produce is the effect of the durable history |
| `LogMachine.RunInv` | kernel/log.c:126-235 | so does every run from a disk with any recoverable log |
| `LogMachine.CrashAtomicity` | kernel/log.c:67-123 | after a crash anywhere, and any crashes during recovery, the disk is the effect of a prefix of history in which every operation that began also ended |
| `LogMachine.RecoveryProgress` | kernel/log.c:116-123 | recovery can always go on and finishes after a bounded number of writes |
| `LogMachine.Durability` | kernel/log.c:193-203 | the durable history only grows, through any later crashes |
| `LogMachine.CommittedOps` | kernel/log.c:146-175 | when the commit of an end_op is done, everything written so far is durable and no operation is half in |
| `LogMachine.CommitAlone` | kernel/log.c:146-175 | no operation is in progress during a commit, so the "log.committing" panic is unreachable |
| `LogMachine.CommitPoint` | kernel/log.c:99-114 | the durable history grows at the header write and nowhere else, and then takes in everything |
| `LogMachine.ReservationHolds` | kernel/log.c:126-142 | the log plus the unspent shares of the active operations stays within LOGSIZE |
| `LogMachine.FullQuotaPanics` | kernel/log.c:214-222 | a run that begin_op admits, with operations of MAXOPBLOCKS blocks, that panics |
| `LogMachine.ReservationExact` | kernel/log.c:214-222 | the "too big a transaction" panic is unreachable if and only if operations add fewer than MAXOPBLOCKS blocks |
| `LogMachine.PlannedFits` | kernel/log.c:126-142 | operations that each write fewer than MAXOPBLOCKS different blocks, absorbed or not, never meet that panic |
| `BufferCache.Unlink` | kernel/bio.c:122-124 | taking a buffer out by its two neighbours' links leaves a circular list of the others in the same order |
| `BufferCache.PushFront` | kernel/bio.c:125-128 | putting a buffer after the head leaves a circular list with it first |
| `BufferCache.BCache.constructor` | kernel/bio.c:36-53 | the list holds every buffer once, and none holds a block |
| `BufferCache.BCache.Bget` | kernel/bio.c:58-89 | the buffer already holding the block, else the least recently used unused one; fails exactly when the block is not cached and no buffer is unused |
| `BufferCache.BCache.Bread` | kernel/bio.c:92-103 | a referenced buffer with the cached contents, or the disk's; no two buffers ever hold one block of a nonzero device |
| `BufferCache.BCache.Bwrite` | kernel/bio.c:106-112 | exactly the buffer's block changes on disk |
| `BufferCache.BCache.Brelse` | kernel/bio.c:116-137 | one reference less; the last one moves the buffer to the front of the otherwise unchanged order |
| `BufferCache.BCache.Bpin` | kernel/bio.c:139-144 | one reference more and nothing else |
| `BufferCache.BCache.Bunpin` | kernel/bio.c:146-151 | one reference less and nothing else |
| `Logging.ReadAgrees` | kernel/bio.c:58-103 | bread returns the latest logged contents, else the home block's, and never recycles a pinned buffer |
| `Logging.FreeWhenQuiet` | kernel/bio.c:73-88 | with no buffer held, a log that fits leaves one to recycle |
| `Logging.ReadsLatest` | kernel/log.c:214-235 | between commits a read sees the effect of all writes so far, in order |
| `Logging.CrashAnywhere` | kernel/log.c:193-203 | every disk image the code ever made is one of the machine's states, with a whole-operation history to recover |
| `Logging.Log.constructor` | kernel/log.c:53-65 | start-up after a crash: the durable history and nothing else survives, by recovery steps only |
| `Logging.Log.ReadHead` | kernel/log.c:86-97 | the in-memory header becomes the disk's |
| `Logging.Log.WriteHead` | kernel/log.c:99-114 | one block write, of a header listing exactly the logged blocks |
| `Logging.Log.WriteLog` | kernel/log.c:178-191 | each logged block's cached contents go to its log block, one write each, and nothing else changes |
| `Logging.Log.InstallTrans` | kernel/log.c:67-83 | each logged block goes home, one write each; outside recovery it is then unpinned |
| `Logging.Log.RecoverFromLog` | kernel/log.c:116-123 | a run of recovery steps that ends ready for operations with the durable history intact |
| `Logging.Log.Commit` | kernel/log.c:193-203 | a run of commit steps: log, header, install, clear |
| `Logging.Log.BeginOp` | kernel/log.c:126-142 | admits exactly when the machine does: no commit, and room for a full share |
| `Logging.Log.LogWrite` | kernel/log.c:214-235 | absorbs a block already logged, else logs and pins it; panics exactly when the log is full |
| `Logging.Log.EndOp` | kernel/log.c:146-175 | ends the operation; the last one out commits, after which everything is durable and the log empty |
| `FileBlocks.WordSet` | kernel/fs.c:390-400 | storing a block number in an indirect block changes exactly that entry |
| `FileBlocks.MarkInv` | kernel/fs.c:64-86 | marking a free block keeps the bitmap and the owners in agreement |
| `FileBlocks.UnmarkInv` | kernel/fs.c:89-103 | so does unmarking an unlinked one |
| `FileBlocks.LinkDirect` | kernel/fs.c:377-387 | linking a held block into a direct slot keeps one owner per block |
| `FileBlocks.LinkEntry` | kernel/fs.c:389-402 | and so does linking it into an indirect block |
| `FileBlocks.DetachInv` | kernel/fs.c:409-437 | an inode's blocks, once unlinked, are owned by nobody else |
| `FileBlocks.WriteRaw` | kernel/fs.c:497-504 | patching a file's block changes those bytes of that file and no byte of any other |
| `FileBlocks.OneReference` | kernel/fs.c:377-405 | two references to the same block are the same reference: one inode, one slot |
| `FileBlocks.NoneLost` | kernel/fs.c:64-103 | a block is metadata, free in the bitmap, or referenced |
| `FileSystem.FS.constructor` | mkfs/mkfs.c:235-248 | a new file system: metadata marked, all else free, all files empty |
| `FileSystem.FS.Balloc` | kernel/fs.c:64-86 | the first free block, zeroed, marked and logged with its bitmap block; never one that is referenced; fails exactly when none is free; no file changes |
| `FileSystem.FS.Bfree` | kernel/fs.c:89-103 | clears the block's bit and nothing else, with the "freeing free block" panic exactly when it was clear; freeing a block that nothing refers to changes no file |
| `FileSystem.FS.Bmap` | kernel/fs.c:377-405 | the block of that place in the file, allocated if missing, with no file's bytes and no other block's place in any file changed and every block it changes logged; panics only past the largest file or with no block free |
| `FileSystem.FS.Iupdate` | kernel/fs.c:221-237 | the inode on disk is the one in memory |
| `FileSystem.FS.Itrunc` | kernel/fs.c:409-437 | releases exactly the inode's blocks, leaves the file empty, no other file changes, and every block it changes is logged: bitmap blocks and the inode's own |
| `FileSystem.FS.Writei` | kernel/fs.c:486-517 | splices the bytes written into the file, leaving no hole, other files unchanged, refusing exactly the offsets the source refuses; every block it changes is logged, but for the one a failed copy left unfinished, and nothing is logged beyond its data, bitmap, indirect and inode blocks |
| `FileSystem.FS.Readi` | kernel/fs.c:455-477 | returns exactly that slice of the file's bytes; on a file system whose files have no holes, as every operation here leaves it, it cannot panic and neither changes nor logs a block |
| `FileSystem.WholeWritten` | kernel/fs.c:486-517 | growing a file over blocks just mapped, with every mapped block kept in place, leaves every block below every file's size mapped |
| `FileSystem.WholeTruncated` | kernel/fs.c:409-437 | so does truncating one |
| `FileSystem.AddrsKept` | kernel/fs.c:377-405 | blocks that keep their owner keep their place in the file |
| `FileSystem.WriteSucceeds` | kernel/fs.c:486-517 | a write of all n bytes leaves exactly the old contents with the n bytes spliced in |
| `FileSystem.FewLogged` | kernel/file.c:149-155 | a chunk of three blocks' bytes logs at most seven blocks when the bitmap is one block |
| `FileSystem.FS.WriteOp` | kernel/file.c:161-166 | one chunk is one operation, which logs every block and inode it changes, but for a block left unfinished, and at most seven if the bitmap is one block |
| `FileSystem.FS.Filewrite` | kernel/file.c:155-175 | the chunks together splice the whole buffer into the file, one operation of at most seven blocks per 3072 bytes, and every block or inode that changes is logged by one of them, but for a block left unfinished; it fails exactly when the memory ends, the file would grow too large or the offset is past its end |
| `FileSystem.InodePlace` | kernel/fs.h:27-45 | inode i is the 64 bytes at 64 i of the inode blocks, within one block |
| `FileBlocks.BitPlace` | kernel/fs.h:47-51 | block b's bit is the b-th of the bitmap blocks |
| `FileSystem.FilewriteFits` | kernel/file.c:146-174 | no interleaving of operations that are chunks of filewrite, with crashes and recoveries, reaches the "too big a transaction" panic |
| `ProcMachine.StepInv3` | kernel/proc.c:528-573 | every step of every thread and CPU keeps the locks, threads, CPUs and families consistent, and every sleeper's wakeup owed or undue |
| `ProcMachine.RunInv` | kernel/proc.c:437-503 | so does every interleaving |
| `ProcMachine.NoLostWakeup` | kernel/proc.c:528-573 | in no reachable state with the condition lock free does anyone sleep on data whose condition holds, for any data and condition changed only under the lock with the wakeup before its release; nor in wait with an exited child |
| `ProcMachine.SleepLockWakes` | kernel/sleeplock.c:21-41 | nobody sleeps on a free sleep lock |
| `ProcMachine.BeginOpWakes` | kernel/log.c:126-142 | nobody sleeps in begin_op while no commit runs and there is room |
| `ProcMachine.LogSectionsQuiet` | kernel/log.c:146-175 | the log's critical sections that wake nobody make begin_op's condition true for nobody |
| `ProcMachine.OneCpuEach` | kernel/proc.c:437-465 | no two CPUs have the same current process |
| `ProcMachine.SchedHoldsOwnLock` | kernel/proc.c:474-492 | a thread entering the scheduler holds its own lock and no other and is not RUNNING when it switches, so sched's checks of lock and state cannot fail |
| `ProcMachine.ReapedOffStack` | kernel/proc.c:383-428 | wait frees a slot only after the child has switched off its kernel stack for good, and the slot is then unused, without a parent and unlocked |
| `ProcMachine.LifeCycle` | kernel/proc.c:99-600 | in every run a slot's state changes only round the cycle of states, each change made by the thread and at the place that may make it |
| `ProcMachine.ForkEnds` | kernel/proc.c:272-319 | a fork that gives up leaves the slot unused and unlocked; one that returns leaves a runnable child whose parent is the caller |
| `ProcMachine.SlotReused` | kernel/proc.c:99-148 | an unused slot whose lock is free can be forked into by any thread with nothing to finish |
| `ProcMachine.RunnablePicked` | kernel/proc.c:437-470 | a runnable process whose lock is free can be picked by any CPU without one |
| `ProcMachine.KilledRuns` | kernel/proc.c:578-600 | a sleeper that is killed can be picked by any CPU without a process |
| `ProcMachine.SleepsOnOne` | kernel/proc.c:527-556 | a process has a channel only while it is asleep or on its way back from sleep |
| `ProcMachine.NoDeadlock` | kernel/proc.c:272-600 | in every run, while some CPU has a process in the kernel or has just switched one out, some CPU can go on with what it has begun: `wait_lock`, the slots' locks and the other spin locks cannot deadlock |
| `ProcMachine.WaiterHasChild` | kernel/proc.c:383-428 | whoever is asleep in wait has a child |
| `ProcMachine.AcquireHolds` | kernel/sleeplock.c:21-31 | acquiresleep goes on exactly when the lock is free, and then holds it for the caller |
| `ProcMachine.ReapedOnce` | kernel/proc.c:361-428 | exits and reaps of a slot are equal in number but for a zombie waiting |
| `ProcMachine.NoOrphans` | kernel/proc.c:323-379 | every parent is alive, and init always is |
| `ProcMachine.AdoptedByInit` | kernel/proc.c:323-334 | a child that outlives its parent is init's from the parent's exit until it is reaped |
| `ProcMachine.SleepLockExclusive` | kernel/sleeplock.c:21-41 | provided only the holder calls releasesleep, which the source does not test, a sleep lock leaves its holder only by that release |
| `Virtio.AtMostTwo` | kernel/virtio_disk.c:203-280 | free descriptors plus three per request in flight total NUM, so at most two are in flight |
| `Virtio.FewUnread` | kernel/virtio_disk.c:248-258 | neither ring ever holds more than two unread entries |
| `Virtio.RingAdd` | kernel/virtio_disk.c:248-256 | adding an entry overwrites no unread one, also when the 16-bit index wraps |
| `Virtio.RingTake` | kernel/virtio_disk.c:294-310 | the reader's index always points at the oldest unread entry |
| `Virtio.Disk.constructor` | kernel/virtio_disk.c:136-138 | all descriptors free, nothing in flight |
| `Virtio.Disk.AllocDesc` | kernel/virtio_disk.c:144-154 | takes the first free descriptor; fails exactly when none is free |
| `Virtio.Disk.FreeDesc` | kernel/virtio_disk.c:157-170 | panics exactly for a bad number or one already free |
| `Virtio.Disk.Alloc3` | kernel/virtio_disk.c:189-201 | three different free descriptors, or the ones taken put back and fewer than three free |
| `Virtio.Disk.Submit` | kernel/virtio_disk.c:203-260 | one more request offered, on a disjoint chain that says what to do with which buffer, and names sector 2b for block b exactly when b is below 2^31; waits only with two in flight |
| `Virtio.Disk.DeviceTake` | kernel/virtio_disk.c:248-260 | the device takes requests in the order they were offered |
| `Virtio.Disk.DeviceComplete` | kernel/virtio_disk.c:225-246 | with any completion order, exactly that request's block of the disk or its buffer gets the other's contents, and every other block and buffer stays |
| `Virtio.Disk.Intr` | kernel/virtio_disk.c:282-315 | every completed request's own buffer is released and no other; the status panic is unreachable |
| `Virtio.Disk.Finish` | kernel/virtio_disk.c:262-280 | the request's three descriptors come back and nothing else changes |
| `Virtio.ReadGetsBlock` | kernel/virtio_disk.c:203-315 | in any interleaving, a read has in its buffer, from completion until it is finished, the block as it was at completion |
| `Virtio.WriteStoresBuffer` | kernel/virtio_disk.c:203-315 | a write puts in its block of the disk what its buffer held when it was submitted, there until a write of the same block completes |
| `Virtio.ReadGetsLastWrite` | kernel/virtio_disk.c:203-315 | a read of a block gets what the last completed write of that block was submitted with, whatever other blocks were written in between |
| `Virtio.ReadGetsInitial` | kernel/virtio_disk.c:203-315 | a read of a block that nothing has written gets what the disk held at the start |
| `Virtio.SectorsApart` | kernel/virtio_disk.c:206-206 | below 2^31 blocks lie apart on the disk in the order of their numbers; the 32-bit product is right exactly there |
| `Virtio.RunOwnBuffers` | kernel/virtio_disk.c:203-280 | no two requests in flight ever use one buffer |
| `Umalloc.SplitPartition` | user/umalloc.c:73-80 | splitting a block keeps blocks disjoint and covering the memory obtained |
| `Umalloc.JoinPartition` | user/umalloc.c:31-41 | so does joining two that touch |
| `Umalloc.FreedInv` | user/umalloc.c:24-44 | freeing, with either, both or no neighbour joined, keeps the free list one ascending cycle with no two touching blocks |
| `Umalloc.TakenInv` | user/umalloc.c:73-75 | so does handing out a whole block |
| `Umalloc.CutInv` | user/umalloc.c:76-80 | and handing out the tail of one |
| `Umalloc.UnitsAccounted` | user/umalloc.c:24-90 | live and free blocks together cover exactly the memory obtained, each unit once |
| `Umalloc.OwnersWriteInv` | user/umalloc.c:24-90 | whatever programs write strictly inside their live blocks, the heap stays sound |
| `Umalloc.SbrkExact` | user/umalloc.c:46-61 | the byte count reaches sbrk unchanged if and only if the request is below 2^27 units |
| `Umalloc.SbrkOverrun` | user/umalloc.c:46-61 | a request of 2^27 units asks sbrk to shrink |
| `Umalloc.Allocator.constructor` | user/umalloc.c:21-22 | an empty heap |
| `Umalloc.Allocator.Walk` | user/umalloc.c:29-31 | the search ends, at the block's place in address order |
| `Umalloc.Allocator.Free` | user/umalloc.c:24-44 | the block is no longer live, every other live block keeps its place and every unit of its memory, the freed units are on the free list, and the next search starts at the free block below |
| `Umalloc.Allocator.Morecore` | user/umalloc.c:46-61 | the free list then has a block that fits; or sbrk failed and nothing changed; or the size wrapped, exactly from 2^27 units on |
| `Umalloc.Allocator.Malloc` | user/umalloc.c:63-90 | a new live block of the fewest units that hold the bytes after a header, disjoint from all others, no unit of which is written; fails only if nothing fits and no memory comes |
| `Umalloc.Allocator.Search` | user/umalloc.c:71-89 | the loop around the cycle ends, having seen every free block |
| `Shell.Gettoken` | user/sh.c:265-308 | the next token, its span, and where the following one starts |
| `Shell.PeekAt` | user/sh.c:310-320 | whether the next token starts with one of the characters, having skipped the blanks |
| `Shell.Parseredirs` | user/sh.c:374-397 | every redirection in front, the first one innermost, or the missing-file error |
| `Shell.Parseexec` | user/sh.c:415-446 | words and redirections up to a symbol; terminates on every input |
| `Shell.Parseblock` | user/sh.c:399-413 | a parenthesised line and the redirections after it |
| `Shell.Parsepipe` | user/sh.c:361-372 | commands joined by bars, to the right |
| `Shell.Parseline` | user/sh.c:344-359 | pipes, ampersands and lists joined by semicolons |
| `Shell.LineWords` | user/sh.c:344-446 | every argument and file name of a parsed command is a whole word of the input, with no word character on either side |
| `Shell.WordSurvives` | user/sh.c:449-493 | cutting at the ends of all words leaves each of them as its own C string |
| `Shell.Nulterminate` | user/sh.c:449-493 | the buffer changes at the ends of the command's words and nowhere else |
| `Shell.Parsecmd` | user/sh.c:327-342 | after parsing, each argument and file name read as a C string is its token; a failed parse leaves the buffer alone |
| `Shell.RoundTrip` | user/sh.c:327-446 | parsing the parenthesised printing of any command tree gives back that tree |
| `ShellGrammar.Grammar` | user/sh.c:327-446 | the parser accepts exactly the lines that the grammar derives and returns the tree it derives: precedence, nesting to the right, trailing ampersands, redirections between words |
| `ShellGrammar.Unambiguous` | user/sh.c:327-446 | the grammar derives at most one tree for a line |
| `ShellGrammar.NoWordLost` | user/sh.c:327-446 | a parsed command has exactly the words of the line, each as often |
| `ShellGrammar.LexBlank` | user/sh.c:262-279 | space, tab, carriage return, newline and vertical tab before a token do not matter |
| `ShellGrammar.LexSymbol` | user/sh.c:281-301 | each of the seven symbols stands for itself, a single `>` included |
| `ShellGrammar.LexAppend` | user/sh.c:292-298 | `>>` is one symbol |
| `ShellGrammar.LexWord` | user/sh.c:302-306 | any other characters up to a blank, a symbol or the end are one word |
| `ShellGrammar.SameTokens` | user/sh.c:327-446 | the command depends on the words and symbols of the line alone |
| `ShellGrammar.TrailingBlank` | user/sh.c:133-142 | the newline or any blank at the end of the line does not matter |
| `ShellGrammar.BlanksAlike` | user/sh.c:262-279 | any blank may stand for any other |
| `Grep.HereStar` | user/grep.c:97-104 | a starred item matches exactly when the rest matches after some run of fitting characters |
| `Grep.MatchHere` | user/grep.c:83-94 | true exactly when a prefix of the text is in the pattern's language |
| `Grep.MatchStar` | user/grep.c:97-104 | true exactly when a run of the starred character and then the rest match |
| `Grep.Match` | user/grep.c:70-80 | true exactly when some substring, anchored where the pattern says, is in the pattern's language |

## Left out

- Accessed and dirty bits, TLB flushes, the trampoline's own frame, kernel page tables and physical address layout: not part of the model.
- ELF loading in `exec`: its memory steps (proc_pagetable, uvmalloc, uvmclear, copyout) are modelled, their sequence is not.
- `copyinstr`: a variant of `copyin` that stops at a zero byte.
- Interleaving of memory operations: each method of `Kernel` runs alone; `add_kmem_ref` takes no lock in the source, so this is an assumption.
- Torn block writes: a block write happens or does not.
- Blocking on buffer locks: `BCache` and `Log` run one call at a time; the interleaving of operations is in `LogMachine`.
- Packing of inodes into blocks, and blocks of the log and boot area: the file system works on block contents as the cache and log present them, with inodes as an array.
- Directories, path names, link counts, the inode cache and device files.
- Pipes, console, UART and system-call argument fetching.
- Wakeups from interrupts, and channels that share one spin lock, as the disk driver's two do.
- Images that mkfs makes: it may leave a hole at the end of a root directory whose entries fill their last block exactly.
- Device registers, notification, and devices that report an error.
- `runcmd`: what the shell does with a parsed command.
- KernelMemory.Kernel.Exit: exit and the wait that reaps are one step here, and init is not kept from exiting; their interleaving is in `ProcMachine`.
- Logging.Log.EndOp: requires a buffer that nobody refers to, without which bget panics; `FreeWhenQuiet` says when there is one.
- Logging.Log.LogWrite: takes the change to the buffer and its logging as one call, for blocks outside the log, by an operation in progress.
- FileSystem.FS.Writei: after a copy-in that failed half way, the unlogged part of a block is in the result as `torn` bytes, as in the source's cache.
- ProcMachine.NoLostWakeup: whether a waiting process has been killed, and whether copying out the status works, are free choices of the machine.
- Umalloc.Allocator.Malloc: addresses count 16-byte units, and nobody else calls `sbrk`; from 2^27 units on, the result is `Overrun` and nothing is said of the heap.
- Shell.RoundTrip: for trees with nonempty words and at most nine arguments, which is what the parser's array holds.
