# xv6 with copy-on-write, shared memory and semaphores: a verified model

This project models the parts of the kernel and of two user programs where the
reasoning is hard, and proves what they are meant to guarantee:

- **The log over the buffer cache** (`GroupCommit`, `CrashRecovery`,
  `BlockLayer`, `LogMachine`, `LogRuns`). Group commit over all interleavings of
  operations; the cache, whose LRU list is re-linked pointer by pointer, and the
  log as one block map; every schedule of processes that read, hold, change and
  log blocks while commits go on block by block, carried out on the cache and the
  disk; a crash after any block write of it, and any number of crashes in
  recovery.
- **Virtual memory** (`PageRefs`, `CopyOnWrite`, `Memory`, `ProgramImage`, `Exec`,
  `MemoryRuns`, and the three-level table in `PageTree`, `PagePrune`,
  `PageTable`). Exact reference counts, and a refinement: whatever sequence of
  forks, execs, stores, copyouts, lazy faults, growth, shared memory and ramdisk
  calls is carried out from boot on, every page reads as if fork had copied
  eagerly, and every load gives the byte last stored, except on pages out of
  shm_open and their copies, which are tracked exactly.
- **Files** (`BlockTree`, `FileData`, `FileSystem`). The bitmap and the direct,
  indirect and double-indirect trees; files as flat byte sequences; how many
  blocks a write transaction dirties.
- **Blocking** (`SleepWake`, and on top of it `Semaphore`, `SleepLock`, `Pipe` and
  `PipeCalls`, `ExitWait`; `ReadingRoom`). sleep and wakeup are modelled step by step once,
  with a condition lock, each process's own lock, the scheduler and kill; the
  code under the lock is a parameter with proof obligations.
- **The virtio disk driver** (`VirtioQueue`, `VirtioDisk`) against a device that
  completes requests in any order.
- **The K&R allocator** (`FreeList`, `Carving`, `Umalloc`) and **the shell's
  parser** (`ShellSyntax`, `ShellRoundTrip`, `ShellTokens`, `ShellParser`).

Code that updates a structure in place is a class whose methods update it, each
proved against a function of the old state; protocols are state machines whose
theorems hold over all runs. A kernel panic is a result of the method,
whose contract says exactly when it is reached, or a precondition that every
caller in the model is proved to meet (kfree's positive count, for example).

Some guarantees turn out to be narrower than the comments in the code suggest:

- The comment on MAXOPBLOCKS allows an operation MAXOPBLOCKS distinct blocks.
  log_write tests for a full log before it looks for an absorbed block, so three
  such operations can panic; fewer than MAXOPBLOCKS is exactly what the log allows
  (`GroupCommit.PanicFreeIffBelowMax`). File writes stay at nine.
- NBUF equals LOGBLOCKS, and the log's blocks stay pinned until they are
  installed. A commit needs one buffer more and panics in bget, before it writes
  anything, exactly if every buffer is pinned or held (`BlockLayer.Commit`). With
  operations that add up to k blocks and processes that hold up to h buffers at a
  time, no schedule panics if and only if MAXOPBLOCKS + 2k + h < NBUF
  (`LogMachine.PanicFreeIff`). For the nine blocks of a file write that allows one
  buffer held by all processes together; with two, a schedule ends in the panic
  (`LogRuns.CommitPanics`). Staying below MAXOPBLOCKS keeps a transaction from
  pinning all buffers by itself (`GroupCommit.CommitsFitIffBelowMax`), no more.
- readi maps blocks with bmap, which allocates, so that reading a hole takes and
  logs a block, in fileread without a transaction (`FileSystem.Readi`). The
  operations modelled keep files free of holes; the root directory that mkfs pads
  has one when its size is a multiple of the block size.
- shm_open keeps a reference when mappages fails, which it does exactly when the
  missing page-table pages outnumber the pages left (`Memory.ShmOpen`); the page
  is then lost for good (`MemoryRuns.ShmOpenLeaks`).
- A writer killed in pipewrite returns without waking readers of the bytes it
  added (`Pipe.KilledWriterLosesWakeup`); that is exactly when sleepers are
  stranded (`Pipe.PipeExact`).
- malloc passes sbrk an int. Requests of 2 GiB and more arrive as a negative
  number, the largest as 0 or 16; sbrk succeeds, and the block that malloc frees
  is not the process's memory (`Umalloc.SbrkSees`, `Umalloc.BackedIff`).

## Model

| member | source | states |
|---|---|---|
| GroupCommit.StepInv | kernel/log.c:127-236 | every step of begin_op, log_write, end_op and commit, in any interleaving, keeps the invariant that ties counters, reserved room, header blocks and operations together |
| GroupCommit.StepSafe | kernel/log.c:127-236 | one allowed step from an invariant state either keeps the invariant or panics with "too big a transaction", and then only on a full log; with a budget of exactly MAXOPBLOCKS only an absorbed write can do it |
| GroupCommit.ExecSafe | kernel/log.c:127-236 | the same over whole runs: no panic but "too big", and that only with a budget of at least MAXOPBLOCKS |
| GroupCommit.EveryRunSafe | kernel/log.c:127-176 | in every reachable state outstanding is the number of running operations, a commit runs only when it is zero, each committed operation is wholly inside one commit, a commit holds nothing foreign, and a sleeper in begin_op always has someone left to wake it; "log.committing" is never reached |
| GroupCommit.ThreeFillPanics | kernel/log.c:215-236 | a concrete run of three operations with MAXOPBLOCKS distinct blocks each that panics, because the full-log test comes before the search for an absorbed block |
| GroupCommit.PanicFreeIffBelowMax | kernel/log.c:215-236 | all runs are free of panics of the log if and only if each operation adds fewer than MAXOPBLOCKS distinct blocks |
| GroupCommit.ThreeCommitFull | kernel/log.c:127-176 | a concrete run of three operations with MAXOPBLOCKS blocks each that ends in a commit of NBUF blocks |
| GroupCommit.CommitsFitIffBelowMax | kernel/log.c:127-204 | a statement about the log alone: in every run every commit has fewer blocks than there are buffers, if and only if each operation adds fewer than MAXOPBLOCKS blocks |
| GroupCommit.FewBlocksSafe | kernel/log.c:127-236 | operations known only by the set of blocks they write, fewer than MAXOPBLOCKS each: no interleaving panics in the log, and every commit leaves a buffer that the log does not pin |
| CrashRecovery.InstalledAt | kernel/log.c:66-84 | what any block holds after the first k logged blocks are copied home, when entries may repeat: the last entry that names it wins |
| CrashRecovery.Reinstall | kernel/log.c:66-84 | installing from the start after any number of installed blocks ends in the same disk |
| CrashRecovery.RecoveryPointRecovers | kernel/log.c:117-124 | a crash after any single block write of a recovery leaves a disk that recovers to the same result |
| CrashRecovery.ChainRecovers | kernel/log.c:117-124 | any number of crashes during recovery in a row changes nothing |
| CrashRecovery.RecoverTwice | kernel/log.c:117-124 | recovery is idempotent |
| CrashRecovery.SplitsAtHeader | kernel/log.c:194-204 | a sequence of disk states that has an empty log until the header write and is a recovery of that header afterwards is atomic |
| CrashRecovery.CrashAnywhere | kernel/log.c:194-204 | for a crash after any write of an atomic commit and any number of crashes in recovery, the home blocks end as the post-transaction disk if the header was written and as the pre-transaction disk otherwise |
| BlockLayer.UnlinkRing | kernel/bio.c:126-134 | taking a node out of the doubly linked list leaves a ring of the others in order |
| BlockLayer.PushRing | kernel/bio.c:126-134 | putting a node behind the head leaves a ring with it in front |
| BlockLayer.FreeExists | kernel/bio.c:75-88 | with fewer pinned and held buffers than NBUF some buffer is free, so bget does not panic |
| BlockLayer.BusyIff | kernel/bio.c:75-88 | every buffer is referenced if and only if NBUF different blocks are pinned by the log or held by a process, and then no other block is cached |
| BlockLayer.LogKeepsOk | kernel/log.c:225-234 | log_write keeps one buffer per block and exactly one pin per logged block, absorbed or new |
| BlockLayer.BlockLayer.constructor | kernel/bio.c:36-53 | after binit the cache and the disk are one block map, all buffers are in the ring, nothing is held |
| BlockLayer.BlockLayer.Binit | kernel/bio.c:36-53 | the ring is a permutation of all buffers, the last one initialised in front |
| BlockLayer.BlockLayer.FindCached | kernel/bio.c:65-73 | the search along next finds the buffer of a block if and only if the block is cached |
| BlockLayer.BlockLayer.FindFree | kernel/bio.c:75-87 | the search along prev finds the least recently used buffer with count 0, or every buffer is busy |
| BlockLayer.BlockLayer.Bget | kernel/bio.c:58-89 | panics exactly when the block is not cached and all buffers are busy; otherwise the cached buffer, or the least recently used free one recycled, with the whole new state |
| BlockLayer.BlockLayer.Bread | kernel/bio.c:92-103 | returns a held buffer whose contents are the latest contents of the block, even while the disk is stale |
| BlockLayer.BlockLayer.SetData | kernel/bio.c:92-112 | changing a held buffer changes that block of the block map, which the disk is then behind on |
| BlockLayer.BlockLayer.Bwrite | kernel/bio.c:106-112 | one disk write: the block reaches the disk and the trace grows by that disk state |
| BlockLayer.BlockLayer.Brelse | kernel/bio.c:116-137 | drops one reference; the last one moves the buffer to the front of the ring and leaves the rest in order |
| BlockLayer.BlockLayer.MoveToFront | kernel/bio.c:126-134 | the pointer updates move one node to the front of the ring |
| BlockLayer.BlockLayer.FindLogged | kernel/log.c:226-229 | the first entry of the block in the transaction, or the length |
| BlockLayer.BlockLayer.LogWrite | kernel/log.c:215-236 | panics exactly on a full log or outside a transaction, in that order; otherwise the block is in the transaction once and pinned once |
| BlockLayer.BlockLayer.Update | kernel/log.c:206-236 | read, change, log, release: the block map has the new contents, and the failures are exactly a full log, no transaction, or no free buffer |
| BlockLayer.BlockLayer.Bunpin | kernel/bio.c:146-151 | gives up the pin of an installed block |
| BlockLayer.BlockLayer.WriteLogBlock | kernel/log.c:180-192 | copies one block of the transaction into its place in the log; fails, with nothing changed, exactly when that place is not cached and every buffer is referenced; buffers that others hold stay theirs |
| BlockLayer.BlockLayer.WriteLog | kernel/log.c:179-192 | after tail turns the log holds the latest contents of the first tail blocks and no other block changed; while others hold only blocks outside the log it fails exactly when every buffer is referenced, and before any write |
| BlockLayer.BlockLayer.WriteHead | kernel/log.c:103-115 | one write puts the count and the block numbers into the header block; fails exactly when the header is not cached and every buffer is referenced |
| BlockLayer.BlockLayer.InstallBlock | kernel/log.c:66-84 | copies one logged block home, unpinning it only outside recovery; outside recovery it fails exactly when the log block is not cached and every buffer is referenced |
| BlockLayer.BlockLayer.InstallTrans | kernel/log.c:66-84 | the disk passes through the stages of installing the logged blocks in order, and every pin is given up; a commit that found one unreferenced buffer gets through |
| BlockLayer.BlockLayer.Commit | kernel/log.c:194-204 | the disk states of a commit are atomic between old disk and block map; afterwards the log is empty and disk and block map agree; while others hold any blocks outside the log it succeeds if and only if the transaction is empty or some buffer is not referenced, and otherwise panics before any write |
| BlockLayer.BlockLayer.ReadHead | kernel/log.c:87-98 | the in-memory header is the one on disk |
| BlockLayer.BlockLayer.Recover | kernel/log.c:117-124 | the disk becomes the recovered disk, through states that are all crash points of that recovery |
| BlockLayer.BlockLayer.EndOp | kernel/log.c:147-176 | the last operation commits atomically, the others change nothing but the counter; it panics during a commit, and else exactly when its commit finds every buffer referenced |
| LogMachine.StepInv | kernel/log.c:127-236 | every move of the processes and of commit, one block at a time (taking, changing, logging and releasing a buffer, begin_op, end_op, each turn of write_log, write_head and install_trans), keeps the invariant that ties header, commit phase, pins, held buffers and saved views together |
| LogMachine.ExecSafe | kernel/log.c:127-236 | no schedule panics, in the log or in bget, when the largest transaction and the buffers held leave one free |
| LogMachine.JamPanics | kernel/log.c:127-204 | for every operation size and number of held buffers that do not leave one free, a schedule in which a commit finds every buffer referenced |
| LogMachine.PanicFreeIff | kernel/log.c:127-204 | with operations that add up to k blocks and processes that hold up to h at a time, both at least 1: no schedule panics in the log or in bget if and only if MAXOPBLOCKS + 2k + h < NBUF |
| LogRuns.StepTake | kernel/bio.c:58-103 | bread by any process, in a transaction or not: panics exactly when the block is neither pinned nor held and NBUF blocks are |
| LogRuns.StepTurn | kernel/log.c:66-204 | each turn of commit on the cache and the disk is one block write and the machine's turn, whatever buffers others hold; it panics exactly when NBUF blocks are pinned or held, with nothing changed |
| LogRuns.Step | kernel/log.c:127-236 | every move of the machine, carried out on the buffer cache and the disk, has the machine's outcome: the same panic, or a state that still corresponds; and every block write so far leaves a disk that recovers to the view saved with the last header written |
| LogRuns.RunLog | kernel/log.c:127-236 | every schedule runs on the block layer to its end or to the machine's first panic, a step that needs an uncached block when NBUF blocks are pinned or held; a crash after any block write of it recovers to the blocks visible at the last header write before; it ends if MAXOPBLOCKS + 2k + h < NBUF |
| LogRuns.CrashInRun | kernel/log.c:117-124 | the same with any number of further crashes during recovery |
| LogRuns.CommitPanics | kernel/log.c:147-204 | on an empty disk, operations of at most nine blocks and two readers: a schedule that is stopped by the panic of its commit in bget |
| PageRefs.AllocInv | kernel/kalloc.c:97-116 | a page taken off the free list has count 1 and one holder |
| PageRefs.FreeInv | kernel/kalloc.c:62-93 | giving up a reference keeps all counts exact; the page is on the free list exactly when nobody holds it |
| PageRefs.ShareLeafInv | kernel/vm.c:277-316 | sharing a page at fork keeps counts exact and leaves no private page writable in two places |
| PageRefs.RepointInv | kernel/vm.c:492-530 | switching an entry to the fresh copy keeps counts exact |
| PageRefs.SoleHolder | kernel/kalloc.c:53-93 | a page with count 1 that is mapped is mapped once and held by nobody else |
| CopyOnWrite.ShareLeafRefines | kernel/vm.c:277-316 | sharing a page looks like copying it |
| CopyOnWrite.WriteRefines | kernel/vm.c:332-381 | a store through a writable entry, or by the kernel to a page with one reference, changes one page of one process and nothing else that any process sees |
| CopyOnWrite.RepointRefines | kernel/vm.c:492-530 | resolving a copy-on-write fault changes what nobody sees |
| CopyOnWrite.FreeRefines | kernel/kalloc.c:62-93 | freeing, which overwrites the page, changes nothing any process sees |
| CopyOnWrite.StoredTwice | kernel/vm.c:332-381 | two pieces of a copy stored one after the other are the whole stored at once |
| CopyOnWrite.StoredByte | kernel/vm.c:373-376 | after a store the bytes stored are there, across page boundaries, and every other byte of every space is as before |
| Memory.Memory.constructor | kernel/kalloc.c:32-50 | after boot the free pages are exactly those above the kernel image and all counts are exact |
| Memory.Memory.Freerange | kernel/kalloc.c:39-50 | every page of the range is on the free list once |
| Memory.Memory.Kalloc | kernel/kalloc.c:97-116 | fails exactly when the free list is empty; otherwise hands out its first page, which nobody holds |
| Memory.Memory.Kfree | kernel/kalloc.c:62-93 | gives up one reference, and frees and overwrites the page with the last |
| Memory.Memory.KallocZero | kernel/vm.c:170-177 | a zeroed page that nobody else holds, or nothing changed |
| Memory.Memory.WalkAlloc | kernel/vm.c:90-106 | adds only the table pages on the way, each held once; succeeds if and only if there is a free page for each missing one; nothing any process sees changes |
| Memory.Memory.Mappages | kernel/vm.c:138-166 | below the trapframe, where the code would panic, exactly one mapping is added if there are pages for the missing tables, and none if not |
| Memory.Memory.MapZeroed | kernel/vm.c:212-224 | one more zeroed page, with one reference, if and only if there is memory for it and for the missing tables; if not, every reference is returned; the counts of pages mapped before stay |
| Memory.Memory.UnmapRange | kernel/vm.c:182-200 | exactly the mappings in the range go, each giving up one reference |
| Memory.Memory.Uvmalloc | kernel/vm.c:204-227 | all pages up to the new size with the given permission and one reference each, or none of them; each costs one to three free pages |
| Memory.Memory.Uvmdealloc | kernel/vm.c:233-243 | exactly the pages above the new size go |
| Memory.Memory.Growproc | kernel/proc.c:237-255 | the size and the mappings change together, or not at all; the new pages are readable and writable and held by nobody else; growth fails only at the trapframe or for want of memory |
| Memory.Memory.LazySbrk | kernel/sysproc.c:27-51 | only the size changes, and only below the trapframe |
| Memory.Memory.Vmfault | kernel/vm.c:454-473 | a page becomes a zeroed writable one if and only if it lies below the size, is not mapped, and there is memory for it and its tables; no process sees a change |
| Memory.Memory.CowCopy | kernel/vm.c:517-529 | the entry gets its own copy and write permission, and gives up its reference to the old page |
| Memory.Memory.Uvmcow | kernel/vm.c:492-530 | succeeds exactly when the page is a user page that is writable, or copy-on-write with memory left; then the entry is writable, and no process sees a change |
| Memory.Memory.MakeWritable | kernel/vm.c:341-369 | copyout's way to a writable user page, lazy fault then copy-on-write: the exact condition, with the memory it takes; no other entry changes |
| Memory.Memory.FaultIn | kernel/vm.c:341-347 | walkaddr and vmfault: the exact condition for a user page to be there |
| Memory.Memory.Copyout | kernel/vm.c:332-381 | of the bytes given the first n are then read at the target, all of them exactly on success, and no other byte of any private page has changed; it stops only at a page that cannot be written or for want of memory; to pages that are writable as they are it always succeeds and takes no memory |
| Memory.Memory.UserStore | kernel/trap.c:71-76 | after the store, with the faults it takes, the byte is read there, also through every other entry for the same page, and no other byte of any private page has changed; the exact condition for it to be carried out |
| Memory.Memory.UserLoad | kernel/trap.c:71-76 | a load with the fault it may take reads the byte that is there, which is what the eager machine holds, and changes none; the exact condition for it to be carried out |
| Memory.Memory.Copyin | kernel/vm.c:386-407 | the bytes copied are those that are there and what the eager machine holds, all of them exactly on success; no byte changes; it stops only at a page that is not there for the user or for want of memory |
| Memory.Memory.IsSharedPage | kernel/shm.c:113-125 | true exactly for pages in shm_table |
| Memory.Memory.Uvmcopy | kernel/vm.c:277-316 | the child sees an eager copy of every page below the size; on failure, only for want of memory, every mapping made is undone and only write permissions have become copy-on-write |
| Memory.Memory.Fork | kernel/proc.c:260-306 | a successful fork is an eager copy of the whole private memory; a failed one, only for want of memory, leaves sizes, mappings and counts as they were |
| Memory.Memory.NewSpace | kernel/proc.c:124-150 | allocproc: a trapframe, and a table with its trapframe and trampoline path, exactly if four pages are free; every page back if not |
| Memory.Memory.NewTable | kernel/proc.c:177-206 | the page-table pages of an empty space exactly if three pages are free; every page back if not |
| Memory.Memory.Userinit | kernel/proc.c:219-232 | the first process: a live space of size 0 exactly if four pages are free |
| Memory.Memory.FreeTables | kernel/vm.c:247-261 | all table pages of a process are freed, each once |
| Memory.Memory.FreeSpace | kernel/proc.c:155-216 | the trapframe, all mappings and all table pages of the process go, and nobody else's |
| Memory.Memory.ShmCreate | kernel/shm.c:56-72 | a new zeroed shared page with one reference for the table and one in hand, or nothing changed |
| Memory.Memory.FindShm | kernel/shm.c:46-54 | the entry with the id, if there is one |
| Memory.Memory.ShmOpen | kernel/shm.c:38-87 | its result is told from the state before: no page to be had, panic at the trapframe, not enough pages for the tables on the way, or mapped just above the process; an id that is known maps the page it has; a reference is left over exactly in the second and third case |
| Memory.Memory.ShmClose | kernel/shm.c:89-110 | the last close drops the table's reference and nobody's mapping |
| Memory.Memory.RdWalk | kernel/brd.c:28-40 | the page of a slot; a missing one is allocated zeroed exactly when asked to and there is memory |
| Memory.Memory.UnloadRamdisk | kernel/brd.c:146-167 | exactly the ramdisk's pages are freed, each once |
| MemoryRuns.Run | kernel/vm.c:277-530 | for every sequence of forks, execs, stores, loads, copyouts, copyins, lazy faults, growth, exits, shm_open, shm_close and ramdisk calls, with whatever outcomes: every page reads as in a machine whose fork copies eagerly, except those that this machine itself marks as stemming from a successful shm_open or copied by fork from such a page; every load on the way delivers what that machine holds; only shm_open leaves references behind |
| ProgramImage.FirstPerm | kernel/exec.c:12-21 | a page has the write and execute permission of the first segment that reaches it |
| ProgramImage.GuardReached | kernel/exec.c:84-94 | the pages below the guard page are exactly those that some segment reaches |
| ProgramImage.LoadedByte | kernel/exec.c:154-173 | a byte of the program is the file's, from the last segment that has one for its address |
| ProgramImage.ArguedByte | kernel/exec.c:96-109 | every argument string is where its address says, with its final zero, whatever is pushed after it |
| ProgramImage.ImagePasses | kernel/exec.c:96-118 | argv as main gets it: the stack pointer is aligned, the 64-bit entries at it are the addresses of the arguments, and a zero entry follows |
| ProgramImage.ImageHolds | kernel/exec.c:58-118 | the program as its first instruction finds it: the segments' bytes, and zeroes where no segment has any |
| ProgramImage.ImageElsewhere | kernel/exec.c:58-118 | loading a program changes nothing that any other process sees |
| Exec.LoadSeg | kernel/exec.c:154-173 | stores the segment's bytes in its own pages and nowhere else; fails exactly when the file is too short; the pages are proved to be there, so its panic is not reached |
| Exec.LoadHeader | kernel/exec.c:58-76 | one program header: afterwards size, contents and permissions are those of the headers so far; fails only for a header that is not accepted or for want of memory, and leaves what can be given up |
| Exec.AllocStack | kernel/exec.c:84-94 | a guard page that the user cannot reach and a writable stack page above the program, or nothing added |
| Exec.PushArgs | kernel/exec.c:96-118 | the argument strings and the array of their addresses are on the stack, aligned, exactly if they fit; copyout cannot fail there |
| Exec.Kexec | kernel/exec.c:26-148 | what the process then reads is the program's segments, zeroes and its arguments as main expects them; a page that segments reach is writable and executable as the first of them says, the guard page is no user page, the stack is writable and not executable; the old space is gone, its references given up, the trapframe kept; or nothing has changed, and then the program cannot be run or memory was short |
| MemoryRuns.BootAndRun | kernel/kalloc.c:32-116 | from boot on, in every run: the same; with no successful shm_open every page of every process is covered; every load delivers the byte last stored there; and ref_count of every page is the number of page tables, kernel structures and shared frames that hold it plus the references that shm_open lost |
| MemoryRuns.ShmOpenLeaks | kernel/shm.c:38-110 | a concrete run, five free pages, after which a page that nothing holds has count 1 and is never freed |
| MemoryRuns.RunOne | kernel/vm.c:277-530 | each operation refines its eager counterpart, marks and unmarks exactly the pages that machine does, reads what it holds, loses a reference exactly in the failing case of shm_open, and fails only when it makes no sense, a limit or permission forbids it, or memory is too short |
| MemoryRuns.OthersUnaffected | kernel/vm.c:277-316 | in the eager machine no operation of other processes changes a process's page, so a write by one is never seen by another |
| MemoryRuns.LoadsLastStore | kernel/vm.c:332-407 | in a run, a load delivers the byte that was last stored there, if nothing has touched it since and the page does not stem from shm_open |
| Memory.PagesConserved | kernel/kalloc.c:39-116 | free pages and pages in use add up to all pages |
| Memory.BootInv | kernel/kalloc.c:39-50 | the invariant holds after boot |
| PageTree.AddedKeeps | kernel/vm.c:94-104 | adding a table on the way down changes no translation and no other table |
| PageTree.WithLeafKeeps | kernel/vm.c:138-166 | writing a leaf entry changes its own translation and no other |
| PageTree.HardwareSees | kernel/vm.c:82-106 | the flat map that all page-table results speak of is what the Sv39 hardware walk, nine bits of the address at each level, finds in the tables |
| PagePrune.PruneChild | kernel/vm.c:247-261 | freeing a subtree and zeroing the entry that led to it takes exactly that subtree out of the tree |
| PagePrune.PruneDone | kernel/vm.c:247-261 | when all entries are handled, freeing the table itself completes the subtree, each page once |
| PageTable.PageTable.Walk | kernel/vm.c:90-106 | the last-level table of an address, or 0 exactly when it is missing and not to be, or cannot be, added; with allocation no translation changes and no page is lost |
| PageTable.PageTable.Mappages | kernel/vm.c:138-166 | exactly the first pages of the range gain the given mapping and none was mapped before; each way to stop short is told apart |
| PageTable.PageTable.MapOne | kernel/vm.c:153-164 | one pass of the loop: one more page mapped, or why not |
| PageTable.PageTable.Uvmunmap | kernel/vm.c:182-200 | exactly the range loses its mappings, absent ones are skipped, and the mapped pages are dropped once each, in order; panics exactly beyond MAXVA |
| PageTable.PageTable.Freewalk | kernel/vm.c:247-261 | panics with "freewalk: leaf" if and only if some page is still mapped below; otherwise every table below is on the free list, each once |
| PageTable.PageTable.Uvmfree | kernel/vm.c:265-269 | panics if and only if a page above the given size is mapped; otherwise all tables are freed once and all pages below dropped once |
| PageTable.PageTable.FreePagetable | kernel/proc.c:211-216 | teardown succeeds if and only if every mapping but trampoline and trapframe lies below the process size |
| PageTable.PageTable.ProcPagetable | kernel/proc.c:177-206 | a table that maps the trampoline, the trapframe and nothing else; or, when memory runs out anywhere on the way, no table and every page back |
| PageTable.FreshTable | kernel/vm.c:170-177 | a zeroed page is a table with no translations |
| BlockTree.BlocksDistinct | kernel/fs.c:405-489 | bmap is injective over all files: no two file blocks share a disk block, and data is never in an indirect or metadata block |
| BlockTree.TakenLinked | kernel/fs.c:405-489 | allocating a block and linking it at an empty place keeps the bitmap exact and every other reference |
| BlockTree.GrownRef | kernel/fs.c:405-489 | allocation is stable: places that had a block keep it, places off the path gain none, new blocks are zeroed |
| BlockTree.SweepPlace | kernel/fs.c:493-544 | a block about to be freed in itrunc is still marked in use |
| BlockTree.EmptiedInv | kernel/fs.c:493-544 | after the sweep the bitmap is exact for the remaining files and exactly the file's blocks are free |
| FileSystem.FileSystem.constructor | kernel/fs.c:62-106 | a disk without files satisfies the invariant |
| FileSystem.FileSystem.Balloc | kernel/fs.c:66-89 | the lowest free block, zeroed; 0 exactly when the disk is full |
| FileSystem.FileSystem.Bfree | kernel/fs.c:92-106 | panics exactly when the block is already free |
| FileSystem.FileSystem.Bmap | kernel/fs.c:405-489 | the answer is the inode's address bn, or the entry bn - 11 of the block at address 11, or the entry two levels below the block at address 12, 0 where a block is missing; panics exactly beyond MAXFILE; takes blocks exactly if the block is missing and the disk is not full, and changes nothing else; only places on its path gain blocks, the bitmap stays exact, and 0 means the disk is full |
| FileSystem.FileSystem.BmapIndirect | kernel/fs.c:422-441 | the same for the indirect block |
| FileSystem.FileSystem.BmapDouble | kernel/fs.c:444-486 | the same for the double-indirect tree, where a failed level-1 allocation goes on to block 0 and writes nothing there |
| FileSystem.FileSystem.Iupdate | kernel/fs.c:226-242 | the on-disk inode is the one in memory, its block is logged, and no file's content changes |
| FileSystem.FileSystem.TruncDirect | kernel/fs.c:500-506 | exactly the direct blocks are freed |
| FileSystem.FileSystem.TruncIndirect | kernel/fs.c:508-519 | exactly the indirect block and the blocks in it are freed |
| FileSystem.FileSystem.TruncLevel1 | kernel/fs.c:525-536 | exactly one level-1 block and the blocks in it are freed |
| FileSystem.FileSystem.TruncDouble | kernel/fs.c:521-540 | exactly the double-indirect tree is freed |
| FileSystem.FileSystem.Itrunc | kernel/fs.c:493-544 | frees exactly the blocks the file refers to, each once, never reaching "freeing free block"; every other file keeps its content |
| FileData.StoredByte | kernel/fs.c:607-619 | storing into one block of one file changes those bytes of that file and no byte of any other |
| FileData.GrownByte | kernel/fs.c:405-489 | the blocks that bmap adds change no byte of any file: a hole reads as zero before and after |
| FileData.WroteContent | kernel/fs.c:597-630 | a finished write is the splice of the old content, other files are unchanged and no file has a hole |
| FileData.FourBlocks | kernel/fs.c:405-489 | four consecutive file blocks lie at no more than seven places, also across the indirect and level-1 boundaries |
| FileData.LoggedBound | kernel/fs.c:405-489 | a transaction that stayed on those places logged at most two blocks more: the bitmap and the inode |
| FileSystem.FileSystem.WritePiece | kernel/fs.c:607-619 | one turn of the loop writes what fits in the block, or stops on a full disk or unreadable source with nothing written |
| FileSystem.FileSystem.Writei | kernel/fs.c:597-630 | -1 exactly past the end of the file or the largest size; otherwise the file becomes the splice with the bytes written, a prefix that is short only on a full disk or unreadable source; nothing else changes |
| FileSystem.FileSystem.Readi | kernel/fs.c:563-587 | for files with or without holes: the bytes are the file's from the offset on, zero in holes, clipped at the end; -1 only when the destination is too small, short only at a hole on a full disk; blocks are taken exactly if a block it mapped was missing and the disk not full, and otherwise nothing changes; no file's content ever does |
| FileSystem.FileSystem.WriteChunk | kernel/file.c:146-178 | one transaction dirties at most nine blocks |
| FileSystem.FileSystem.Filewrite | kernel/file.c:131-185 | for every offset and length the set of blocks each transaction dirties has at most nine, and what was written up to the new offset is spliced into the file |
| FileSystem.WritesFitLog | kernel/file.c:146-178 | transactions that log only blocks from such sets, in any interleaving: no panic of the log is reached and every commit leaves a buffer that the log does not pin |
| SleepWake.StepInv | kernel/proc.c:542-611 | every step of sleep, wakeup, the scheduler and kill keeps the invariant: one holder, own lock and state agree, whoever waits has reason to or is about to be woken |
| SleepWake.WaitsBefore | kernel/proc.c:542-569 | a process starts to wait only by giving up the condition lock while it holds its own |
| SleepWake.NoLostWakeup | kernel/proc.c:542-611 | for any code under the lock that wakes what it unblocks: in every run, whenever the lock is free, a process asleep on a channel or committed to sleep has reason to |
| Semaphore.SemaphoreSafe | kernel/sem.c:76-118 | in every run the value is what it was plus the calls of V minus the calls of P that processes have come through, counted by where they are in the code; never negative from a non-negative start; and with the lock free and the value positive nobody sleeps or is about to |
| SleepLock.SleepLockSafe | kernel/sleeplock.c:21-41 | in every run at most one process has the lock, it is the one recorded, the lock is locked exactly while a process has it, and nobody sleeps on an unlocked lock |
| Pipe.Counters | kernel/pipe.c:77-134 | across 32-bit wrap-around the counters still tell how many bytes wait, and where |
| Pipe.PutFifo | kernel/pipe.c:88-97 | adding a byte to a pipe that is not full keeps first-in first-out order |
| Pipe.GetFifo | kernel/pipe.c:120-130 | the byte taken is the oldest one accepted and not delivered |
| Pipe.PipeOrdered | kernel/pipe.c:58-134 | in every run, kills included, the bytes delivered are a prefix of the bytes accepted, and at most PIPESIZE wait, as many as the 32-bit counters say across wrap-around |
| Pipe.PipeExact | kernel/pipe.c:58-134 | in every run: at each point where the lock is free a sleeping reader means an empty pipe with a writing end and a sleeping writer a full one with a reading end, if and only if no killed writer returns, with bytes it has not announced, while a reader sleeps |
| Pipe.KilledWriterLosesWakeup | kernel/pipe.c:77-103 | a concrete run in which a killed writer leaves a reader asleep with a byte waiting |
| PipeCalls.PipeDelivers | kernel/pipe.c:58-134 | in every run from a new pipe on, kills included: the bytes accepted are an interleaving of the beginnings of the writers' buffers, as far as each call has got, one process's calls after one another; the bytes delivered are a prefix of them, and what the read calls have got is an interleaving of exactly these; an end is open until it is closed |
| PipeCalls.OneWriter | kernel/pipe.c:76-134 | if one call alone has written, what is read is the beginning of its buffer |
| PipeCalls.ReadersWait | kernel/pipe.c:105-134 | in every run a reader goes on only with bytes waiting or the writers' end closed |
| ExitWait.DyingRespects | kernel/proc.c:327-366 | waking the parent before becoming a zombie loses no wakeup, because wait_lock is held in between |
| ExitWait.ReapRespects | kernel/proc.c:371-415 | reaping frees one zombie child that has left its CPU, and keeps the family sound |
| ExitWait.PassRespects | kernel/proc.c:311-321 | passing a child to init keeps the family sound, and a zombie among them is announced |
| ExitWait.NoChildLost | kernel/proc.c:259-415 | in every run every parent lives, every zombie has one, the zombies are exactly those whose code has come through exit and that have not been waited for since, always by their own parent; a child changes parent only to init when its parent exits; and with wait_lock free no process asleep in wait has a zombie child |
| ReadingRoom.SeatFree | user/library.c:72-96 | a reader that passed both P operations finds a free seat |
| ReadingRoom.AloneInside | user/library.c:75-121 | two readers are never in the register at once |
| ReadingRoom.RoomSafe | user/library.c:72-124 | for any number of readers and any interleaving: no reader without a seat, no seat with two owners, and the count is the number of used seats, at most MAX_SEATS |
| VirtioQueue.EightDescriptors | kernel/virtio_disk.c:156-213 | the eight descriptors are the free ones and three for each request |
| VirtioQueue.TwoInFlight | kernel/virtio_disk.c:156-213 | so at most two requests are in flight, and no ring holds more entries |
| VirtioQueue.RingPush | kernel/virtio_disk.c:271-277 | adding to a ring overwrites nothing unread, across 16-bit wrap-around |
| VirtioQueue.RingPop | kernel/virtio_disk.c:312-324 | reading a ring gives the oldest entry, and the indices are equal exactly when it is empty |
| VirtioQueue.SubmittedInv | kernel/virtio_disk.c:216-277 | a new request leaves all chains whole and disjoint |
| VirtioQueue.CompletedInv | kernel/virtio_disk.c:295-327 | completion of any request in any order and with any status keeps the invariant |
| VirtioQueue.NoticedInv | kernel/virtio_disk.c:312-324 | the entry consumed is a finished request with its buffer recorded and the status byte that the device reported for it; if that is 0, consuming it keeps the invariant |
| VirtioQueue.ReapedInv | kernel/virtio_disk.c:288-289 | freeing a chain takes no descriptor of another request |
| VirtioDisk.VirtioDisk.constructor | kernel/virtio_disk.c:61-153 | all descriptors are free and the rings empty |
| VirtioDisk.VirtioDisk.AllocDesc | kernel/virtio_disk.c:156-166 | the lowest free descriptor; -1 exactly when there is none |
| VirtioDisk.VirtioDisk.FreeDesc | kernel/virtio_disk.c:169-182 | panics exactly on a bad or free descriptor |
| VirtioDisk.VirtioDisk.Alloc3 | kernel/virtio_disk.c:201-213 | three different free descriptors, or none taken exactly when fewer than three are free |
| VirtioDisk.VirtioDisk.UndoAlloc | kernel/virtio_disk.c:206-210 | the way out gives back exactly what was taken |
| VirtioDisk.VirtioDisk.Submit | kernel/virtio_disk.c:216-281 | the request is in the avail ring on a chain of its own that, followed in the table, is a header for this direction and sector, the data of this buffer, device-writable exactly if the disk is not to be written, and a status byte; or fewer than three descriptors were free |
| VirtioDisk.VirtioDisk.Fetch | kernel/virtio_disk.c:271-281 | the device always reads the oldest request it has not read, and finds a whole chain from its head |
| VirtioDisk.VirtioDisk.Finish | kernel/virtio_disk.c:309-312 | the device may finish any request it has, and report any status |
| VirtioDisk.VirtioDisk.Notice | kernel/virtio_disk.c:312-324 | each used entry is processed once and clears disk on exactly the buffer whose request finished; it panics exactly when the device reported an error for that request |
| VirtioDisk.VirtioDisk.Intr | kernel/virtio_disk.c:295-327 | while the device makes reports, the used entries are consumed in order, each once, up to the first with an error, which panics, or to the last; exactly their buffers are cleared; the entries that arrive are those of the reports made for requests the device had, the first for each, with the result reported; no other request changes |
| VirtioDisk.VirtioDisk.Reap | kernel/virtio_disk.c:283-292 | the chain of a seen request is freed, all three descriptors and no other |
| VirtioDisk.VirtioDisk.FreeChain | kernel/virtio_disk.c:185-197 | following the next fields frees exactly the chain, with no panic |
| VirtioDisk.RunDisk | kernel/virtio_disk.c:215-327 | for every sequence of requests, device steps, interrupts and collections: the transfers the device reads off the tables are those asked for, in order, each with its buffer, sector and direction |
| FreeList.AfterFreeInv | user/umalloc.c:24-44 | linking and joining a freed block keeps the ring in address order, no two free blocks touching, free and allocated blocks a partition of all units |
| FreeList.ReturnedSound | user/umalloc.c:32-43 | the pointer updates of free leave a ring of exactly the joined blocks, which cover the freed units besides those they covered |
| Carving.UnlinkedInv | user/umalloc.c:76-77 | taking a whole block off the ring keeps the invariant |
| Carving.SplitInv | user/umalloc.c:78-82 | cutting the tail off a block keeps the invariant |
| Umalloc.AheadStep | user/umalloc.c:30-32 | each turn of free's search gets one block closer to the place, around the one wrap point |
| Umalloc.AfterStep | user/umalloc.c:74-89 | each turn of malloc's search gets one block closer to where it started |
| Umalloc.SbrkSees | user/umalloc.c:46-55 | the int that reaches sbrk for every number of units malloc can ask for: as meant below 2 GiB, then negative, and 0 and 16 for the two largest |
| Umalloc.LargestRequests | user/umalloc.c:63-70 | the byte counts that lead to each of these cases |
| Umalloc.BackedIff | user/umalloc.c:46-61 | free and allocated blocks cover exactly what the process has after sbrk, if and only if the request was below 2 GiB |
| Umalloc.Umalloc.constructor | user/umalloc.c:21-22 | an allocator that has obtained nothing satisfies the invariant |
| Umalloc.Umalloc.Free | user/umalloc.c:24-44 | the search ends and the block joins its free neighbours; no unit is lost and none is free and allocated at once |
| Umalloc.Umalloc.Link | user/umalloc.c:33-43 | the pointer updates in the order of the code give the joined ring |
| Umalloc.Umalloc.Morecore | user/umalloc.c:46-61 | given sbrk's answer: exactly the region of the units asked for, at least 4096, joins the free list, or nothing changes; from 2 GiB on a successful sbrk leaves a block that the process does not have |
| Umalloc.Umalloc.Malloc | user/umalloc.c:63-90 | the search ends; a request that some free block can meet is met without asking sbrk; otherwise sbrk is asked once, and its answer decides: a block of enough units that was not allocated before out of exactly the memory it gave, none and nothing changed, or, above 0x7FFFFFE0 bytes, a block that is not memory |
| Umalloc.Umalloc.Carve | user/umalloc.c:75-85 | exactly the units asked for are allocated, from the whole block or its tail |
| ShellSyntax.TokenWord | user/sh.c:271-314 | a word followed by a blank is read back as that word |
| ShellRoundTrip.ExecBack | user/sh.c:405-452 | a printed simple command or parenthesised block parses to its tree, redirections in order |
| ShellRoundTrip.LineBack | user/sh.c:350-378 | a printed line parses to its tree, whatever closes it |
| ShellRoundTrip.RoundTrip | user/sh.c:271-452 | printing any well-formed command tree and parsing it gives the same tree |
| ShellRoundTrip.ReprintSame | user/sh.c:333-452 | the parser yields only well-formed trees, so every line that parses means the same as its tree printed again |
| ShellTokens.TokensSpell | user/sh.c:271-314 | the tokens of a line spell the line, white space aside |
| ShellTokens.LineTree | user/sh.c:350-452 | the arguments, and the redirections, of what parseline has read, with the pipes, semicolons and ampersands between them, are those of the tokens it has consumed, in order |
| ShellTokens.ParseExact | user/sh.c:333-452 | a line is accepted if and only if a left-to-right scan of its tokens, with the place in a command and the number of open parentheses, accepts it; the tree of an accepted line has all of its arguments, redirections, pipes, semicolons and ampersands, in order, and nothing else |
| ShellParser.Gettoken | user/sh.c:271-314 | the cursor version agrees with the token function, and a word is a maximal run of word characters |
| ShellParser.PeekAt | user/sh.c:316-326 | moves past white space and tells whether one of the symbols is next |
| ShellParser.Redirections | user/sh.c:380-403 | the loop reads the redirections of the specification, or panics with it |
| ShellParser.Arguments | user/sh.c:437-448 | the loop reads words and redirections as specified, with fewer than MAXARGS words |
| ShellParser.ExecCommand | user/sh.c:421-452 | agrees with the specification, and ends |
| ShellParser.Block | user/sh.c:405-419 | agrees with the specification, and ends |
| ShellParser.Pipeline | user/sh.c:367-378 | agrees with the specification, and ends |
| ShellParser.Line | user/sh.c:350-365 | agrees with the specification, and ends |
| ShellParser.Ampersands | user/sh.c:356-359 | one background command for each & |
| ShellParser.Nulterminate | user/sh.c:455-499 | writes a NUL at the end of every word and nowhere else |
| ShellParser.ReadsBack | user/sh.c:455-499 | after that every word reads back as exactly its token |
| ShellParser.ParseCommand | user/sh.c:333-348 | accepts exactly the lines of the language, leftovers refused; the tree has all of the line's tokens in order and is the specified one; and the line is cut into exactly the words |

## Left out

- Boot, traps, assembly, device registers, the console, printf and the system call layer: hardware plumbing and thin wrappers.
- The TLB and weak memory ordering: memory is sequentially consistent, and a section that holds a spinlock is one step, except in SleepWake, where sleep and wakeup take their locks step by step.
- Memory operations of different processes do not interleave inside one call; a process's pipe and file buffers are not part of Memory; in Memory page tables appear as the map they implement, and PageTable shows that they do, for one table at a time.
- Reference counts, semaphore values and the semaphore's int are unbounded numbers; the pipe's, virtio's and file sizes' fixed widths are modelled.
- Memory pages that ever were in shm_table, and copies of their mappings, are outside the eager-copy refinement; their reference counts are inside.
- BlockLayer.BlockLayer.Brelse: requires that a changed buffer has been logged or written before its last holder releases it, as every caller in the source does.
- BlockLayer.BlockLayer.LogWrite: requires a block outside the log's own blocks, as every caller in the source does.
- Opening the program file and checking its ELF header in exec, the registers it sets, sys_exec's copies of the arguments, copyinstr, and rd_read and rd_write beyond their page lookup. A process keeps its number in exec; the model numbers page tables.
- In BlockTree a block's bytes are kept in two readings, pointers and data, and the bitmap as a sequence of bits; that every block is used under one reading only is proved, the byte layout is not modelled.
- Inode allocation and reference counts, directories, path names, symlinks and link counts: easier than the block trees, and link counts are not exact in the code.
- User copies in readi and writei succeed or fail as a whole for each block.
- The arrays of the buffer cache, page tables, descriptors and the allocator's headers are sequences and maps held in fields; aliasing between them is not modelled.
- Locks around the buffer cache and each buffer: processes that wait for the same buffer are not told apart, and a turn of commit's loops, with the one or two buffers it holds meanwhile, is one step. A buffer that is changed is logged in the transaction before it is released.
- sem_create, sem_free and the table lookup: a semaphore that is freed while others use it is outside the model.
- In ExitWait fork's copying of memory and files is left out, and init does not exit, which panics in the code.
- VirtioDisk does not model the data moved, and a submitter's wait is two calls, Submit and Reap.
- Umalloc.Umalloc.Morecore: follows the code no further once sbrk has succeeded with another number than was meant; what the process then writes outside its memory is not modelled.
- ReadingRoom takes a semaphore's P as one step, as Semaphore justifies; phone numbers and messages are left out.
- In ShellParser the command node that parseexec fills while redirections already point to it is assembled at the end; running commands is left out.
- Liveness: that a sleeper which has been woken runs again is the scheduler's fairness and is not stated.
