# xv6 kernel and user library: a Dafny model

This project models the parts of xv6-riscv whose guarantees span many functions and all interleavings, and
proves them for every input, every run and every disk size.

| files | what they model |
|---|---|
| `Blocks`, `LogFormat`, `BufferCache`, `Log`, `GroupCommit` | the write-ahead log of `log.c` over the block cache of `bio.c` |
| `FsLayout`, `FsOwner`, `FsTrace`, `FileSystem`, `FileWrite` | block ownership, `bmap`, `itrunc`, `readi`, `writei` of `fs.c` and the chunking of `filewrite` |
| `FsCrash`, `FsExample` | the file system on top of the log, and one file system block by block |
| `Heap` | `malloc` and `free` of `umalloc.c` |
| `PageTable`, `AddressSpace`, `Vm`, `UserMemory`, `FreeTables` | page tables, lazy allocation, fork copies and tear-down of `vm.c` |
| `Semaphore`, `Proc`, `ProcCalls` | the counting semaphore, and fork, exit and wait, as state machines over lock steps |
| `Virtio`, `Grep`, `Pipe` | the virtqueue, the regular-expression matcher, the pipe ring |
| `Basics` | optional values, and sequences without repetition |

## How to read it

* A disk is a map from block number to block. A block write is one atomic step. A crash loses all memory between
  any two steps. `LogFormat` states commit and recovery as sequences of block writes; `Log` proves that the code,
  going through the cache, issues exactly those; `GroupCommit` is the state machine over whole runs with crashes.
* Code that updates memory in place is a class whose methods have the loops and branches of the source. Each method
  is specified by a function of the old state, and lemmas on values carry the proofs.
* `Semaphore` and `Proc` have one step per lock operation or access to shared state. Any number of processes take
  part and any order of steps is allowed. Spinlocks are atomic. A step of the scheduler may come between any two.
* A panic is an outcome of the method where the code can reach it, and a precondition where the source demands
  something of its callers. The theorems then say which panics are out of reach.
* Device I/O, user memory faults and `sbrk` results are parameters, so the theorems hold for every answer.

## Results that need a word

* `log_write` tests the size of the log before it looks for the block in it. When the log is full it therefore
  panics even for a block that is already logged. `FullLogRefusesAbsorption` shows a reachable state, and
  `TooBigIffFull` gives the exact condition: the panic comes if and only if the log is full, and then every open
  operation has used its whole share.
* `begin_op` counts a whole share for every open operation, used or not. It can therefore refuse an operation that
  would fit: `AdmittedIff` gives the exact condition, and `RefusedThoughItFits` an instance.
* NBUF equals LOGBLOCKS. A commit of a full log has every buffer pinned and always panics in `bget`.
  `Log.Commit` proves that, with no other references, a commit finishes if and only if fewer than NBUF blocks are
  logged. `WritersProgress` has the same condition over whole runs, again with no other references, and
  `FullLogCannotCommit` a run from boot that ends in such a commit.
* When copying from the source fails in `writei`, bytes already copied into the buffer stay there, and `brelse` is
  called without `log_write`. `Writei` gives the bytes returned and the bytes that the file then shows as functions of
  the offset and of how much can be read, and `TornIff` says exactly when they differ. What becomes of such bytes
  depends on the log group, which several operations may share. If the block was not in it, they are lost when the
  buffer is recycled (`Reread`, `FaultingWrite`). If an operation of the group had logged the block before, its buffer
  is pinned and commit writes them, although `writei` did not report them (`PinnedWrite`). In a block that the call
  itself has added they reach the disk too, past the end of the file. `Writei` states this for every log group, and
  `TornOnDiskIff` gives the exact condition under which the disk shows what `writei` returns and no more.
* The share of MAXOPBLOCKS that `filewrite` computes for a chunk is reached: `ChunkIsTight` gives the condition on the
  disk before the write, and `LargestTransaction` a disk that meets it.
* `malloc` passes a byte count to `sbrk` as an int. `Malloc` keeps the heap inside the memory of the process if and
  only if that count fits; `HugeRequest` is a request for which it does not.
* `vmfault` looks an address up in the page table it is given and maps the page in that of the running process.
  `Vmfault` states what happens when these differ, the remap panic included.
* Lazy allocation is invisible to `copyin` and `copyout`. It is visible to `copyinstr`, which does not call
  `vmfault`: it fails on a page that is not mapped yet, where the program would see zeros. `StringIffMapped` states the
  exact condition, and `LazyString` is an instance.
* A negative `sbrk` larger than the process wraps around in `growproc` and succeeds without any effect.
* `pipewrite` returns -1 to a killed writer even after some of its bytes have been accepted: `Write` says exactly
  when, and `KilledWriter` is an instance.
* `kwait` tests `killed` and then sleeps. A kill that comes between the two does not wake it: `KillMissed` shows that
  this is the only way in which a killed process sleeps in `kwait`, and `KilledSleeper` is a run.

## Model

| member | source | states |
|---|---|---|
| `LogFormat.HeaderRoundTrip` | xv6-riscv/kernel/log.c:88-116 | read_head loads exactly the count and block numbers that write_head stored, for every list of at most LOGBLOCKS block numbers |
| `LogFormat.LogLayout` | xv6-riscv/kernel/log.c:33-38 | once commit has written the header, the log area holds the count and the block numbers byte by byte, low byte first, and after them the blocks in that order |
| `LogFormat.CommitCut` | xv6-riscv/kernel/log.c:180-206 | commit cut off after any number of block writes leaves a disk whose recovery gives every logged home block old (header not yet written) or every one new; complete, it leaves an empty header and the new home blocks |
| `LogFormat.RecoveryCut` | xv6-riscv/kernel/log.c:66-125 | recovery cut off after any number of block writes still recovers to the same home blocks; complete, it has installed them and erased the header |
| `LogFormat.CrashAtomicity` | xv6-riscv/kernel/log.c:66-125 | commit cut anywhere, then any number of cut recoveries, then one that finishes: all logged home blocks old or all new, the choice fixed by whether the first header write reached the disk |
| `LogFormat.CutWhileInstalling` | xv6-riscv/kernel/log.c:66-85 | after any prefix of the install writes the log still holds the whole group, so installing again from the start ends the same |
| `BufferCache.BCache.constructor` | xv6-riscv/kernel/bio.c:35-52 | binit leaves a ring that is a permutation of all NBUF buffers and a cache that stands for exactly the disk |
| `BufferCache.BCache.FindCached` | xv6-riscv/kernel/bio.c:63-71 | the first scan of bget finds the buffer of the block if and only if one is cached |
| `BufferCache.BCache.FindUnused` | xv6-riscv/kernel/bio.c:73-86 | the backward scan finds the least recently used unreferenced buffer, and fails only when every buffer is referenced |
| `BufferCache.BCache.Bget` | xv6-riscv/kernel/bio.c:57-88 | bget returns the one buffer for the block with one more reference, recycles only an unreferenced buffer, and panics exactly when the block is not cached and no buffer is free |
| `BufferCache.BCache.Bread` | xv6-riscv/kernel/bio.c:91-102 | bread takes a reference and returns the buffer locked, with the latest contents of the block; it waits exactly when another process holds the sleep lock of that buffer, and panics exactly as bget does |
| `BufferCache.BCache.Bwrite` | xv6-riscv/kernel/bio.c:105-111 | bwrite is one block write; disk and latest contents change at that block only |
| `BufferCache.BCache.Brelse` | xv6-riscv/kernel/bio.c:115-136 | brelse gives up the lock and one reference and, at zero, moves the buffer to the front of a ring that stays a permutation of all buffers; it needs the data to have been logged or written |
| `BufferCache.BCache.Unref` | xv6-riscv/kernel/bio.c:123-135 | the decrement after releasesleep keeps the cache invariant also when another process has taken the sleep lock in between |
| `BufferCache.BCache.MoveToFront` | xv6-riscv/kernel/bio.c:124-133 | the five pointer updates of brelse turn the doubly linked ring into the same ring with the buffer moved to the front, and change nothing else |
| `BufferCache.BCache.Bpin` | xv6-riscv/kernel/bio.c:138-144 | bpin adds one pin and keeps the cache invariant |
| `BufferCache.BCache.Bunpin` | xv6-riscv/kernel/bio.c:146-152 | bunpin of a block that has reached its home location keeps the cache invariant |
| `BufferCache.FrontLinked` | xv6-riscv/kernel/bio.c:124-133 | unlinking any buffer of a well-linked ring and pushing it to the front gives a well-linked ring with the same members |
| `BufferCache.CacheIsMap` | xv6-riscv/kernel/bio.c:57-102 | the cache refines a plain block map: what a reader gets for a block, cached or not, is exactly its latest contents |
| `BufferCache.UnpinnedIsClean` | xv6-riscv/kernel/bio.c:138-152 | when nothing is pinned the disk equals the latest contents, so no buffered change is lost by recycling |
| `Log.Log.WriteLog` | xv6-riscv/kernel/log.c:180-194 | write_log issues the writes of the current contents of the logged blocks to the log area in order, or stops at a bget panic or at a buffer that another process holds, with a prefix of them |
| `Log.Log.WriteHead` | xv6-riscv/kernel/log.c:101-116 | write_head is one block write carrying the count and all block numbers, or none when bread does not get the buffer |
| `Log.Log.InstallTrans` | xv6-riscv/kernel/log.c:66-85 | install_trans copies the log blocks home in order and unpins each buffer once (not when recovering), or stops with a prefix of the writes where bread does not get a buffer |
| `Log.Log.ReadHead` | xv6-riscv/kernel/log.c:88-99 | read_head loads the list that the header block stands for and writes nothing |
| `Log.Log.Commit` | xv6-riscv/kernel/log.c:196-206 | the block writes of commit through the cache are a prefix of the specified sequence, whatever locks other processes hold; all of it when some buffer is unreferenced and no lock is held; with no other reference held it finishes if and only if fewer than NBUF blocks are logged |
| `Log.Log.RecoverFromLog` | xv6-riscv/kernel/log.c:118-125 | recovery through the cache issues the specified writes and leaves an empty log with cache and disk equal |
| `Log.Log.LogWrite` | xv6-riscv/kernel/log.c:217-238 | log_write absorbs or appends the block, pins a new one, makes the buffer the latest contents, writes nothing to disk; the two panics are outcomes |
| `Log.Log.BeginOp` | xv6-riscv/kernel/log.c:128-144 | begin_op goes on exactly when no commit is under way and the blocks logged, plus MAXOPBLOCKS for every open operation and for the new one, are at most LOGBLOCKS |
| `Log.Log.EndOp` | xv6-riscv/kernel/log.c:146-178 | end_op commits exactly when it closes the last operation, clears committing and counts the commit |
| `Log.FreeBuffers` | xv6-riscv/kernel/log.c:180-194 | with LOGBLOCKS distinct blocks pinned no buffer is left for the log area; with fewer and no references there is one |
| `GroupCommit.StepKeeps` | xv6-riscv/kernel/log.c:128-252 | every step of begin_op, log_write, end_op, commit, crash, recovery and sync, and every change of a buffer without log_write, keeps the invariant that ties disk, cache, log header and history together |
| `GroupCommit.CrashSafety` | xv6-riscv/kernel/log.c:118-178 | for every interleaving and a crash at any step, followed by any number of cut recoveries, the recovered home blocks are the replay of a prefix of the history with no operation open; a change without log_write is in that history if its block was in the log group, and gone otherwise |
| `GroupCommit.SafetyFromIdle` | xv6-riscv/kernel/log.c:118-178 | the same from any idle state on: the home blocks there, and the replay of a prefix of the history since then with no operation open |
| `GroupCommit.OnlyFinishedOperations` | xv6-riscv/kernel/log.c:146-178 | no store of an operation that had not ended is ever part of what a recovery gives back |
| `GroupCommit.DurableGrows` | xv6-riscv/kernel/log.c:146-206 | what is durable stays durable across later commits and crashes |
| `GroupCommit.GroupBoundaries` | xv6-riscv/kernel/log.c:128-178 | committing excludes open operations, and an idle log is empty, with everything durable |
| `GroupCommit.NoEarlyHomeWrites` | xv6-riscv/kernel/log.c:66-85 | until the header of the group is on disk, the home blocks are those of the last commit, also when buffers are changed without log_write |
| `GroupCommit.WritersProgress` | xv6-riscv/kernel/log.c:180-206 | in every reachable state a recovery has a next write or is done; a commit has one if and only if fewer than NBUF blocks are logged, and otherwise it has not written anything; the condition is exact when no other process holds a buffer |
| `GroupCommit.CommitRuns` | xv6-riscv/kernel/log.c:196-206 | under that condition every commit under way can be carried through to the end, after which its whole history is durable and the log is idle |
| `GroupCommit.ScribbleKeeps` | xv6-riscv/kernel/fs.c:546-549 | a change without log_write keeps the invariant: commit writes it if the block is in the log group, and otherwise nothing of it is left |
| `GroupCommit.ReservationHolds` | xv6-riscv/kernel/log.c:128-144 | in every reachable state logged blocks plus unused shares of open operations fit in LOGBLOCKS, the list has no duplicates, and an operation below its share never meets the panics of log_write |
| `GroupCommit.AdmittedIff` | xv6-riscv/kernel/log.c:128-144 | in every reachable state without a commit under way a new operation is let in if and only if every open operation and the new one could each log MAXOPBLOCKS further blocks; what is let in fits, and an idle log refuses none |
| `GroupCommit.RefusedThoughItFits` | xv6-riscv/kernel/log.c:135-137 | a run from boot to a state in which begin_op refuses an operation although all unused shares and its own fit the log exactly |
| `GroupCommit.FullLogRefusesAbsorption` | xv6-riscv/kernel/log.c:217-238 | a run from boot to a state in which log_write of a block already in the log panics, because the size test comes before the absorption loop |
| `GroupCommit.FullLogCannotCommit` | xv6-riscv/kernel/log.c:196-206 | a run from boot to the commit of a log with LOGBLOCKS blocks, which cannot make a single write because every buffer is pinned |
| `GroupCommit.TooBigIffFull` | xv6-riscv/kernel/log.c:217-238 | inside an operation log_write panics if and only if the log is full, which happens only when every open operation has used its whole share |
| `GroupCommit.SyncIsDurable` | xv6-riscv/kernel/log.c:240-252 | when sys_sync returns, everything in the history at the time of the call is durable |
| `GroupCommit.SyncAtOnce` | xv6-riscv/kernel/log.c:240-252 | when sys_sync does not wait there is nothing left to make durable |
| `GroupCommit.SyncIdle` | xv6-riscv/kernel/log.c:240-252 | on an idle log sys_sync returns at once |
| `GroupCommit.SyncReturnsIff` | xv6-riscv/kernel/log.c:240-252 | otherwise a waiting sys_sync can return if and only if a commit has ended since the call |
| `GroupCommit.SyncCanReturn` | xv6-riscv/kernel/log.c:240-252 | and there is a run that gets it there, if the commit has a buffer left |
| `GroupCommit.WaiterStays` | xv6-riscv/kernel/log.c:240-252 | a waiting sys_sync keeps its target until it returns or the machine crashes |
| `FsLayout.GetPutBit` | xv6-riscv/kernel/fs.h:46-50 | setting or clearing one bit of a bitmap block changes that bit and no other |
| `FsLayout.BitPlace` | xv6-riscv/kernel/fs.c:76-79 | bit k of a bitmap block is the bit of weight 2^(k % 8) in byte k / 8; setting or clearing it adds or takes away that weight and touches no other byte |
| `FsLayout.InodeBytes` | xv6-riscv/kernel/fs.h:30-38 | every field of an on-disk inode, read off its bytes: four halves, the size and thirteen addresses, low byte first |
| `FsOwner.AreaPlaces` | xv6-riscv/kernel/fs.h:43-50 | inode i is the i-th record of 64 bytes from inodestart on, and the bit of block b the b-th bit from bmapstart on |
| `FsOwner.BlockPlace` | xv6-riscv/kernel/fs.c:406-445 | the address of block bn of a file, read off the bytes of the disk: in the inode below block 12, and from there on in the indirect block |
| `FsLayout.GetPutInode` | xv6-riscv/kernel/fs.h:31-44 | storing one inode in an inode block changes that inode and no other, field by field |
| `FsOwner.OwnershipMeaning` | xv6-riscv/kernel/fs.c:67-107 | a bitmap bit is set exactly when the block is reserved or some inode slot names it, and no block is named by two slots |
| `FileSystem.FileSys.FindFree` | xv6-riscv/kernel/fs.c:67-90 | the double loop of balloc finds the lowest clear bit below the size of the disk, if there is one |
| `FileSystem.FileSys.Balloc` | xv6-riscv/kernel/fs.c:67-90 | balloc marks and zeroes the lowest free block, logging exactly two blocks, or reports that every bit is set |
| `FileSystem.FileSys.Bmap` | xv6-riscv/kernel/fs.c:406-445 | bmap returns the block of the slot, allocating it and the indirect block as needed, lowest block first; ownership holds also when it runs out of space halfway |
| `FileSystem.FileSys.Bfree` | xv6-riscv/kernel/fs.c:93-107 | bfree clears the bit and panics exactly when it is clear already; an owned block never panics |
| `FileSystem.FileSys.FreeEntries` | xv6-riscv/kernel/fs.c:461-471 | the loop over the indirect block frees exactly the blocks it names, without a panic |
| `FileSystem.FileSys.Itrunc` | xv6-riscv/kernel/fs.c:449-477 | itrunc clears exactly the bits of the blocks of that inode, empties it in memory and on disk, touches no other inode and no data block, and never panics |
| `FileSystem.FileSys.Iupdate` | xv6-riscv/kernel/fs.c:227-243 | iupdate makes the inode on disk equal to the one in memory and changes no other inode |
| `FileSystem.FileSys.BmapPresent` | xv6-riscv/kernel/fs.c:406-445 | for a block that is there, bmap changes nothing and logs nothing |
| `FileSystem.FileSys.Readi` | xv6-riscv/kernel/fs.c:491-520 | readi returns exactly the clamped slice of the file contents and changes nothing, so it never allocates |
| `FileSystem.FileSys.WriteTurn` | xv6-riscv/kernel/fs.c:540-553 | one turn of the loop of writei takes the state after tot bytes to the state after one more block, or to the exact stopping state on a full disk or a fault |
| `FileSystem.FileSys.Writei` | xv6-riscv/kernel/fs.c:522-563 | writei keeps no holes; a full write replaces exactly its range and sets the size to the maximum; unless the disk fills up, the bytes returned and the bytes that reached the file are fixed functions of the offset and of how much of the source can be read; the disk behind the buffers gets the bytes returned, and the others copied if and only if their block was in the log group before the call; the blocks logged stay within the counted cost |
| `FileSystem.TornIff` | xv6-riscv/kernel/fs.c:546-549 | more bytes reach the file than writei returns if and only if the source faults inside a block of which some bytes have been copied |
| `FileSystem.TornOnDiskIff` | xv6-riscv/kernel/fs.c:546-549 | the disk ends up showing exactly what writei returns if and only if the block that the source faults in was not in the log group, or the bytes copied into it were there before as far as the file reaches |
| `FileSystem.FileSys.CopyIn` | xv6-riscv/kernel/fs.c:545-551 | the bytes copied before a fault stay in the buffer, and stay out of the log unless the block was logged before |
| `FileSystem.FileSys.Reread` | xv6-riscv/kernel/bio.c:73-102 | a buffer that is recycled and read again loses exactly the bytes that never went to the log, and the file system stays consistent |
| `FsTrace.BehindOwn` | xv6-riscv/kernel/fs.c:522-563 | without the changes that the log does not have, the disk is the same file system: same inodes, same block addresses, same bitmap, same owners |
| `FsTrace.ImageSame` | xv6-riscv/kernel/fs.c:227-243 | when the inodes in memory are those on disk, a restart finds the same inodes, owners and bytes from the blocks alone |
| `FileSystem.OnDiskAfter` | xv6-riscv/kernel/fs.c:557-560 | once writei or itrunc has called iupdate, every inode in memory is again the one on disk |
| `FileSystem.Spliced` | xv6-riscv/kernel/fs.c:522-563 | overwriting the raw range and taking the maximum of the sizes is splicing the byte sequence |
| `FileSystem.OtherContent` | xv6-riscv/kernel/fs.c:522-563 | a write to one inode leaves the inode and contents of every other file alone |
| `FileWrite.ChunkIsTight` | xv6-riscv/kernel/file.c:148-173 | the bound is tight: a full chunk that starts inside the last block, runs past the direct blocks and finds its four lowest free blocks under four different bitmap blocks logs MAXOPBLOCKS blocks |
| `FileWrite.TookFour` | xv6-riscv/kernel/fs.c:67-90 | because balloc takes the lowest free block, the four blocks that a write adds are the four lowest free ones before it |
| `FsExample.OwnIs` | xv6-riscv/kernel/fs.c:67-107 | a disk given block by block is a consistent file system: ninety full files and one file of twelve blocks |
| `FsExample.FreeIs` | xv6-riscv/kernel/fs.c:67-90 | on that disk the four lowest free blocks lie under four different bitmap blocks |
| `FsExample.LargestTransaction` | xv6-riscv/kernel/file.c:160-173 | on that disk one chunk of filewrite logs exactly MAXOPBLOCKS different blocks |
| `FsExample.FaultingWrite` | xv6-riscv/kernel/fs.c:546-549 | on that disk a write of two bytes of which one can be read returns 0; the file then shows that byte, and after the buffer is recycled the old one |
| `FsExample.PinnedWrite` | xv6-riscv/kernel/fs.c:546-549 | the same call after an operation of the same log group has logged the block: it returns 0 again, and the byte stays when the buffer is recycled |
| `FileSystem.RecordedTurn` | xv6-riscv/kernel/fs.c:540-553 | each turn of writei adds at least its data block and every new block with its bitmap block to what is logged |
| `FileWrite.File.WriteOne` | xv6-riscv/kernel/file.c:160-173 | one transaction of filewrite, in a log group of its own or one under way: it adds at most MAXOPBLOCKS distinct blocks to the group, and logs at least the data blocks, the new blocks with their bitmap blocks, and the inode block; the disk changes by exactly what is logged |
| `FileWrite.File.Write` | xv6-riscv/kernel/file.c:148-175 | filewrite returns n only if the whole range was replaced; otherwise -1 with a prefix written; every transaction stays within its share; the disks between its transactions are consistent file systems that hold whole chunks of the data and are otherwise unchanged, the last one with bytes beyond those kept only if the source faults in a block of a log group under way |
| `FsCrash.TransactionRuns` | xv6-riscv/kernel/log.c:128-206 | every transaction that adds at most MAXOPBLOCKS blocks is a run of the log from idle to idle: it never exceeds its reservation, its commit does not run out of buffers, and then it is durable |
| `FsCrash.WriteRuns` | xv6-riscv/kernel/file.c:148-175 | from boot on any disk, every write of filewrite whose transactions are committed one by one runs to its end and is then durable, so the runs below exist |
| `FsCrash.CutBetween` | xv6-riscv/kernel/log.c:118-178 | a history of such transactions with no operation open ends between two of them |
| `FsCrash.WriteIsAtomic` | xv6-riscv/kernel/file.c:148-175 | crash atomicity of filewrite, from any idle state of the log on: after a crash at any step, and any number of cut recoveries, the disk is a consistent file system in which the file holds a whole number of chunks of the data, or all that filewrite kept once that is durable, and in which nothing else has changed |
| `FsCrash.WriteAmongOthers` | xv6-riscv/kernel/file.c:148-175 | the same with any number of other operations interleaved, in the same log groups or others, that store to no block of the write or of the file: a whole number of its transactions is recovered, the file is exactly as they left it, and every other block is as the other operations that had ended left it |
| `Heap.Allocator.Search` | xv6-riscv/user/umalloc.c:30-32 | the scan of free stops, from any freep, at the list position where the block belongs |
| `Heap.Allocator.Free` | xv6-riscv/user/umalloc.c:24-44 | free keeps the list circular, address-ordered and without adjacent free blocks, and the partition of the arena; exactly that block stops being live, the other free blocks are as before, and freep is the listed block just below it |
| `Heap.FreeKeeps` | xv6-riscv/user/umalloc.c:33-43 | linking and merging on both sides keeps the heap invariant for every position and block |
| `Heap.Allocator.Morecore` | xv6-riscv/user/umalloc.c:46-61 | morecore adds exactly the new region, of at least 4096 units, to the arena and leaves a free block that is large enough; if there was none before, it ends where the new region ends |
| `Heap.Allocator.Take` | xv6-riscv/user/umalloc.c:73-83 | unlinking or cutting the block found keeps the invariant and hands out a new live block of the size asked for, at the end of the one found |
| `Heap.Allocator.Malloc` | xv6-riscv/user/umalloc.c:63-90 | malloc ends, calls morecore exactly when no block is large enough and then once, returns a new live block disjoint from all others, and fails only when sbrk fails; which block is fixed: the end of the first one after freep with enough room, or else the end of the new region; the heap stays within what sbrk gave if and only if the byte count fits in an int |
| `Heap.GrantExact` | xv6-riscv/user/umalloc.c:52-55 | morecore gets all the units it takes if and only if their byte count fits the int argument of sbrk |
| `Heap.HugeRequest` | xv6-riscv/user/umalloc.c:63-90 | malloc of 2^31 bytes on an empty heap succeeds, and the heap then reaches beyond what sbrk gave |
| `Heap.UnitsEnough` | xv6-riscv/user/umalloc.c:68-68 | the block returned has room for the bytes asked for, and one unit less would not do |
| `Heap.CutHeapKeeps` | xv6-riscv/user/umalloc.c:78-82 | handing out the tail of a larger block keeps the heap invariant |
| `PageTable.HardwareSees` | xv6-riscv/kernel/riscv.h:371-374 | translation as the Sv39 hardware does it, with the entry indices taken from the bits of the address, gives exactly the page that the tables map, byte by byte, and a fault elsewhere |
| `PageTable.PXDigits` | xv6-riscv/kernel/riscv.h:371-374 | the three indices are the base-512 digits of the virtual page number |
| `PageTable.NoSharing` | xv6-riscv/kernel/vm.c:98-116 | two walks that reach the same level-0 table come from the same root by the same indices: tables form trees without sharing |
| `PageTable.AttachLookup` | xv6-riscv/kernel/vm.c:98-116 | hanging an empty table changes nothing that any address space maps |
| `PageTable.LeafLookup` | xv6-riscv/kernel/vm.c:141-175 | writing one leaf entry changes the map at that virtual page and nowhere else, in any address space |
| `Vm.Memory.constructor` | xv6-riscv/kernel/kalloc.c:26-40 | after kinit all pages are free and nothing is mapped |
| `Vm.Memory.Kalloc` | xv6-riscv/kernel/kalloc.c:65-82 | kalloc takes one page off the free list, or returns 0 exactly when it is empty |
| `Vm.Memory.Kfree` | xv6-riscv/kernel/kalloc.c:43-63 | kfree of a page that is out of use puts it back, once |
| `Vm.Memory.Walk` | xv6-riscv/kernel/vm.c:86-116 | walk finds the level-0 table of the page; with alloc it never changes the map or loses a page, and fails only when fewer than two pages are free |
| `Vm.Memory.Uvmcreate` | xv6-riscv/kernel/vm.c:177-188 | a new address space maps nothing |
| `Vm.Memory.Mappages` | xv6-riscv/kernel/vm.c:141-175 | mappages adds exactly its range, or on failure a first part of it, with every page accounted for; to the hardware the addresses of that part now lead to the new pages and all others, in all address spaces, where they led |
| `AddressSpace.MapRangeIs` | xv6-riscv/kernel/vm.c:141-175 | the map that mappages specifies differs from the old one on exactly the range, page by page |
| `AddressSpace.ViewIsSeen` | xv6-riscv/kernel/vm.c:86-116 | the byte that a program sees is the one at the physical address that the hardware makes of the address |
| `Vm.Memory.Uvmunmap` | xv6-riscv/kernel/vm.c:190-213 | uvmunmap removes exactly its range and, when asked, frees exactly the pages that were mapped there; to the hardware the addresses of the range fault and all others lead where they led |
| `Vm.Memory.Uvmalloc` | xv6-riscv/kernel/vm.c:215-242 | uvmalloc maps zero pages over exactly the new range, or leaves map, owners and contents as they were; no page is lost and three free pages per page suffice |
| `Vm.Memory.Uvmdealloc` | xv6-riscv/kernel/vm.c:244-260 | uvmdealloc unmaps and frees exactly the pages between the two rounded sizes |
| `AddressSpace.AddedUndo` | xv6-riscv/kernel/vm.c:225-240 | unmapping the range of pages that were added restores map, owners and contents exactly |
| `FreeTables.Freewalk` | xv6-riscv/kernel/vm.c:262-280 | freewalk frees every table below the given one exactly once and no other |
| `FreeTables.Uvmfree` | xv6-riscv/kernel/vm.c:282-290 | when all leaves lie below PGROUNDUP(sz), uvmfree returns every page and table of the address space, leaves the others whole, and never reaches the leaf panic |
| `FreeTables.ProcFreePagetable` | xv6-riscv/kernel/proc.c:257-265 | taking a process address space down unmaps but does not free the trampoline and trapframe pages, and loses no page |
| `Vm.Memory.Uvmcopy` | xv6-riscv/kernel/vm.c:292-326 | uvmcopy gives the child the same pages with the same flags and contents on pages of its own, or leaves everything as it was; no page is lost |
| `UserMemory.ForkMemory` | xv6-riscv/kernel/proc.c:321-327 | after a successful copy the child sees below the size what the parent sees, no page is shared, and no other address space changes |
| `AddressSpace.CopiedView` | xv6-riscv/kernel/vm.c:292-326 | mirrored pages give equal views |
| `Vm.Memory.Vmfault` | xv6-riscv/kernel/vm.c:450-475 | vmfault adds one zero page to the table of the running process at an address below the size that the given table does not map, or changes nothing; it fails only for the three reasons the code has, and panics exactly when the given table is another one and that of the process maps the address |
| `Vm.Memory.Ismapped` | xv6-riscv/kernel/vm.c:477-488 | ismapped answers whether the page is in the map |
| `AddressSpace.FilledView` | xv6-riscv/kernel/vm.c:215-242 | adding zero pages where nothing was mapped leaves every view as it was |
| `UserMemory.Walkaddr` | xv6-riscv/kernel/vm.c:118-139 | walkaddr gives the physical page of exactly the mapped user pages |
| `UserMemory.Copyin` | xv6-riscv/kernel/vm.c:379-405 | copyin returns the bytes of the view across page boundaries and leaves every view as it was; it fails only at a page that is blocked or for lack of memory |
| `UserMemory.Copyout` | xv6-riscv/kernel/vm.c:341-377 | copyout writes exactly the bytes into the view, changes no other address space, and on failure has written a first part; it fails only at a page that is blocked for writing or for lack of memory |
| `UserMemory.Copyinstr` | xv6-riscv/kernel/vm.c:407-448 | copyinstr succeeds if and only if some zero byte within max, and every byte before it, lie on mapped user pages; it then returns the string up to the first zero byte and changes nothing |
| `UserMemory.StringIffMapped` | xv6-riscv/kernel/vm.c:407-448 | copyinstr finds the string that the program sees if and only if all of its pages are mapped already |
| `UserMemory.LazyString` | xv6-riscv/kernel/vm.c:407-448 | after a lazy sbrk copyin of one byte gives 0 and copyinstr of the same address fails |
| `UserMemory.Growproc` | xv6-riscv/kernel/proc.c:284-305 | growing leaves the view as it was, shrinking makes the freed pages zero; a decrement below zero wraps and does nothing |
| `UserMemory.Sbrk` | xv6-riscv/kernel/sysproc.c:40-66 | eager and lazy growth both leave the view as it was and end with the same size, so a program cannot tell them apart; a failure changes nothing |
| `Semaphore.StepKeeps` | xv6-riscv/kernel/semaphore.c:44-74 | every step of sem_wait, sem_signal, sleep, wakeup_one and the scheduler keeps the invariant, for any number of processes |
| `Semaphore.ScanFinds` | xv6-riscv/kernel/proc.c:639-653 | while wakeup_one scans, a process that waits is still ahead of it, so it never comes to the end empty-handed |
| `Semaphore.WaitersMatchCount` | xv6-riscv/kernel/semaphore.c:44-74 | whenever sem->lock is free, processes asleep or committed to sleep number max(0, -count), and they wait only while every unit is taken |
| `Semaphore.CountIsCalls` | xv6-riscv/kernel/semaphore.c:44-74 | in every reachable state the count is the initial value, up by every call of sem_signal and down by every call of sem_wait that has come that far, each call counted once however often its process is woken |
| `Semaphore.GrantedOnce` | xv6-riscv/kernel/semaphore.c:44-60 | every call of sem_wait is given exactly one unit by the time it returns, and a process outside holds its calls of sem_wait less its calls of sem_signal |
| `Semaphore.GrantedReturns` | xv6-riscv/kernel/semaphore.c:44-60 | a process that has been given a unit, by itself or by wakeup_one, returns from sem_wait before it does anything else |
| `Semaphore.WakesFirst` | xv6-riscv/kernel/proc.c:639-653 | wakeup_one gives the unit to the first waiting process in the table and to no other |
| `Semaphore.SignalSeesWaiters` | xv6-riscv/kernel/semaphore.c:62-74 | after the increment, count <= 0 exactly when some process waits |
| `Semaphore.SignalWakesOne` | xv6-riscv/kernel/semaphore.c:62-74 | a finished sem_signal has woken exactly one process if there were waiters and none otherwise |
| `Semaphore.GrantsBounded` | xv6-riscv/kernel/semaphore.c:44-74 | never more grants than the initial value plus the signals so far |
| `Semaphore.Exclusion` | xv6-riscv/kernel/semaphore.c:44-74 | when only holders signal, at most the initial value of processes hold the semaphore at any time |
| `Proc.StepKeeps` | xv6-riscv/kernel/proc.c:307-465 | every step of kfork, kexit, kwait, sleep, wakeup, kkill and the scheduler keeps the invariant, for any number of slots |
| `Proc.ForkKeeps` | xv6-riscv/kernel/proc.c:310-356 | the steps of kfork keep it: a slot being filled belongs to one process and has a parent before it can run |
| `Proc.ExitKeeps` | xv6-riscv/kernel/proc.c:358-416 | the steps of reparent and kexit keep it: no child is left behind and the parent is woken before the zombie appears |
| `Proc.KwaitKeeps` | xv6-riscv/kernel/proc.c:418-465 | the steps of kwait keep it: no zombie child is passed over and only a zombie is freed |
| `Proc.ParentsAlive` | xv6-riscv/kernel/proc.c:358-416 | in every reachable state a parent is neither zombie nor unused, every zombie has a parent, and an unused slot has none |
| `Proc.NoLostWakeup` | xv6-riscv/kernel/proc.c:418-465 | whenever wait_lock is free, a process asleep in kwait has a child and no zombie child |
| `Proc.WaitSeesChildren` | xv6-riscv/kernel/proc.c:429-460 | kwait gives up for want of children only when there is none |
| `ProcCalls.WaitCall` | xv6-riscv/kernel/proc.c:418-465 | wait from call to return: it has freed the slot of exactly one child, a zombie, and returns its pid and exit status; or it has freed none and returns -1, and when it gave up the process was killed, had no child, or could not take the status of a zombie child |
| `ProcCalls.GivesUpIff` | xv6-riscv/kernel/proc.c:456-463 | at the end of a scan kwait gives up if and only if the process has been killed or has no child |
| `ProcCalls.SleepsNext` | xv6-riscv/kernel/proc.c:456-464 | otherwise the process is asleep on its own channel before it does anything else |
| `ProcCalls.ForkCall` | xv6-riscv/kernel/proc.c:307-356 | fork from call to return: a process with the returned pid has started in a free slot with the caller for a parent, or fork returns -1 and the slot is free again |
| `ProcCalls.ExitStatus` | xv6-riscv/kernel/proc.c:373-416 | exit does not return, and the status a zombie has for wait is the argument of its own call of exit |
| `ProcCalls.PidsUnique` | xv6-riscv/kernel/proc.c:141-152 | in every reachable state no two processes have the same pid, however often slots are used again |
| `ProcCalls.RunLives` | xv6-riscv/kernel/proc.c:307-465 | every step changes the state and the parent of a process only as its life allows: a process starts as the child of its maker, a parent changes only from an exiting process to init, and only wait ends a zombie |
| `ProcCalls.WokenBy` | xv6-riscv/kernel/proc.c:358-416 | a process asleep in kwait is woken only by a kill, by the exit of one of its children, or, if it is init, by a process that has just given it a child |
| `ProcCalls.KillWakes` | xv6-riscv/kernel/proc.c:655-677 | a kill makes a sleeping process runnable and moves no process from its place |
| `ProcCalls.KillMissed` | xv6-riscv/kernel/proc.c:456-464 | a killed process is asleep in kwait only if the kill came between its test of killed and its sleep |
| `ProcCalls.KilledSleeper` | xv6-riscv/kernel/proc.c:456-464 | a run in which that happens |
| `Proc.ReapedOnce` | xv6-riscv/kernel/proc.c:429-450 | every exit is followed by exactly one reclaim of the slot, or the slot is still a zombie |
| `Proc.RunReapedByParent` | xv6-riscv/kernel/proc.c:433-451 | a zombie slot is freed only by its parent, holding its lock, and only when the zombie is off the CPU |
| `Virtio.Disk.constructor` | xv6-riscv/kernel/virtio_disk.c:143-145 | all descriptors free, both rings empty |
| `Virtio.OneChain` | xv6-riscv/kernel/virtio_disk.c:154-212 | between calls a descriptor is free exactly when it is in no chain, and none is in two |
| `Virtio.Disk.AllocDesc` | xv6-riscv/kernel/virtio_disk.c:154-165 | alloc_desc takes the first free descriptor, or reports that there is none |
| `Virtio.Disk.FreeDesc` | xv6-riscv/kernel/virtio_disk.c:167-181 | free_desc of a descriptor in hand makes it free and clears it |
| `Virtio.Disk.FreeChain` | xv6-riscv/kernel/virtio_disk.c:183-196 | free_chain ends and frees exactly the descriptors of the chain |
| `Virtio.Disk.Alloc3` | xv6-riscv/kernel/virtio_disk.c:198-212 | alloc3_desc takes three descriptors exactly when three are free, and otherwise leaves the free set as it was |
| `Virtio.Disk.Submit` | xv6-riscv/kernel/virtio_disk.c:214-280 | a request goes on the avail ring as a chain of three descriptors, with the direction and the sector of the call, without overwriting an entry the device has not taken |
| `Virtio.DeviceSees` | xv6-riscv/kernel/virtio_disk.c:234-264 | following the descriptors of a request, the device finds its header, the data of its buffer, which it may write if and only if the request reads the disk, and the status byte that the interrupt handler looks at |
| `Virtio.Disk.Take` | xv6-riscv/kernel/virtio_disk.c:270-280 | the device takes requests in the order in which they were made available, also when the index wraps |
| `Virtio.Disk.Complete` | xv6-riscv/kernel/virtio_disk.c:308-313 | the device can always add a used entry, with any status, without overwriting one that has not been seen |
| `Virtio.Disk.IntrTurn` | xv6-riscv/kernel/virtio_disk.c:293-326 | each used entry releases the buffer of its own request, once; there is an entry exactly when the two 16-bit indices differ, and the handler panics exactly when the next entry has a status other than 0 |
| `Virtio.Disk.Finish` | xv6-riscv/kernel/virtio_disk.c:282-291 | a finished request gives back exactly its three descriptors |
| `Virtio.RingPut` | xv6-riscv/kernel/virtio_disk.c:270-276 | writing the next ring entry keeps all entries that count |
| `Virtio.IndexWraps` | xv6-riscv/kernel/virtio_disk.c:270-276 | 16-bit indices that are at most NUM apart keep their order and ring places when they wrap |
| `Grep.MatchHere` | xv6-riscv/user/grep.c:84-97 | matchhere is true exactly when the items of the pattern match some first part of the text |
| `Grep.MatchStar` | xv6-riscv/user/grep.c:99-108 | matchstar is true exactly when some run of fitting characters is followed by a match of the rest |
| `Grep.Match` | xv6-riscv/user/grep.c:72-82 | match is true exactly when the declared language matches at the start (leading ^) or at some position, for every pattern and text |
| `Grep.BeginsIff` | xv6-riscv/user/grep.c:84-97 | cutting the text into pieces, one for each item, is the same as giving the first item a piece and the rest what is left |
| `Pipe.Pipe.constructor` | xv6-riscv/kernel/pipe.c:33-36 | a new pipe is empty and open at both ends |
| `Pipe.Pipe.Put` | xv6-riscv/kernel/pipe.c:95-95 | the byte is added at the end of the queue |
| `Pipe.Pipe.Write` | xv6-riscv/kernel/pipe.c:76-103 | a stretch of pipewrite puts in exactly the source bytes from its start to the byte it ends at; it returns -1 exactly when bytes are left and the reader is gone or the process killed, sleeps exactly when bytes are left and the pipe is full otherwise, and else returns the number of bytes of the whole call, all of them unless the next cannot be copied |
| `Pipe.Pipe.Call` | xv6-riscv/kernel/pipe.c:76-103 | pipewrite from call to return, through any number of sleeps with any actions of other processes: the bytes it has put in are exactly the first ones of the source, in order, as many as it returns; the same exact conditions for -1 and for sleeping |
| `Pipe.Pipe.Read` | xv6-riscv/kernel/pipe.c:105-134 | a stretch of piperead delivers the oldest bytes in order, so that all bytes ever delivered are a first part of all bytes accepted; a byte whose copy fails stays in the pipe; it sleeps exactly when the pipe is empty, open for writing and the process is not killed, and returns -1 exactly when it is killed or cannot copy the first byte |
| `Pipe.KilledWriter` | xv6-riscv/kernel/pipe.c:76-103 | a killed writer gets -1 although its first byte has been accepted |
| `Pipe.Pipe.Close` | xv6-riscv/kernel/pipe.c:58-74 | the page goes back exactly when both ends are closed |
| `Pipe.Wraps` | xv6-riscv/kernel/pipe.c:88-123 | with at most PIPESIZE bytes in the pipe, nwrite - nread modulo 2^32 is their number, and the tests for full and empty are exact when the counters wrap |

## Left out

- BufferCache.BCache.Brelse: does not cover the release in writei after a fault, where the buffer holds bytes that were neither logged nor written; `FileSystem` models that release and what recycling the buffer then does.
- Log.Log.WriteLog: ends where it has to wait for a buffer that another process holds; going on after the wait is covered by `GroupCommit`, where the cache is the map of latest contents.
- Log.Log.WriteHead: ends, like write_log, where it has to wait.
- Log.Log.InstallTrans: ends, like write_log, where it has to wait.
- Log.Log.Commit: ends, like write_log, where it has to wait; interleavings of commit with other operations are covered by `GroupCommit`.
- Log.Log.EndOp: ends where its commit has to wait.
- GroupCommit.WritersProgress: counts no buffer references of other processes, which can leave a smaller commit without a buffer as well; `Log.Commit` states what happens then.
- FileSystem.FileSys.Writei: works on the latest contents of blocks and one call at a time; the inode lock is not modelled. What reaches the disk is stated byte by byte for calls made when no unlogged change is left in a buffer, and block by block (`Logs`) for all.
- FsCrash.WriteIsAtomic: takes the transactions of one write one after the other.
- FsCrash.WriteAmongOthers: does not cover operations that change a bitmap or inode block which the write changes as well.
- Heap.Allocator.Malloc: sbrk returns memory above what it returned before.
- Semaphore.Exclusion: covers runs in which no waiter is killed and the semaphore is not closed, because sem_wait sleeps once without looking again.
- Proc.ParentsAlive: kexec and the contents of user memory are not part of the state machine.
- 32-bit overflow of reference counts, of pids, of the commit counter and of the semaphore count is not modelled.
- More than one disk device: every buffer belongs to ROOTDEV.
- Directories, path names, link counts, inode allocation and the system calls above them.
- exec, trap handling, assembly, boot, and memory-mapped device registers.
- Memory ordering and the inside of spinlocks and sleeplocks.
- The kernel page table, uvmclear and the free list inside kalloc pages.
- The line buffering of grep around its matcher.
- The semaphore event log and its Gantt chart; console, shell and mkfs.
