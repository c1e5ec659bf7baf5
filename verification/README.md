# xv6 in Dafny: log, buffer cache, files, directories, processes, page tables, heap, pipe, matcher

This project models the parts of xv6 for x86 whose correctness spans many functions, and
proves what those parts are for. Code that changes state step by step is a class or a
method with loops, proved against functions on values; protocols are transition systems
over their atomic steps, and the theorems about them hold for every run.

| part | files |
|---|---|
| redo log: disk theory, protocol of concurrent operations with crashes, limits | `RedoLog`, `LogProtocol`, `LogDurability`, `LogLimits` |
| buffer cache, and log.c running on it | `BufferCache`, `LogFile` |
| inodes, block allocator, file contents, chunked writes and their log budget | `Inodes`, `FreeBlocks`, `FileSystem`, `FileBytes`, `FileData`, `FileWrite`, `WriteBound`, `TruncBound`, `BitmapBytes` |
| directories and link counts | `DirNames`, `Links`, `Directories`, `DirBytes` |
| processes, sleep and wakeup, sleep-locks | `Processes`, `ProcessInvariants`, `SleepLocks`, `ProcessFamilies`, `ProcessTheorems`, `ProcessTable`, `KillByPid`, `Parentage` |
| physical pages and page tables | `Kalloc`, `PageTables`, `PageBudget`, `Vm`, `AddressSpaces`, `Growth` |
| user heap | `FreeLists`, `Umalloc` |
| pipe | `Pipe`, `PipeLedger` |
| regular expressions of grep | `Grep` |
| constants and finite sets | `Params`, `Sets` |

`dafny verify dfyconfig.toml` checks all of it.

How the models are cut:

- The disk is a sequence of blocks; one block write is atomic and a crash may fall between
  any two. A panic is a result (`false`, `None`, `Panic`, ...), and the contract says when it
  can happen.
- The log protocol's steps are begin_op, log_write's test for room, log_write's append,
  end_op, each single block write of commit and of recovery, also past the end of the log,
  and crash. The test and the append are two steps because log.c reads `lh.n` before it
  takes `log.lock`.
- The process model has any number of processes, CPUs and sleep-locks. A step is what
  happens between two points at which another CPU can be seen; swtch hands `ptable.lock`
  from one thread to the next; kill may hit any slot at any time.
- In the pipe model a thread that has found nothing to do is drowsy before it is asleep: kill
  takes another lock than the pipe's and may come in between. Any other thread has to wait,
  because sleep gives up the pipe's lock only once it has the process table's.
- Ownership (which inode slot has a block, what a physical page is used for, which blocks
  are allocated by malloc) is a ghost map that the invariant ties to the real data in both
  directions, so that "exactly one owner" and "nothing leaked" are what it says.
- 32-bit arithmetic is explicit where it decides something: pipe counters, page addresses,
  malloc sizes, the offset checks of readi and writei. Addresses in inodes, byte offsets and
  directory entries are bytes on disk, least significant first.

What the code does not do, though a reader may expect it to; each is proved with the exact
condition under which it does hold:

- mkfs makes a log of LOGSIZE blocks including its header (mkfs.c:25), begin_op reserves
  LOGSIZE data blocks. An operation within its budget can never be stopped by log_write if
  and only if the log has LOGSIZE data slots; a mkfs log has one fewer.
- log_write tests for room before it takes its lock, so racing operations can make the list
  up to two longer than the log. Commit then writes over the blocks behind the log, before
  the header, and a crash leaves what no prefix of whole operations explains. Some run does
  this if and only if the log has at least one and at most NBUF - 2 data slots and is not at
  the end of the disk; crash atomicity holds for every run exactly otherwise. A mkfs log is
  long enough: there a list that is too long pins every buffer (`LogLimits`).
- NBUF equals LOGSIZE, and write_log needs a buffer that is neither pinned nor referenced.
  Commit panics exactly when there is none, and some run gets there if and only if the log
  has at least LOGSIZE - 2 data slots (`LogFile.Log.Commit`, `LogLimits.CommitSticksIffLong`).
- log_write's test for room comes before its search for an already logged block, so a
  rewrite of a logged block can be stopped too, however large the log is.
- Nothing limits what itrunc logs by MAXOPBLOCKS. It fits exactly when the file's blocks lie
  in at most MAXOPBLOCKS - 1 bitmap blocks; on a disk of at most that many bitmap blocks it
  always does, and a 12-block file on a larger disk logs 13 blocks (`TruncBound`).
- A pipe thread sleeps although it could go on after two steps and no others: a killed writer
  that has just filled the pipe leaves without waking the reader, and a kill between a
  thread's test of `killed` and its sleep wakes nobody (`Pipe`).
- malloc gives a block with room for the request exactly up to 2^32 - 8 bytes. What it asks
  sbrk for is what it enters in its list exactly if the request is at most 2^31 - 16 bytes or
  has wrapped (`Umalloc`).
- allocuvm's failure path unmaps the whole range. That restores the user mapping exactly if
  no page of the range was mapped before (`AddressSpaces.UndoneIffVacant`).
- growproc of minus the whole size unmaps every page but returns -1 and keeps the size. The
  size fits the page table afterwards exactly if that is not the request, and a fork after it
  panics exactly if there is memory for an empty address space (`Growth`).
- Creating or linking in a directory that has been removed but is still in use breaks the
  link counts; creating and linking keep them exactly when the parent's count is positive
  (`Links`, `Directories`).
- kill compares pids without looking at the state, and allocproc does not clear `killed`. In
  every run kill marks a slot in use exactly if some slot in use has that pid, and a forked
  process starts out killed exactly if kill hit its slot while that was unused or being set
  up (`KillByPid`).
- kill wakes a sleeper, but a process that is killed first may still go to sleep: sleep does
  not look at `killed`, and acquiresleep does not either. In every run a process is asleep and
  killed exactly if it was killed when it fell asleep (`KillByPid`).

## Model

| member | source | states |
|---|---|---|
| `RedoLog.HeaderRoundTrip` | log.c:85-113 | reading a header block back gives exactly the list that was written, whatever the block held before |
| `RedoLog.RecoverHome` | log.c:115-122 | recovery makes of every home block what the logged slots say, independently of the log region |
| `RedoLog.RecoveryCrash` | log.c:69-122 | a recovery cut off after any k of its writes leaves a mountable disk from which recovery reaches the same home blocks |
| `RedoLog.RecoveryIsIdempotent` | log.c:69-122 | any number of crashed recoveries, each cut anywhere, changes nothing about what a completed one reaches |
| `RedoLog.CommitCrash` | log.c:177-202 | after any k of commit's 2n+2 block writes, recovery gives all old home blocks if the header was not yet written and all new ones once it was |
| `LogProtocol.ReservedStep` | log.c:125-174 | every step of any operation keeps header length plus all unspent budgets within LOGSIZE and the header free of duplicates |
| `LogProtocol.GroupCommit` | log.c:125-174 | in every run: that bound, no duplicates, committing implies nobody is inside an operation, hence end_op never meets a commit in progress |
| `LogProtocol.NoFreshPanic` | log.c:213-233 | with LOGSIZE data slots, no run stops an operation that still has budget to add a block |
| `LogDurability.StepInv` | log.c:69-233 | the durability invariant survives every step, crash and recovery steps included, but for a write past the end of the log |
| `LogDurability.CommitInstallsTrace` | log.c:192-202 | a committed transaction installs exactly the replay of everything logged so far |
| `LogDurability.RecoveryYieldsWholeOperations` | log.c:115-202 | after every run in which no commit has written past the end of the log, recovering the disk gives the initial image replayed with a prefix of the logged writes in which each operation is whole and ended or absent |
| `LogDurability.ShelteredLogIsAtomic` | log.c:115-202 | the same after every run whatsoever, for a log with at least NBUF - 1 data slots, with none, or at the end of the disk |
| `LogDurability.DurableOnlyGrows` | log.c:69-202 | what recovery would restore is only ever extended, by any step, crashes included |
| `LogDurability.CommitReturnsDurable` | log.c:145-202 | when commit is over every write logged so far is durable and the home blocks are their replay |
| `LogDurability.StuckIffAllPinned` | log.c:69-202 | a commit or recovery under way can take its next step, except exactly at the first log write of a commit that finds all NBUF buffers pinned, and behind a full log if the next block is off the disk or the very one to be copied |
| `LogDurability.ReadSeesLastLogged` | log.c:204-233 | outside recovery, reading a home block gives the last contents logged for it, also in the middle of a commit |
| `LogLimits.ReservationHonestIffRoomy` | log.c:132-139 | no run stops an operation within its budget, if and only if the log has LOGSIZE data slots |
| `LogLimits.OverrunIffCramped` | log.c:218-230 | some run logs more blocks than the log has slots, if and only if it has at least one and fewer than LOGSIZE data slots |
| `LogLimits.OverrunAtMostTwo` | log.c:125-230 | in every run the list is at most two longer than the log has slots |
| `LogLimits.StraysIffExposed` | log.c:177-190 | in some run write_log writes a block outside the log, if and only if the log has at least one and at most NBUF - 2 data slots and a block behind it |
| `LogLimits.AtomicIffSheltered` | log.c:115-202 | after every run a crash leaves what recovery turns into a prefix of whole operations, if and only if the log is not of that kind |
| `LogLimits.ShortLogTears` | log.c:177-202 | an empty disk with a log of ten slots and a run after which recovery gives no prefix of whole operations |
| `LogLimits.CommitSticksIffLong` | log.c:177-202 | some run ends in a commit that finds every buffer pinned, if and only if the log has at least LOGSIZE - 2 data slots |
| `LogLimits.EdgeTears` | log.c:177-190 | the write of the block behind the log leaves a disk that recovery turns into no prefix of what was logged |
| `LogLimits.MkfsLog` | mkfs.c:25-25 | on a log of the size mkfs makes, some run stops an operation within its budget and some run leaves a commit without a buffer, but none writes past the log and all are crash-atomic |
| `LogLimits.AbsorbedWriteCanPanic` | log.c:218-224 | however large the log, a run in which rewriting an already logged block is stopped |
| `BufferCache.UnlinkOk` | bio.c:132-133 | unlinking in place turns the doubly linked ring into the ring without that buffer |
| `BufferCache.PushFrontOk` | bio.c:134-137 | linking in place turns the ring into the ring with that buffer first |
| `BufferCache.MoveKeepsRecency` | bio.c:129-138 | moving a released buffer to the front keeps the ring in order of release |
| `BufferCache.BCache.constructor` | bio.c:38-56 | binit links all NBUF buffers into one ring, all with the boot key and none valid |
| `BufferCache.BCache.FindCached` | bio.c:68-76 | a buffer with the key, or proof that there is none in the whole cache |
| `BufferCache.BCache.FindRecyclable` | bio.c:78-92 | among all unreferenced clean buffers the one released longest ago, or proof that there is none |
| `BufferCache.BCache.Bget` | bio.c:61-93 | at most one buffer per key stays true; only an unreferenced clean buffer is ever recycled; it panics exactly when the key is not cached and no buffer is recyclable |
| `BufferCache.BCache.Bread` | bio.c:96-106 | a referenced valid buffer with the block's current contents, pinned or on disk; no block's contents and no dirty buffer changes |
| `BufferCache.BCache.Bwrite` | bio.c:109-116 | exactly that block of the disk becomes the buffer's data and the cache stays coherent with the disk |
| `BufferCache.BCache.Brelse` | bio.c:120-141 | one reference less; the last one makes the buffer the most recently released of the ring, which stays a ring of all buffers |
| `BufferCache.BCache.MoveToFront` | bio.c:132-137 | the in-place pointer changes give the ring with the buffer first and the order of the others kept |
| `LogFile.CopyBlock` | log.c:69-82 | one loop turn of write_log or install_trans writes exactly the source block's current contents to the target and nothing else, whoever else has buffers in use; it fails only for want of buffers that are neither pinned nor referenced |
| `LogFile.SpareIffShort` | bio.c:80-92 | while exactly the logged blocks are dirty and nobody references a buffer, another one can be had if and only if fewer than NBUF blocks are logged |
| `LogFile.Log.WriteLog` | log.c:177-190 | the disk changes by exactly the log-slot writes in order, with the pinned contents; gets through exactly when nothing is logged or some buffer is neither pinned nor referenced, however many buffers readers have |
| `LogFile.Log.WriteHead` | log.c:101-113 | one write: the header block with the in-memory list encoded in it |
| `LogFile.Log.ReadHead` | log.c:85-96 | the in-memory list is the one on disk; nothing else changes |
| `LogFile.Log.InstallTrans` | log.c:69-82 | the disk changes by exactly the home writes in order, each with its slot's contents; no buffer is left dirty and every reader keeps its reference |
| `LogFile.Log.Commit` | log.c:192-202 | issues exactly the write sequence that `RedoLog.CommitCrash` is about and ends with an empty log; it panics exactly when something is logged and every buffer is pinned or referenced |
| `LogFile.Log.RecoverFromLog` | log.c:115-122 | issues exactly the write sequence that `RedoLog.RecoveryCrash` is about and ends with an empty log |
| `LogFile.Log.LogWrite` | log.c:213-233 | succeeds exactly under its two tests; the block is then in the header once, the dirty buffers are exactly the header's blocks, and only that block's contents have changed |
| `LogProtocol.ReservedBegin` | log.c:125-141 | admitting an operation under begin_op's test keeps header length plus all unspent budgets within LOGSIZE |
| `LogFile.Log.EndOp` | log.c:145-174 | the last operation out commits all pinned contents to disk, an earlier one changes nothing but the count; panics exactly when a commit is in progress or the commit that is due finds no buffer |
| `Inodes.PlaceOwned` | fs.c:372-400 | giving a free block to an empty slot keeps slots and owners a one-to-one match |
| `Inodes.PlaceByte` | fs.c:372-400 | allocation changes no byte of any file |
| `Inodes.WriteByte` | fs.c:500-503 | writing the bn-th block of a file changes those bytes of that file and no byte of any other |
| `Inodes.EmptyOwned` | fs.c:407-435 | dropping all of an inode's slots frees exactly its blocks and changes no byte of the others |
| `FileSystem.Fs.Balloc` | fs.c:56-78 | the lowest free block, marked, zeroed and logged; fails exactly when none is free |
| `FreeBlocks.FreePicks` | fs.c:56-78 | taking the lowest free block so many times leaves exactly so many fewer free blocks |
| `FileSystem.Fs.Bmap` | fs.c:372-400 | the block of that index, direct or indirect; existing blocks are found without any change, new ones are the lowest free, no file's bytes change, the bitmap stays exact; succeeds if and only if the index is below the largest file and as many blocks are free as the block and its table lack |
| `FileSystem.BitmapFree` | fs.c:81-95 | the bit of a block that a file has is set, so bfree does not panic on it, and clearing it keeps the bitmap exact for the owners that remain |
| `FileSystem.Fs.Itrunc` | fs.c:407-435 | frees exactly the inode's blocks, never reaches the free-block panic, leaves the inode with its type and links, size 0 and no address, writes it through, leaves every other file's bytes, and logs exactly the bitmap blocks of the freed blocks and the inode's block |
| `FileSystem.Fs.Ilock` | fs.c:287-312 | the cached inode is the disk one if it was not cached before; write-through state is kept; fails exactly on a free inode |
| `FileSystem.Fs.Ialloc` | fs.c:194-214 | the lowest inode free on disk becomes an empty one of the type, which no file or cache entry uses |
| `FileSystem.Fs.Idrop` | fs.c:331-352 | the last reference to an unlinked inode frees all its blocks and the inode; the file system stays sound; logs what itrunc logs |
| `TruncBound.TruncFitsIffFewBits` | fs.c:407-435 | truncating a file fits the budget of an operation if and only if its blocks lie in at most MAXOPBLOCKS - 1 bitmap blocks |
| `TruncBound.SmallDiskFits` | fs.c:407-435 | it always fits on a disk of at most MAXOPBLOCKS - 1 bitmap blocks |
| `TruncBound.WideDrop` | fs.c:331-352 | a sound file system on a larger disk on which the last iput of a 12-block file logs 13 blocks |
| `FileSystem.Fs.constructor` | mkfs.c:108-115 | an empty file system is sound: a bit is set exactly for metadata |
| `FileSystem.Fs.Mount` | fs.c:171-187 | a disk whose bits, inodes and blocks agree is a sound file system with an empty inode cache |
| `FileBytes.ReadStretch` | fs.c:466-474 | the piece of a block that a turn of readi copies is that piece of the file, and the block is always there |
| `FileBytes.PaceBound` | fs.c:495-509 | a write of n bytes takes so few turns and new blocks that they sum to at most 2 * ceil(n / BSIZE) + 1, because a file has no holes |
| `FileBytes.LogBudget` | fs.c:481-511 | data, bitmap, indirect and inode blocks logged by a write are at most 2 * ceil(n / BSIZE) + 4 distinct blocks |
| `FileData.Readi` | fs.c:452-476 | exactly the slice of the file, cut at its end; the error cases exactly; bmap never allocates here and nothing changes |
| `FileData.Writei` | fs.c:481-511 | the file becomes its old contents with src spliced in at off, every other file keeps its bytes, the bitmap stays exact, there are no holes, inodes equal to their disk copies stay so; the error cases exactly; panics if and only if fewer blocks are free than the range and its table lack |
| `FileWrite.SpliceTwice` | file.c:133-150 | two writes back to back are one write of the concatenation |
| `FileWrite.Transaction` | file.c:138-145 | one begin_op/end_op pair logs at most MAXOPBLOCKS distinct blocks on a disk of any size, and its effect is one splice; every outcome with its exact condition |
| `FileWrite.WriteFile` | file.c:117-156 | the whole chunked write is one splice of src and advances the offset by its length, or of the part before the first chunk that would pass the largest file; a write that fits is done whole if and only if enough blocks are free; every transaction logs at most MAXOPBLOCKS blocks, one per chunk; on a file that is not writable, or with nothing to write, nothing at all changes, and on a device no block, inode or offset |
| `WriteBound.BudgetIsTight` | file.c:126-132 | a full chunk written half a block before the end of the direct blocks logs exactly MAXOPBLOCKS blocks when the free blocks lie in four bitmap blocks |
| `WriteBound.TightDiskExists` | fs.h:14-48 | such a sound file system exists, with enough free blocks |
| `WriteBound.EdgeWrite` | fs.c:481-511 | writei of a full chunk in such a state completes and has logged exactly MAXOPBLOCKS blocks |
| `WriteBound.TightWrite` | file.c:126-145 | a mounted disk on which writei of any CHUNK bytes returns with exactly MAXOPBLOCKS blocks logged |
| `BitmapBytes.SetAlone` | fs.c:65-69 | setting a block's bit in the bytes of a bitmap block changes that bit alone |
| `BitmapBytes.ClearAlone` | fs.c:88-92 | clearing a block's bit changes that bit alone |
| `Links.LinkCounts` | sysfile.c:118-165 | linking keeps every count equal to the number of entries that count, if and only if the directory is live |
| `Links.CreateInv` | sysfile.c:241-283 | creating keeps counts, unique names, dot entries and parents, if and only if the parent's count is positive |
| `Links.UnlinkInv` | sysfile.c:184-239 | unlinking a file or an empty directory keeps all of that |
| `Links.EmptyDirRefs` | sysfile.c:206-230 | an empty directory is named by its one slot and by nothing else, and is neither the root nor the directory it is in |
| `Links.ParentTwice` | sysfile.c:206-230 | unlinking a directory finds its count 1 and its parent's at least 2, so neither decrement goes wrong |
| `Links.DropInv` | fs.c:331-352 | freeing an inode without links keeps the invariant |
| `Links.DeadParentBreaks` | sysfile.c:241-283 | a sound tree and a create in a removed directory after which a count is wrong |
| `Directories.RootAlone` | mkfs.c:117-128 | the tree that mkfs starts from satisfies the invariant |
| `Directories.Tree.Dirlookup` | fs.c:524-548 | the first slot in use whose name agrees with the given one byte by byte over 14 bytes, or none if no slot does |
| `DirNames.Namecmp` | string.c:58-66 | the loop over at most 14 bytes returns 0 if and only if the two agree in all of them, NUL and beyond included |
| `DirNames.SameNameIffCut` | fs.c:515-519 | it is 0 between a name and a stored one, if and only if the stored one is the first 14 bytes of the name |
| `DirNames.ShortNames` | fs.c:515-519 | names of at most 14 bytes are the same entry if and only if they are equal |
| `Directories.Tree.Dirlink` | fs.c:551-578 | refuses exactly a name that is there; otherwise fills the first empty slot or appends one; panics exactly when the directory is full; afterwards the name, and every one with the same 14 bytes, leads to the inode and every other name where it led |
| `Directories.Tree.IsDirEmpty` | sysfile.c:167-181 | true exactly when no slot after the dot entries is in use |
| `Directories.Tree.Iput` | fs.c:331-352 | frees the inode exactly when it has no links and no other holder; afterwards every unlinked inode left is held |
| `Directories.Tree.Link` | sysfile.c:118-165 | fails exactly without a file, for a directory, without a parent or on a name in use, and then undoes the count exactly; a success makes exactly the names of the same 14 bytes lead to the file and keeps the invariant if and only if the parent is live; panics exactly on a full directory |
| `Directories.Tree.UnlinkSlot` | sysfile.c:202-216 | the checks of unlink fail exactly for a dot name, a name that is not there or a directory that is not empty; the count below 1 is never met |
| `Directories.Tree.Unlink` | sysfile.c:184-239 | fails exactly without a parent or for those reasons and then without effect, or clears the slot and adjusts both counts, after which the name leads nowhere and every other where it led; never panics; keeps the invariant |
| `Directories.Tree.Create` | sysfile.c:241-283 | without a parent or on a name in use, refuses, or finds the regular file that the name leads to, without effect, as the kinds say; otherwise adds one inode of the kind and one entry that makes the name lead to it and no other name elsewhere, with dot entries and the parent's count for a directory, or panics exactly when no inode or no slot is left; keeps the invariant if and only if the parent is live |
| `Directories.Tree.Make` | sysfile.c:260-282 | the same for a name that is not in the directory, with the panics exactly |
| `Directories.Tree.Ialloc` | fs.c:194-214 | the lowest number not in use, or none left |
| `DirBytes.NameRoundTrip` | fs.h:53-56 | a name padded to 14 bytes reads back, also when it fills them all |
| `DirBytes.EntryRoundTrip` | fs.h:53-56 | the 16 bytes of an entry decode to that entry |
| `DirBytes.Strncpy` | string.c:68-79 | the two loops leave the string up to its NUL and then NULs in the n bytes, and no other byte changed |
| `DirBytes.StoredName` | fs.c:572-575 | the 16 bytes that dirlink writes decode to the entry with the name cut to 14 bytes and are its encoding; comparing with them gives 0 for exactly the names with the same 14 bytes |
| `DirBytes.SameFieldIffName` | fs.c:536-538 | comparing a name with the bytes of a slot up to their NUL is comparing it with the name decoded from them |
| `DirBytes.SlotWrite` | fs.c:551-578 | writing an entry's bytes at a slot's offset of the file sets that slot, or adds one at the end, and keeps all others |
| `ProcessTheorems.StepInv` | proc.c:180-497 | every step of every process and CPU keeps placement on CPUs, sleep-lock state and family relations consistent |
| `ProcessTheorems.NoLostWakeup` | proc.c:417-474 | in every run a process asleep in acquiresleep waits for a lock that is held or whose releaser still has its wakeup ahead |
| `ProcessTheorems.SleepLockExcludes` | sleeplock.c:22-53 | in every run at most one process holds a sleep-lock, it is marked locked exactly while held, and holdingsleep is true exactly for the holder |
| `ProcessTheorems.OneCpuPerProcess` | proc.c:322-382 | in every run a process is current on at most one CPU, and then has its kernel stack |
| `ProcessTheorems.ReapIsSafe` | proc.c:272-312 | in every run, a child that wait frees is on no CPU, has switched away for good, was never reaped, has the caller for parent, and is nobody's parent |
| `ProcessTheorems.ReapedOnce` | proc.c:272-312 | in every run no pid is returned twice by wait, a returned pid is never in use again, and live pids differ |
| `ProcessTheorems.NoForgottenZombie` | proc.c:227-312 | in no run does a parent sleep in wait while it has a zombie child |
| `ProcessTheorems.EveryoneHasALiveParent` | proc.c:227-268 | in every run every process but init has a live parent |
| `ProcessTable.WakeupScan` | proc.c:457-465 | the loop makes exactly the sleepers on the channel RUNNABLE and changes nothing else of any slot |
| `ProcessTable.AdoptScan` | proc.c:253-260 | the interleaved loop equals one wakeup of init, if there is a zombie child, followed by the adoption of all children; per slot, only the parent of the caller's children and init's sleep change |
| `ProcessTable.ExitScan` | proc.c:247-260 | exit's table changes, as the step of the transition system has them |
| `ProcessTable.FindUnused` | proc.c:73-116 | the first unused slot, or none |
| `ProcessTable.WaitScanTable` | proc.c:282-309 | the first zombie child, else whether there is any child |
| `ProcessTable.KillScan` | proc.c:479-497 | exactly the first slot with the pid is marked; it is not asleep afterwards, and RUNNABLE if it was; every other slot and state is kept; this is the step of the transition system |
| `KillByPid.StepStale` | proc.c:73-116 | every step keeps the pids left behind in unused slots different from those of slots in use |
| `KillByPid.KillHitsIffInUse` | proc.c:479-497 | in every run the slot that kill finds for a pid is in use if and only if some slot in use has the pid, and then it is that one |
| `KillByPid.BornKilledIffHitIdle` | proc.c:180-220 | in every run a process that fork makes runnable is killed already, if and only if kill hit its slot while it was unused or being set up |
| `KillByPid.BornKilled` | proc.c:73-116 | a run from boot in which kill of pid 0 marks an unused slot and the process forked there starts out killed |
| `KillByPid.AsleepKilledIffBefore` | proc.c:417-497 | in every run a process is asleep and killed, if and only if it was killed when it last fell asleep |
| `KillByPid.KillLostIffDozesOff` | proc.c:417-447 | a step leaves a killed process asleep, if and only if it is a killed process going to sleep in acquiresleep or another subsystem; wait looks at the mark first |
| `Parentage.ParentIsMaker` | proc.c:180-268 | in every run the parent of a process is the one that forked it, and init once that one has exited, as a record of forks, exits and waits alone tells |
| `Parentage.WaitReturnsOwn` | proc.c:272-312 | in every run wait returns a child that the caller forked, or to init one whose maker has exited |
| `Kalloc.SameOwnersSameFree` | kalloc.c:59-95 | the pages in use determine the free ones: what a failing caller gives back is free again |
| `Kalloc.Kmem.KAlloc` | kalloc.c:82-95 | takes a page that nobody has off the list; null exactly when the list is empty |
| `Kalloc.Kmem.KFree` | kalloc.c:59-77 | the page goes to the head of the list threaded through the pages; panics exactly outside the managed range or off a page boundary |
| `Kalloc.Kmem.FreeRange` | kalloc.c:46-53 | frees exactly the whole pages inside the range |
| `PageTables.WithPteAt` | vm.c:35-80 | a store through the two levels changes that entry of that directory and no other entry of any |
| `PageTables.MapUser` | vm.c:60-80 | mapping an unused page keeps every page with exactly one owner |
| `PageTables.InstallTable` | vm.c:44-52 | a new table page keeps that too |
| `PageTables.DropDir` | vm.c:283-298 | taking one address space away leaves every entry of every other |
| `Vm.WalkPgDir` | vm.c:35-55 | finds or makes the table of a page; no entry of any directory changes; fails exactly when there is none and it may or can not make one |
| `Vm.MapPages` | vm.c:60-80 | maps every page the range touches in order with consecutive frames, spending exactly the tables that were lacking; failing leaves exactly the first ones mapped, and only when the free pages could not pay for all tables; the remap panic only on a present entry |
| `PageBudget.PaidPrice` | vm.c:35-80 | what a run of mapped pages has cost is the number of tables its range lacked in the directory it started from |
| `PageBudget.TooFewPrice` | vm.c:35-80 | a run that stops short did so with fewer free pages than that price |
| `Vm.DeallocUvm` | vm.c:255-279 | the loop that skips whole tables frees the same pages in the same order as a page-by-page scan of [RoundUp(newsz), oldsz), and touches nothing else |
| `Vm.SkipAddress` | vm.c:266-269 | the skip lands on the next table's first page and does not wrap |
| `AddressSpaces.FreeVm` | vm.c:283-298 | every page of the address space is free and every other page in use keeps its use and contents |
| `AddressSpaces.AllocUvm` | vm.c:221-249 | zeroed pages for exactly the new range, if and only if none of it was mapped and the free pages suffice for its pages and the tables they lack; otherwise the panic on the first mapped page if the free pages suffice to get there, and else 0 with the whole range unmapped and all other pages kept |
| `AddressSpaces.Undone` | vm.c:234-246 | deallocuvm takes away what allocuvm's loop added, wherever it stopped, and every page that was mapped in the range before |
| `AddressSpaces.UndoneIffVacant` | vm.c:234-246 | a failed allocuvm leaves the user mapping and the user pages exactly as before, if and only if no page of the range was mapped |
| `AddressSpaces.RowsDisjoint` | vm.c:105-115 | no page is in two rows of kmap, so setupkvm cannot panic on a remap |
| `AddressSpaces.SetupKvm` | vm.c:118-136 | a new address space with exactly the kernel's mappings, or no page taken; it succeeds if and only if 65 pages are free, a directory and 64 tables |
| `AddressSpaces.CopyUvm` | vm.c:315-345 | a child with equal contents and flags on pages of its own, or no page taken; fails if and only if the free pages do not suffice for directory, kernel tables, and user pages and tables up to the first page that is not present; otherwise panics if and only if there is such a page |
| `AddressSpaces.CopyIsDisjoint` | vm.c:315-345 | parent and child share no user page |
| `Growth.Proc.GrowProc` | proc.c:158-175 | every outcome and the new size exactly, 32-bit addition included; a size that fits the page table fits it again, if and only if the request is not minus the whole size; then it cannot panic; outside the range between old and new size every page keeps its frame, flags and contents, and pages added are zeroed and writable by the user |
| `Growth.OthersKept` | proc.c:158-175 | what growproc is confined to leaves every entry and every page of every other address space |
| `Growth.ForkSpace` | proc.c:190-198 | with a size that fits the page table copyuvm gives a child with equal contents on pages of its own, or fails for want of memory and has changed nothing, exactly, and never panics |
| `Growth.GiveBackAndFork` | proc.c:158-198 | after growproc of minus the whole size, fork panics if the free pages suffice for an empty address space and fails otherwise |
| `FreeLists.InsertBytes` | umalloc.c:24-44 | freeing makes exactly the freed bytes free, merging included |
| `FreeLists.InsertSorted` | umalloc.c:24-44 | the merged list is sorted and no two free blocks abut |
| `FreeLists.TakeBytes` | umalloc.c:75-84 | carving removes exactly the bytes handed out |
| `FreeLists.FindSlot` | umalloc.c:30-32 | the search of free has one and only one place to stop |
| `FreeLists.CarveThenRelease` | umalloc.c:24-90 | freeing a block just carved out gives back the very same free list |
| `Umalloc.RoomIffNoWrap` | umalloc.c:63-70 | the number of units computed in 32 bits has room for the request if and only if it is at most 2^32 - 8 bytes; beyond, it is one unit |
| `Umalloc.BackedIffSmall` | umalloc.c:46-56 | sbrk's int argument is the size entered in the list, if and only if the request is at most 2^31 - 16 bytes or has wrapped |
| `Umalloc.LargestRequest` | umalloc.c:63-90 | malloc(2^32 - 1) returns a block of one unit, which has no room for it |
| `Umalloc.NegativeRequest` | umalloc.c:46-56 | a malloc that asks sbrk for -2^31 bytes and uses the region as if it were 2^31 bytes long |
| `Umalloc.Heap.Search` | umalloc.c:24-32 | the walk round the ring from any freep ends at that one place |
| `Umalloc.Heap.Free` | umalloc.c:24-44 | the block joins the list, merged; free and allocated blocks still tile the arena, disjoint, and the headers in memory form that list |
| `Umalloc.Heap.MoreCore` | umalloc.c:46-61 | the new region is tiled in and a block of at least n units is free; without memory nothing changes; the argument of sbrk exactly |
| `Umalloc.Heap.Find` | umalloc.c:63-90 | the search terminates at the first block after freep, going round, that is large enough; it asks for memory at most once, and if and only if no free block is large enough |
| `Umalloc.Heap.Malloc` | umalloc.c:63-90 | for every 32-bit size: null exactly when memory was needed and refused; otherwise a new block, disjoint from all others, with room for the request if and only if it is at most 2^32 - 8 bytes; it is the tail of the next fit if there is one; the tiling is kept |
| `Pipe.FifoForEver` | pipe.c:78-121 | in every run with any readers and writers, bytes read followed by bytes held are the bytes written, in order, at most 512 held |
| `PipeLedger.EveryByteAccounted` | pipe.c:78-121 | in every run the bytes each writer has put in are exactly the first i of its buffer, each once and in order, those of a finished one all of it if it returns its length, and what the readers got, in the order of their turns, is what was taken out |
| `PipeLedger.WriterDelivers` | pipe.c:78-121 | the same for every run from an empty pipe and any one thread |
| `PipeLedger.WriterStops` | pipe.c:84-94 | a writer's turn ends the call with the full length exactly if the rest fits; otherwise the pipe is full and it sleeps, or returns -1 exactly if killed or without readers |
| `PipeLedger.ReaderStops` | pipe.c:105-118 | a reader sleeps, or returns -1 exactly if killed, on an empty pipe with writers; otherwise it returns the next bytes, as many as it asked for or all there are |
| `Pipe.StepWriters` | pipe.c:78-121 | no step leaves a writer asleep that the pipe lets go on |
| `Pipe.ReaderLostIffSlips` | pipe.c:86-88 | a step leaves a reader asleep that the pipe lets go on, if and only if a killed writer fills the pipe and leaves |
| `Pipe.KillLostIffMisses` | proc.c:479-497 | a step leaves a killed thread asleep or on its way to sleep, if and only if it is a kill between the thread's test and its sleep |
| `Pipe.MissedSleeps` | proc.c:417-447 | such a thread stays on its way to sleep whatever the others do, and then sleeps, killed |
| `Pipe.NobodyLeftAsleep` | pipe.c:59-121 | in a run nobody ever sleeps that could go on, if and only if the run has no step of these two kinds |
| `Pipe.LostReader` | pipe.c:86-88 | a concrete run that leaves a reader asleep on a full pipe |
| `Pipe.LostKill` | pipe.c:105-112 | a concrete run that leaves a killed reader asleep |
| `Pipe.WrapDecides` | pipe.c:84-108 | full and empty are decided rightly by counters that have wrapped at 2^32 |
| `Pipe.WrapKeepsSlot` | pipe.c:92-115 | a wrapped counter still finds its byte's slot |
| `Pipe.Ring.Write` | pipe.c:78-98 | one turn of pipewrite on the ring with wrapping counters does what it does on the unbounded queue |
| `Pipe.Ring.Read` | pipe.c:100-121 | the same for piperead |
| `Pipe.Ring.CloseEnd` | pipe.c:59-75 | closes that end and no other, and wakes as on the queue; the page is given back exactly when both ends are closed |
| `Pipe.Ring.Replay` | pipe.c:59-121 | any schedule of turns on the ring ends as on the queue, so the theorems above are about the ring |
| `Grep.Match` | grep.c:72-82 | true if and only if some start, only 0 after ^, admits a decomposition of the text by the pattern |
| `Grep.MatchHere` | grep.c:85-96 | true if and only if the text decomposes at its start |
| `Grep.MatchStar` | grep.c:99-106 | true if and only if some run of the character can be cut off so that the rest of the pattern matches |
| `Grep.StarlessMatch` | grep.c:85-96 | a pattern without stars matches if and only if the text starts with its characters, a dot standing for any, and ends there if the pattern ends with $ |
| `Grep.StarMatch` | grep.c:99-106 | a starred character in front of a pattern matches if and only if after some number of that character, or of any for a dot, the pattern matches |

## Left out

- Disk, console, serial, keyboard and interrupt controller drivers, boot code and assembly: hardware.
- Spinlock internals and memory ordering: acquire and release are taken as atomic, interrupts are not modelled.
- System call dispatch, traps, exec, argument fetching, the shell and other user programs: they would add easy members over the parts modelled.
- Path lookup (namei, nameiparent): link, unlink and create get the inodes it finds as parameters, and `Tree.held` says who else holds an inode.
- grep's reading of lines: it drops partial lines on short reads, so only the matcher is modelled.
- The inode cache as a table with recycling: a cached inode is a map entry; ilock, ialloc and iput are modelled on it.
- Device inodes: readi and writei report them and do not call the driver.
- Bitmap and inode blocks of the file system model are bits and records, `BitmapBytes` ties bits to bytes; log.c and bio.c are proved over whole blocks.
- Link-count overflow, pid overflow and dirent numbers above 65535 are not modelled.
- The root directory that mkfs rounds up is taken without the hole it leaves when its size is already a multiple of a block.
- LogProtocol.NoFreshPanic: speaks of operations that add blocks, because a rewrite can be stopped (`LogLimits.AbsorbedWriteCanPanic`).
- LogFile.Log.Commit: lists that fit the log; longer ones are in `LogProtocol`, `LogDurability` and `LogLimits`, and so is the interleaving of log operations. Readers keep the buffers that they have while it runs, and none of these is of the log region; waiting for a reader's lock on a home block is not modelled.
- LogLimits.StraysIffExposed: for a disk with at least LOGSIZE blocks outside the log, as the other limits are, so that the log can be filled.
- LogProtocol.ReservedBegin: that a sleeping operation is eventually admitted is not stated.
- BufferCache.BCache.Bget: excludes the key (0, 0) that all buffers carry at boot and that no caller asks for.
- FileWrite.WriteFile: the file is written by one caller; other operations between two chunks are not interleaved.
- Directories.Tree.Link: system calls run one after the other; so do unlink and create.
- ProcessTheorems.StepInv: fork may take any unused slot and kill any slot at any time, more than the table scans do; the scans are in `ProcessTable`. That a process exits holding no sleep-lock and releases only a sleep-lock it holds is taken from the callers, as exit and releasesleep do not check it.
- Vm.MapPages: after a remap panic nothing is stated about memory.
- AddressSpaces.AllocUvm: after the panic of mappages nothing is stated about memory.
- AddressSpaces.SetupKvm: the boundary of the kernel's data is a parameter within the kernel's memory.
- Umalloc.Heap.Malloc: sbrk returns addresses at or above the last break, and the region is taken to be as long as malloc enters it in its list also where `Umalloc.BackedIffSmall` says that sbrk was asked for something else.
