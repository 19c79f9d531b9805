# A verified model of xv6

A Dafny model of the parts of xv6 whose correctness is hard to see from one function, with proofs of
what they are for. `dafny verify dfyconfig.toml` checks all of it.

- **Log and buffer cache.** `log_protocol.dfy` is a step system: any number of processes run operations,
  each step is what a lock, a held buffer or one disk write makes atomic, and the machine may crash between
  any two steps. `log_safety.dfy` shows that its steps are those of the disk of `atomic_disk.dfy`, on which
  operations become durable at once; `log_theorems.dfy` and `log_runs.dfy` draw the conclusions for whole
  runs; `log_budget.dfy` and `log_reach.dfy` say exactly when the log has room; `crash_runs.dfy`,
  `crash_locks.dfy`, `crash_tree.dfy` and `crash_blocks.dfy` carry file-system invariants over crashes, for
  operations one after the other and for operations whose writes interleave; `crash_files.dfy` shows what a
  crash in the middle of a write leaves of it. `log.dfy` and `bio.dfy` are the code of log.c and bio.c in
  place, the doubly linked list included.
- **File system.** `bitmap.dfy`, `block_map.dfy` and `fs.dfy` are the block allocator, the block maps and
  byte-level reads and writes, against files as byte sequences; `file.dfy` splits writes into transactions;
  `libfs.dfy` is the truncate of the host tools. `dir_tree.dfy` and `dirs.dfy` are the directory tree and its
  link counts, `paths.dfy` path names, `ref_counts.dfy` and `refs.dfy` open files and cached inodes.
- **Processes.** `proc_steps.dfy` is a step system over any number of CPUs and processes, with the locks and
  the interrupt flag; `proc_inv.dfy`, `proc_family.dfy` and `proc_theorems.dfy` prove its invariant,
  `proc_kill.dfy` what becomes of the mark of kill and `proc_effects.dfy` what kill, wakeup, exit and wait do
  to each slot; `proc.dfy` has the table scans in place; `pipe.dfy` is the ring buffer.
- **Memory.** `free_list.dfy` and `umalloc.dfy` are malloc and free over headers in memory; `page_map.dfy`,
  `vm.dfy` and `vm_alloc.dfy` are the frame pool and the two-level page tables.
- **User programs.** `shell_lexer.dfy`, `shell_grammar.dfy` and `sh.dfy` are the shell's parser with its
  buffer, `shell_print.dfy` reads its commands back, `grep.dfy` is the pattern matcher.

## Findings

Properties that do not hold of the code, each with the exact condition for it to hold and with a case where
it does not.

- *The log header is not overrun.* log_write tests for room before it takes the lock, so two calls can pass
  the tests for one block of room. It holds for uninterrupted calls (`LogRuns.UninterruptedRun`) and, with
  interleaving, if and only if Top(budget) <= Limit(size) or there are at most Limit(size) buffers, where
  Limit(size) is the smaller of LOGSIZE and size - 1 and Top(budget) is MAXOPBLOCKS + 2 * budget, or
  3 * budget above MAXOPBLOCKS (`LogRuns.BudgetRun`, `LogReach.OverrunReachable`). The code's own values fail
  it (`LogReach.AsConfigured`), and so does every log size for larger operations (`LogReach.EntriesOverrun`).
- *An operation within its budget never meets the panic of log_write.* Exactly under Top(budget) <= Limit(size)
  or fewer than Limit(size) buffers (`LogBudget.NoPanic`, `LogReach.PanicReachable`); for a block that is
  logged again exactly under Top(budget) < Limit(size) or as few buffers (`LogBudget.NoPanicAgain`,
  `LogReach.PanicAgainReachable`). A chunk of filewrite logs up to 17 blocks, more than MAXOPBLOCKS, and two
  of them reach the panic (`LogReach.TwoChunks`).
- *Commit always finds its buffers.* Exactly when one buffer is neither pinned nor held
  (`LogTheorems.CommitReads`); a transaction can pin them all (`LogReach.CommitStuck`).
- *Creating a name keeps the link counts.* If and only if the parent directory is linked
  (`DirTree.EnterExact`, `DirTree.MkdirExact`; case: `DirTree.RemovedDirectory`).
- *malloc uses only memory it obtained.* For requests up to 0x7fffffe0 bytes or where a free block fits
  (`Umalloc.Heap.Malloc`); beyond, sbrk's int argument wraps (`Umalloc.WholeRequests`, `Umalloc.HugeRequest`,
  `Umalloc.ShortBreaks`).
- *A path leads to allocated inodes.* From a linked directory always (`Paths.WalkStays`); in general exactly
  unless it goes up by ".." through removed directories to a freed one, where ilock panics
  (`Paths.WalkExactly`, case: `Paths.RemovedParent`).
- *A new process is not marked as killed.* kill does not ask whether a slot is in use and allocproc does not
  clear the mark: exactly unless a kill found the slot since it was last given back (`ProcKill.BornKilled`,
  case: `ProcKill.KillZero`).
- *allocuvm maps what it reports.* It ignores a failing mappages: exactly unless one frame is missing and the
  last page is the first of its page table (`VmAlloc.AllocUvm`, case: `VmAlloc.OneFrame`). Such a space is
  never copied by fork, which panics once it has the frames (`VmAlloc.GrowThenFork`), and growing it again
  does not mend it (`VmAlloc.GrowTwiceThenFork`).
- *allocuvm stays in user space.* Exactly up to a size of 0x3fc00000: beyond, it or the deallocuvm that undoes
  it takes a backpointer of kernel/vm64.c for a page table (`VmAlloc.AllocUvm`, with the one exception that
  `Strays` there makes for spaces with missing page tables; case: `VmAlloc.GrowPast`).
- *deallocuvm unmaps the pages it is given.* Where it finds no page table it goes on by a table's worth of pages
  from where it is, not from the table's start: exactly unless a page it passes over is mapped, so always from
  within contiguous pages (`Vm.UnmapsExactly`, `Vm.LandsAtOnce`, case: `Vm.PassesOver`).
- *setupkvm fails cleanly.* It never fails: with three free frames or more it succeeds, and with fewer, exactly,
  it stores through a null pointer (`Vm.Memory.SetupKvm`, case: `Vm.TwoFrames`).
- *A failing copyuvm returns all frames.* Never the two upper-level pages; besides these, exactly unless the
  last frame went to a page whose page table then could not be had (`Vm.Memory.CopyUvm`, case:
  `Vm.FourFrames`).
- *A sleeping reader faces an empty pipe.* A writer that leaves a full pipe because it was killed or the read
  end is closed wakes nobody: exactly unless a reader sleeps, the bytes do not fit and one of these is so
  (`Pipe.PipeDev.Write`, case: `Pipe.StrandedRun`).

## Hypotheses

- One disk; file-system code reads and writes home blocks through the log only. iderw is one atomic step.
- Some block below the log is free whenever balloc is called; the methods of `fs.dfy` say so as `Full()`
  otherwise, where the kernel would panic or allocate in the log.
- A file has exactly the blocks its size needs. writei and itruncate keep this.
- Spaces have no page from 0x3fa00000 on where freevm and copyuvm are called, since freevm stops there; the
  frames below PHYSTOP do not suffice for more. The last two directory entries are the backpointers of
  kernel/vm64.c.
- For invariants over crashes: either the operations whose writes survive are one after the other in the
  history of the disk, or each writes only places it holds, as `crash_locks.dfy` says.
- Addresses in `umalloc.dfy` are counted in units of the header; sbrk gives memory above all it gave before.

## Model

| member | source | states |
|---|---|---|
| `LogRuns.CrashedRun` | kernel/log.c:68-121 | Crash anywhere in any run from boot that does not overrun the header, recover with any number of further crashes: the home blocks on disk are those of a history of the operations run, each whole or absent |
| `LogRuns.CutRun` | kernel/log.c:174-199 | A commit that a run has come to, cut after k disk writes and recovered: all home blocks are old when k is at most the number of logged blocks, all are new beyond, that is exactly when the header write landed |
| `LogRuns.RecoverableRun` | kernel/log.c:114-121 | Wherever a run from boot that does not overrun the header is cut off, some recovery comes to normal operation, given two buffers |
| `LogRuns.EveryRecovery` | kernel/log.c:68-121 | From there every recovery that is not cut off again takes at most LOGSIZE + 2 transfers, and is at normal operation exactly when it can go no further |
| `CrashRuns.CrashKeepsAny` | kernel/log.c:8-13 | Whatever property of the home blocks every operation of a serial history keeps whose writes survive, it holds of them after a crash anywhere in any run, inside an operation too, and recovery |
| `CrashRuns.HoldsBetween` | kernel/log.c:8-13 | It holds of the contents at every point of such a history that no operation spans |
| `CrashTree.CrashedTree` | kernel/sysfile.c:124-160 | If the operations whose writes survive are, whole, effects of create, link, unlink and iput in a serial history, the home blocks hold a directory tree with right link counts after a crash anywhere, inside an operation too |
| `CrashTree.CrashInCreate` | kernel/sysfile.c:262-275 | That covers create cut off between inode and entry, where the blocks hold no right tree |
| `CrashLocks.CrashKeepsLocked` | kernel/log.c:8-13 | Operations at the same time, writes interleaved: if each writes only places it holds, lets go of them when they are written and owes nothing at its end, then what their effects keep holds of the home blocks after a crash anywhere in any run |
| `CrashLocks.DurableOk` | kernel/log.c:8-13 | In every such run of the atomic disk the durable contents are right at all times |
| `CrashTree.CrashedCalls` | kernel/sysfile.c:116-275 | In particular a directory tree with right link counts, for calls of create, mkdir, link, unlink and iput that run at the same time, sys_link in two halves with other calls in between |
| `CrashTree.ActKeeps` | kernel/sysfile.c:130-160 | Each effect, and each half of sys_link, keeps tree and link counts up to the entries still owed |
| `CrashTree.HalfCreated` | kernel/sysfile.c:262-275 | create with the inode written and not yet the entry keeps the discipline |
| `CrashTree.EffectKeeps` | kernel/sysfile.c:192-234 | Each of these effects, taken whole, keeps the tree and all link counts |
| `CrashBlocks.CrashedBlocks` | kernel/file.c:138-143 | If the operations whose writes survive are, whole, steps of bmap, writei, itrunc and iupdate in a serial history, then after a crash anywhere no home block has two owners and the bitmap marks exactly the metadata and the owned blocks |
| `CrashBlocks.CrashedCalls` | kernel/fs.c:53-77 | The same for calls at the same time with interleaved writes, each holding the blocks, inodes and bits it changes |
| `CrashBlocks.EffectOwned` | kernel/fs.c:363-435 | Each of these steps keeps the ownership of blocks and the bitmap in agreement |
| `LogRuns.UninterruptedRun` | kernel/log.c:210-230 | A run never overruns the header, whatever its operations log, if every log_write takes the lock right after its tests |
| `LogRuns.BudgetRun` | kernel/log.c:124-140 | A run never overruns the header, however calls of log_write interleave, if each operation logs at most `budget` distinct blocks and the log has room for Top(budget) of them or there are no more buffers than room; logged blocks plus unused budgets stay within Top(budget) |
| `LogRuns.PanicFreeRun` | kernel/log.c:215-218 | In such a run log_write does not panic for an operation with part of its budget left |
| `LogRuns.BootedRun` | kernel/log.c:144-171 | In every state the header lists distinct blocks, the pinned buffers are exactly those outside commit and recovery, and during a commit no operation is under way or can start |
| `LogRuns.CoherentRun` | kernel/bio.c:99-109 | In every run bread returns the latest logged contents of the block |
| `LogRuns.WriteAheadRun` | kernel/log.c:68-81 | In every run a home block on disk changes only to contents that are already durable |
| `LogTheorems.RunRefines` | kernel/log.c:124-230 | Every run that does not overrun the header stands for a run of a disk whose operations become durable at once |
| `LogTheorems.CommitCut` | kernel/log.c:174-199 | From any state of the protocol about to commit: cut after k transfers and recovered, the home blocks are the durable ones for k <= n and the current ones for k > n |
| `LogTheorems.CrashSafe` | kernel/log.c:114-121 | Crash at any point of a run, then recover: disk and bread give exactly the durable contents of the atomic disk at that point |
| `LogTheorems.RecoveryKeeps` | kernel/log.c:114-121 | Recovery, cut and restarted any number of times, never moves the durable contents |
| `LogTheorems.RecoveryEnds` | kernel/log.c:114-121 | From every state, with two buffers, some recovery reaches normal operation |
| `LogTheorems.ReadsExactly` | kernel/bio.c:62-96 | The next disk transfer of commit or recovery can be done exactly when none of its buffers is held and they fit beside the pinned and the held ones |
| `LogTheorems.CommitReads` | kernel/log.c:174-187 | A copy of write_log can be done exactly when its home buffer is not held and one buffer is neither pinned nor held |
| `LogTheorems.WriteAhead` | kernel/log.c:68-81 | A step that changes a home block installs its durable contents from a log that a crash would replay |
| `LogTheorems.OnlyInstallWrites` | kernel/log.c:68-81 | Only install_trans writes home blocks, and what it writes is the log block |
| `LogTheorems.BreadReturnsLatest` | kernel/bio.c:99-109 | In every state with the system up, bread returns the latest logged contents |
| `LogTheorems.PinnedAreLogged` | kernel/log.c:189-230 | Outside commit and recovery the pinned buffers are exactly the listed blocks; during a commit every operation is idle and none can begin or end |
| `LogSafety.StepKeeps` | kernel/log.c:124-230 | Every step that does not overrun the header is a step of the atomic disk and keeps the invariant that relates the two |
| `LogSafety.LogIOKeeps` | kernel/log.c:68-121 | Every disk transfer keeps the current and the durable contents, except that the header write of a commit makes the current ones durable |
| `LogSafety.CrashKeeps` | kernel/log.c:114-121 | After a crash the durable contents are the current ones |
| `AtomicDisk.RunsAreAtomic` | kernel/log.c:9-21 | In every run of the atomic disk, what survives a crash holds each operation whole or not at all, and only operations that had ended |
| `AtomicDisk.ApplyContents` | kernel/log.c:9-21 | How each event moves the current and the durable contents |
| `LogBudget.NoPanic` | kernel/log.c:215-218 | With a log for Top(budget) blocks, or fewer buffers than the panic's limit, log_write does not panic in an operation that has logged less than its budget |
| `LogBudget.NoPanicAgain` | kernel/log.c:215-218 | With one block of room more it does not panic even when an operation that has used its budget logs a block again |
| `LogBudget.SpaceStep` | kernel/log.c:124-171 | Every step keeps logged blocks plus unused budgets within Top(budget), for any budget |
| `LogReach.PanicReachable` | kernel/log.c:215-218 | The condition of NoPanic is exact: for every log size, buffer count and budget that break it, a run within the budget ends at the panic |
| `LogReach.PanicAgainReachable` | kernel/log.c:215-218 | The condition of NoPanicAgain is exact |
| `LogReach.OverrunReachable` | kernel/log.c:210-230 | The condition of BudgetRun is exact: wherever it fails, two calls of log_write that both pass the tests before either takes the lock list one block too many, within the budget |
| `LogReach.AsConfigured` | kernel/log.c:210-230 | With the values of the code, a log of LOGSIZE blocks, LOGSIZE buffers and MAXOPBLOCKS blocks an operation, a run lists LOGSIZE blocks although the log has LOGSIZE - 1 data blocks; one log block more would exclude it |
| `LogReach.TwoChunks` | kernel/file.c:132-152 | Two chunks of filewrite of 17 blocks each, admitted together, reach the panic for every log size |
| `LogReach.CommitStuck` | kernel/bio.c:62-96 | When a transaction pins every buffer, commit cannot read the first log block |
| `LogHeader.DecodeEncode` | kernel/log.c:84-112 | A header that write_head wrote reads back as the list of blocks |
| `Log.EncodeHead` | kernel/log.c:100-112 | The block write_head builds decodes to the in-memory list |
| `Log.LogDevice.constructor` | kernel/log.c:52-65 | An empty log over a given disk |
| `Log.LogDevice.Bwrite` | kernel/bio.c:112-119 | The block is on disk and unpinned, and the disk after the write is on the trace |
| `Log.LogDevice.WriteHead` | kernel/log.c:100-112 | The on-disk header reads back as the in-memory one; nothing else changes |
| `Log.LogDevice.ReadHead` | kernel/log.c:84-95 | The in-memory header becomes the on-disk one |
| `Log.LogDevice.WriteLog` | kernel/log.c:174-187 | The log holds the pinned contents, and after each of its writes the disk still stands for the contents before the transaction |
| `Log.LogDevice.InstallTrans` | kernel/log.c:68-81 | Every listed block is home and unpinned, and after each write the disk stands for the same contents |
| `Log.LogDevice.InstallAndClear` | kernel/log.c:114-121 | The common end of commit and recovery: home blocks in place, header empty, every disk on the way stands for the same contents |
| `Log.LogDevice.WriteLogAndHead` | kernel/log.c:189-194 | The disk stands for the old contents after each of the first n writes and for the new ones after the header write |
| `Log.LogDevice.Commit` | kernel/log.c:189-199 | 2n + 2 writes; cut after k of them the disk stands for the old contents when k <= n and for the new ones otherwise |
| `Log.LogDevice.Recover` | kernel/log.c:114-121 | From a disk that stands for `cur`: every write leaves a disk that does, and at the end every home block holds it and the header is empty |
| `Log.LogDevice.LogWrite` | kernel/log.c:210-230 | Panics exactly when the log is full or no operation is under way, even for a listed block; otherwise lists the block once and pins the contents |
| `Log.LogDevice.BeginOp` | kernel/log.c:124-140 | Starts exactly when no commit is under way and the reservation fits |
| `Log.LogDevice.EndOp` | kernel/log.c:144-171 | The last operation to end commits what the file system sees, with the cut property of Commit; otherwise nothing is written |
| `Log.HeaderCommits` | kernel/log.c:189-199 | Once the log is filled, writing the header alone moves the disk from the old to the new contents |
| `BufferCache.BCache.constructor` | kernel/bio.c:39-57 | A well-linked list of all buffers, none in use, that shows an empty cache for every disk |
| `BufferCache.BCache.Find` | kernel/bio.c:71-81 | The buffer of the block, or none has it |
| `BufferCache.BCache.FindVictim` | kernel/bio.c:86-94 | The least recently released of all clean idle buffers, or there is none |
| `BufferCache.BCache.Bget` | kernel/bio.c:62-96 | The one buffer of a cached block, or its sleep, or the least recently released clean idle buffer relabelled, or the panic; in all cases the list stays a well-linked permutation with one buffer a block |
| `BufferCache.BCache.Bread` | kernel/bio.c:99-109 | To the log, a read: cached contents or else those on disk, and only clean idle buffers recycled |
| `BufferCache.BCache.Brelse` | kernel/bio.c:123-142 | The buffer is idle and in front, the others keep their order, and the cache the log sees loses just the hold |
| `BufferCache.BCache.Bwrite` | kernel/bio.c:112-119 | The block on disk holds the buffer's contents and the buffer is unpinned |
| `BufferCache.BCache.Pin` | kernel/log.c:228-228 | The buffer is pinned: the cache the log sees gains one dirty block |
| `BufferCache.BCache.SetData` | kernel/log.c:76-76 | New contents in a held buffer, for that block alone |
| `BufferCache.BCache.CopyBuf` | kernel/log.c:76-79 | memmove, bwrite and two brelse are the store of a disk transfer |
| `BufferCache.BCache.CopyBlock` | kernel/log.c:68-81 | One turn of install_trans or write_log on the real list is a disk transfer of the protocol: reads of both blocks in the order of the source, then the store; it goes through exactly unless one of the reads has to wait or finds no buffer |
| `BufferCache.FrontByRelease` | kernel/bio.c:131-136 | Moving a buffer to the front keeps the list in order of last release |
| `Bitmap.BitChanged` | kernel/fs.c:66-68 | Setting and clearing a bit change that bit alone |
| `Bitmap.Mark` | kernel/fs.c:79-95 | The bitmap differs in the bit of one block |
| `Fs.FileSystem.constructor` | tools/mkfs.c:235-249 | Empty inodes over a bitmap that marks the metadata alone |
| `Fs.FileSystem.Balloc` | kernel/fs.c:52-76 | The first free block, zeroed and marked, both blocks logged; fails only when every bit is set |
| `Fs.FileSystem.Bfree` | kernel/fs.c:79-95 | Panics exactly on a free block, otherwise clears its bit alone and logs the block of the bitmap |
| `Fs.FileSystem.Take` | kernel/fs.c:52-76 | A block nobody owns, below the log, becomes owned and the bits follow |
| `Fs.FileSystem.Bmap` | kernel/fs.c:362-390 | The block of data bn, mapped if it was not; no byte of any inode changes, ownership is kept, every block that changed is logged and only blocks of the mapping are |
| `Fs.FileSystem.BmapIndirect` | kernel/fs.c:375-387 | The same for blocks behind the indirect block |
| `Fs.FileSystem.WriteBytes` | kernel/fs.c:488-494 | The loop of writei: the bytes are in place, all other bytes and inodes unchanged, exactly the blocks needed are mapped, every changed block is logged |
| `Fs.FileSystem.Writei` | kernel/fs.c:471-501 | The contents become the old ones with src spliced in at off; every other inode keeps its bytes; the error cases change nothing; only the touched blocks are logged, and every block of data, of the bitmap and of inodes that changed is |
| `Fs.FileSystem.Readi` | kernel/fs.c:443-467 | The bytes of the contents from off on, at most n of them, and nothing changes; -1 exactly past the end or on overflow |
| `Fs.FileSystem.Itrunc` | kernel/fs.c:397-425 | The inode is empty, each of its blocks is freed once, the panic of bfree is not reached, every other inode is as before, and every changed block of the bitmap and of inodes is logged |
| `Fs.FileSystem.FreeAddr` | kernel/fs.c:404-409 | One direct block freed without panic, ownership kept |
| `Fs.FileSystem.FreeEntries` | kernel/fs.c:411-421 | All blocks behind the indirect block and it are freed, without panic |
| `Fs.FileSystem.Iupdate` | kernel/fs.c:201-218 | The inode on disk becomes the one in memory, and its block is logged |
| `Fs.WroteContent` | kernel/fs.c:471-501 | Bytes written at off are spliced into the contents, extending them where needed |
| `BlockMap.FillDirect` | kernel/fs.c:368-372 | A new zeroed block in an empty direct slot changes no byte and keeps ownership |
| `BlockMap.FillEntry` | kernel/fs.c:377-384 | The same for an entry of the indirect block |
| `BlockMap.WriteData` | kernel/fs.c:490-491 | Writing a block of data changes that block of that inode alone |
| `BlockMap.ExactGrows` | kernel/fs.c:471-501 | Mapping the next block keeps the mapped slots exactly those the size needs: no holes |
| `BlockMap.DropIndirect` | kernel/fs.c:411-421 | Dropping the indirect block drops its entries and keeps ownership |
| `File.ChunkFootprint` | kernel/file.c:126-134 | A chunk at any offset logs at most 16 distinct blocks plus those of the bitmap: 17 with one bitmap block |
| `File.OpenFile.WriteChunk` | kernel/file.c:139-144 | One transaction writes its piece or nothing; it logs every block it changes, only blocks of the volume, and at most 17 distinct ones with one bitmap block |
| `File.OpenFile.Filewrite` | kernel/file.c:116-155 | Succeeds exactly when the whole write fits and then is that one write; otherwise a whole number of chunks is written; its transactions are the whole change, one after the other, each logs what it changes and leaves a prefix of the write in the file |
| `File.OpenFile.WriteAll` | kernel/file.c:126-152 | The loop of filewrite: how many bytes are written and in how many transactions; short exactly when the write does not fit |
| `CrashFiles.CrashedFilewrite` | kernel/file.c:116-155 | Crash anywhere while the transactions of a filewrite are written through the log, and recover: the file holds the first m bytes of the write, all or a whole number of chunks, and every other file is as it was |
| `CrashFiles.CrashedWrite` | kernel/log.c:174-199 | For any chain of transactions: the home blocks are those after a whole number of them |
| `CrashFiles.TxPuts` | kernel/log.c:201-231 | A transaction of the file system is an operation of the log: writing each logged block once, and no other, takes the home blocks from those before it to those after it |
| `CrashFiles.WholeTx` | kernel/file.c:139-144 | Once the logged blocks hold what the transaction made of them, all home blocks do |
| `CrashFiles.UnloggedSame` | include/fs.h:42-52 | A home block at which no logged block lies is the same before and after |
| `File.SpliceMore` | kernel/file.c:126-152 | Writing s and then t behind it is writing s + t |
| `LibFs.Itruncate` | tools/libfs.c:353-396 | The contents are cut or extended with zeroes to `size`; every other inode keeps its bytes; -1 exactly above the largest file |
| `LibFs.Shrink` | tools/libfs.c:360-385 | The kept bytes stay and exactly the blocks of the smaller size stay mapped |
| `LibFs.FreeBeyond` | tools/libfs.c:361-384 | Exactly the slots beyond the blocks to keep are emptied |
| `LibFs.ShrinkDone` | tools/libfs.c:360-385 | Emptying exactly the slots the smaller size does not need truncates the contents |
| `LibFs.ExtendDone` | tools/libfs.c:386-393 | Writing zeroes behind the end extends the contents with zeroes |
| `Dirs.DirFs.constructor` | tools/mkfs.c:111-122 | A root directory and free inodes: a tree with right link counts |
| `Dirs.DirFs.Dirlookup` | kernel/fs.c:514-538 | The first entry in use with the name, or no entry has it |
| `Dirs.DirFs.Dirlink` | kernel/fs.c:541-568 | Refuses a name in use and changes nothing; otherwise the first unused entry is taken |
| `Dirs.DirFs.IsDirEmpty` | kernel/sysfile.c:165-178 | Whether only the first two entries are in use |
| `Dirs.DirFs.Ialloc` | kernel/fs.c:175-198 | The first free inode, or none is free |
| `Dirs.DirFs.Create` | kernel/sysfile.c:238-281 | An existing file is returned for a file, any other existing name is refused, a new name is entered with its inode; the tree and the counts stay right exactly when the parent is linked |
| `Dirs.DirFs.CreateNew` | kernel/sysfile.c:255-281 | The same for a new name |
| `Dirs.DirFs.LinkStart` | kernel/sysfile.c:130-139 | Directories are refused; otherwise one link is counted that has no entry yet |
| `Dirs.DirFs.LinkFinish` | kernel/sysfile.c:141-162 | The name is entered or the count taken back, and the pending link is gone |
| `Dirs.DirFs.Link` | kernel/sysfile.c:115-162 | Fails exactly for directories and names in use, and then changes nothing; otherwise one more entry and one more link |
| `Dirs.DirFs.MayRemove` | kernel/sysfile.c:200-213 | True exactly for a name other than the dots that is there and is not a directory with entries |
| `Dirs.DirFs.Unlink` | kernel/sysfile.c:181-236 | -1 exactly when MayRemove says no; otherwise 0, the entry is gone, the link counts follow, the tree stays one and `nlink < 1` is not reached |
| `Dirs.DirFs.Reap` | kernel/fs.c:323-342 | Freeing an inode without links keeps the tree and the counts |
| `DirTree.EnterKeeps` | kernel/sysfile.c:143-148 | dirlink into a linked directory keeps the tree and the counts |
| `DirTree.MkdirKeeps` | kernel/sysfile.c:267-276 | create of a directory in a linked directory keeps the tree and the counts |
| `DirTree.UnlinkKeeps` | kernel/sysfile.c:215-226 | unlink of a file or an empty directory keeps the tree and the counts |
| `DirTree.EnterExact` | kernel/sysfile.c:143-148 | dirlink keeps the counts right if and only if the directory is linked |
| `DirTree.MkdirExact` | kernel/sysfile.c:267-276 | create of a directory keeps the tree if and only if the parent is linked |
| `DirTree.RemovedDirectory` | kernel/sysfile.c:238-281 | A removed directory that is still some working directory: creating a file in it breaks the counts |
| `DirTree.ReachesRoot` | kernel/sysfile.c:238-281 | Following .. from any linked directory ends at the root |
| `DirTree.OneParent` | kernel/sysfile.c:238-281 | No directory has two entries, and the root has none |
| `Paths.Skipelem` | kernel/fs.c:585-608 | The next element cut at DIRSIZ characters and the start of the one after it; none exactly when only slashes are left |
| `Paths.Namex` | kernel/fs.c:614-647 | For every reading of the path: the inode, or the parent and last element, that its elements lead to, from the root whatever the working directory if the path begins with a slash and from the working directory otherwise; the null pointer if they lead nowhere; a panic exactly if it has to look up an element in a free inode |
| `Paths.OneSpelling` | kernel/fs.c:573-583 | A path has one reading as a list of elements |
| `Paths.SomeSpelling` | kernel/fs.c:573-583 | Every path has a reading |
| `Paths.ParentThenChild` | kernel/fs.c:614-660 | Looking up the last element in nameiparent's directory is namei |
| `Paths.WalkStays` | kernel/fs.c:614-647 | From a linked directory a path leads only to allocated inodes and linked directories |
| `Paths.WalkExactly` | kernel/fs.c:298-299 | From an allocated inode a path comes to a free one, where ilock panics, exactly if it goes up by dot-dot through removed directories to a freed one |
| `Paths.RemovedParent` | kernel/fs.c:298-299 | A tree with right link counts where dot-dot of a removed working directory is free |
| `Paths.HasPath` | kernel/fs.c:614-647 | Every linked directory has an absolute path that leads to it |
| `Paths.DirHasPath` | kernel/fs.c:614-647 | Every linked directory has a path that names it from everywhere |
| `Paths.Namei` | kernel/fs.c:649-654 | An absolute path of a directory or file is found from every working directory, without a panic |
| `Paths.DotsLead` | kernel/fs.c:624-641 | In a linked directory dot leads to itself and dot-dot to the directory that lists it, or from the root to the root |
| `Refs.Kernel.constructor` | kernel/file.c:12-22 | No references anywhere |
| `Refs.Kernel.Filealloc` | kernel/file.c:25-40 | The first file without references gets one, or none is free |
| `Refs.Kernel.Filedup` | kernel/file.c:43-52 | One more reference; panics exactly without one |
| `Refs.Kernel.Fileclose` | kernel/file.c:55-79 | One reference less; with the last one, and only then, the pipe end is closed or the inode put; panics exactly without one; inodes with links stay as they are, none comes, and one without links leaves the disk exactly when no valid entry refers to it any more |
| `Refs.Kernel.Iget` | kernel/fs.c:223-254 | The live entry of the inode or an unused one, with one more reference; no inode gets two live entries; -1 exactly where the kernel panics |
| `Refs.Kernel.Idup` | kernel/fs.c:258-265 | One more reference |
| `Refs.Kernel.Ilock` | kernel/fs.c:269-301 | The entry agrees with the disk |
| `Refs.Kernel.Iput` | kernel/fs.c:323-342 | One reference less; every other entry as before; inodes with links stay as they are, none comes, and one without links leaves the disk exactly when no valid entry refers to it any more |
| `Refs.Kernel.Fdalloc` | kernel/sysfile.c:38-50 | The first unused descriptor takes over the reference; -1 exactly when all are used |
| `Refs.Kernel.SysDup` | kernel/sysfile.c:52-64 | The lowest free descriptor for the same file with its count; fails exactly for a bad or no free descriptor; all counts right again |
| `Refs.Kernel.SysClose` | kernel/sysfile.c:90-101 | The descriptor is free and the reference dropped; all counts right again, no panic; inodes with links stay as they are, none comes, and one without links leaves the disk exactly when no valid entry refers to it any more |
| `Refs.Kernel.SysOpen` | kernel/sysfile.c:315-331 | The lowest free descriptor on the inode, or everything given back; fails exactly without file or descriptor; inodes with links stay as they are, none comes, and one without links leaves the disk exactly when no valid entry refers to it any more |
| `Refs.Kernel.GiveFd` | kernel/sysfile.c:315-327 | A descriptor for the inode, or file and inode given up exactly without a descriptor |
| `Refs.Kernel.SysChdir` | kernel/sysfile.c:385-391 | The reference becomes the process's and its old directory is put; all counts right again; inodes with links stay as they are, none comes, and one without links leaves the disk exactly when no valid entry refers to it any more |
| `Refs.Kernel.Pipealloc` | kernel/pipe.c:21-56 | Both ends of a new pipe in two new files, or everything given back; fails exactly without page or two files |
| `Refs.Kernel.SysPipe` | kernel/sysfile.c:420-442 | Two new descriptors for the two ends, or no change to descriptors, files and open ends; fails exactly without page, two files or two descriptors |
| `Refs.Kernel.ForkRefs` | kernel/proc.c:154-157 | The child has the parent's files and directory, and all counts are right again |
| `Refs.Kernel.ExitRefs` | kernel/proc.c:183-194 | The process has no file and no directory left, others keep theirs, and all counts are right again; inodes with links stay as they are, none comes, and one without links leaves the disk exactly when no valid entry refers to it any more |
| `RefCounts.PipeClosed` | kernel/pipe.c:58-74 | Closing the file of an end closes that end and keeps one file per open end |
| `RefCounts.PutLinks` | kernel/fs.c:323-342 | An inode without links stays on disk only while a valid entry refers to it |
| `ProcTheorems.NoLostWakeup` | kernel/proc.c:357-412 | After a process called sleep(chan, lk), a wakeup(chan) by whoever acquired lk later finds it asleep on chan and makes it runnable, for any number of processes and CPUs |
| `ProcTheorems.ExitFindsParent` | kernel/proc.c:174-257 | A child's exit cannot slip between its parent's scan of the table and the parent's sleep |
| `ProcTheorems.HandOff` | kernel/proc.c:267-333 | Whenever ptable.lock is free, RUNNING processes and CPUs with a process are in bijection |
| `ProcTheorems.InterruptsOff` | kernel/spinlock.c:24-70 | A CPU that holds a lock has interrupts off, and its nesting depth is the number of locks it holds |
| `ProcTheorems.SchedSafe` | kernel/proc.c:307-323 | None of sched's panics is reached |
| `ProcTheorems.ReapSafe` | kernel/proc.c:218-257 | wait frees the stack of a zombie child of the caller that is on no CPU, and its pid was not reaped before |
| `ProcTheorems.Families` | kernel/proc.c:130-257 | Every started process but init has a live parent, nobody sleeps in wait with a zombie child, pids in use are distinct and no pid is reaped twice |
| `ProcTheorems.StepKeeps` | kernel/proc.c:130-435 | Every step of every CPU keeps the invariant on locks, scheduling, sleeping, families and pids |
| `ProcTheorems.RunInv` | kernel/proc.c:130-435 | The invariant holds in every state of every run |
| `ProcTheorems.BootInv` | kernel/proc.c:78-105 | It holds after boot |
| `ProcKill.BornKilled` | kernel/proc.c:48-50 | In every run a new process is born killed exactly if, since wait last gave its slot back, a kill found the slot while it was unused or that of a child not yet started |
| `ProcKill.KilledSince` | kernel/proc.c:424-426 | In every run a slot has the mark exactly if a kill found it since wait last gave it back |
| `ProcKill.StepGoes` | kernel/proc.c:242-242 | Of all steps only kill sets the mark and only wait clears it, and only by wait does the slot of a started process become free |
| `ProcKill.KillZero` | kernel/proc.c:424-426 | A reachable state in which, after kill(0), fork makes a child that is killed |
| `ProcTable.Table.Wakeup1` | kernel/proc.c:395-403 | Exactly the sleepers on the channel become runnable and no other field of any process changes |
| `ProcTable.Table.PassToInit` | kernel/proc.c:201-208 | The children go to init, which is woken if one of them is a zombie |
| `ProcTable.Table.FindZombie` | kernel/proc.c:227-246 | A zombie child if there is one, else whether there are children |
| `ProcTable.Table.Kill` | kernel/proc.c:417-435 | The first process with the pid is marked, and runnable if it slept, its other fields as they were; no other process changes; -1 exactly when there is none |
| `ProcTable.Table.Alloc` | kernel/proc.c:34-52 | The first unused slot becomes an EMBRYO with the next pid; fails exactly without one |
| `ProcTable.CpuMask.Pushcli` | kernel/spinlock.c:112-121 | Interrupts off and one level deeper, the flag saved at the first level alone |
| `ProcTable.CpuMask.Popcli` | kernel/spinlock.c:123-132 | One level up; interrupts are on again exactly with the last level if they were on before the first; panics exactly with interrupts on or without a level |
| `ProcTable.PushPop` | kernel/spinlock.c:108-132 | Over any nested acquires and releases: off in between, and once all are undone, not before, as they were |
| `ProcEffects.KillWakes` | kernel/proc.c:417-435 | In every run a kill that finds a slot marks it and it no longer sleeps, its state else unchanged, and no other slot changes |
| `ProcEffects.WakeExactly` | kernel/proc.c:395-403 | In every run a wakeup makes exactly the sleepers on its channel runnable and changes no other field |
| `ProcEffects.ExitExactly` | kernel/proc.c:176-216 | In every run exit leaves the process a zombie, wakes exactly the sleepers on its parent and, if it leaves a zombie child, on init, gives exactly its children to init, and changes nothing else |
| `ProcEffects.ReapExactly` | kernel/proc.c:220-262 | In every run wait gives exactly the slot of the zombie it found back, cleared, and changes nothing else but the caller's place |
| `ProcEffects.ChannelsTidy` | kernel/proc.c:377-383 | In every run a process has a channel only while it is in sleep, and a slot without a live process has none |
| `ProcEffects.FlagKept` | kernel/proc.c:307-325 | In every run, from when sched leaves a process until it is dispatched again, on whatever CPU, its interrupt flag is kept and that CPU takes it over |
| `ProcEffects.ResumeExactly` | kernel/proc.c:380-390 | In every run a process that sched returns in goes on where it left off, its channel gone: in wait with the table locked, after any other sleep asking for its lock again |
| `ProcEffects.FlagsExactly` | kernel/spinlock.c:108-132 | In every run each step leaves interrupts on or off as pushcli, popcli and the code say, on every CPU |
| `ProcEffects.AllocExactly` | kernel/proc.c:34-54 | In every run allocproc takes exactly one unused slot, with a pid above every other |
| `Umalloc.Heap.constructor` | ulib/umalloc.c:21-22 | No free list yet and no memory |
| `Umalloc.Heap.Malloc` | ulib/umalloc.c:63-90 | Keeps the free list circular, ordered and coalesced and, with the live blocks, a partition of all memory obtained; the new block overlaps none; sbrk is called exactly when no free block fits; both searches end |
| `Umalloc.Heap.Free` | ulib/umalloc.c:24-44 | The block joins the free list, coalesced with its neighbours, and the partition is kept |
| `Umalloc.Heap.Morecore` | ulib/umalloc.c:46-61 | The new memory is free and fits the request; fails exactly on -1; `short` exactly when sbrk was asked for less than is then used |
| `Umalloc.Heap.FindPlace` | ulib/umalloc.c:30-32 | The search ends, at the one block after which the freed one belongs |
| `Umalloc.Heap.StoreFreed` | ulib/umalloc.c:33-43 | The stores of free |
| `Umalloc.Heap.Search` | ulib/umalloc.c:74-87 | One round of the list finds a block that fits exactly when there is one |
| `Umalloc.Heap.Carve` | ulib/umalloc.c:75-84 | The stores of malloc |
| `Umalloc.Heap.Allocate` | ulib/umalloc.c:75-84 | The taken units become a live block and the partition is kept |
| `Umalloc.WholeRequests` | ulib/umalloc.c:52-54 | sbrk is asked for as many bytes as morecore uses exactly for requests up to 0x7fffffe0 bytes |
| `Umalloc.HugeRequest` | ulib/umalloc.c:54-59 | A request of 0xfffffff0 bytes asks sbrk for 0 bytes, which succeeds |
| `Umalloc.ShortBreaks` | ulib/umalloc.c:54-59 | Where sbrk gave less than morecore uses, no partition of the memory obtained is left |
| `Umalloc.StopsAtGap` | ulib/umalloc.c:30-32 | The loop condition of free is false at the right place and nowhere else |
| `FreeList.InsertOrdered` | ulib/umalloc.c:33-43 | The new list is ordered and fully coalesced |
| `FreeList.InsertUnits` | ulib/umalloc.c:33-43 | It holds just the old units and the new block's |
| `FreeList.TakeOrdered` | ulib/umalloc.c:75-84 | Taking units keeps the list ordered and coalesced |
| `FreeList.TakeUnits` | ulib/umalloc.c:75-84 | It loses just the units taken |
| `Vm.Memory.constructor` | kernel/kalloc.c:30-52 | A free list of distinct frames and no spaces |
| `Vm.Memory.Kalloc` | kernel/kalloc.c:82-95 | The head of the free list, or 0 when it is empty |
| `Vm.Memory.Kfree` | kernel/kalloc.c:59-77 | The frame is the head of the free list and its contents are lost |
| `Vm.Memory.Walk` | kernel/vm.c:47-67 | The page table is there or made from the free list; no mapping of any space changes; fails exactly without table, request or frame |
| `Vm.Memory.MapPage` | kernel/vm.c:81-85 | That page maps to the frame and no other page changes; remap exactly when it was mapped; fails exactly without a frame for its page table |
| `Vm.Memory.MapPages` | kernel/vm.c:72-92 | The pages up to `upto` map to consecutive frames and no other page of any space changes; all of them exactly on success, and otherwise the next page was mapped already or no frame is left |
| `Vm.Memory.DeallocUvm` | kernel/vm.c:255-279 | For every space: exactly the pages from the landing on to oldsz are unmapped and each of their frames is freed once; it takes a backpointer for a page table exactly if oldsz is beyond both the landing and the user part of the directory |
| `Vm.UnmapsExactly` | kernel/vm.c:264-268 | All pages from newsz to oldsz are unmapped exactly if none is mapped that deallocuvm passes over where it finds no page table |
| `Vm.LandsAtOnce` | kernel/vm.c:264-268 | It passes over none from any page up to the first that is not mapped |
| `Vm.PassesOver` | kernel/vm.c:267-268 | A case: from page 1 without page table it goes to page 513 |
| `Vm.Memory.SetupKvm` | kernel/vm64.c:124-143 | A new space without user pages, its last two entries the backpointers to the upper-level pages; stores through a null pointer exactly with fewer than three free frames |
| `Vm.TwoFrames` | kernel/vm64.c:127-133 | With two free frames it does |
| `Vm.Memory.FreeVm` | kernel/vm.c:283-297 | All frames of the space, holes or not, but its two upper-level pages are free again, each once, and no other space changes |
| `Vm.Memory.CopyPage` | kernel/vm.c:325-335 | A page of its own with the same contents and flags; the frame is lost when only its mapping fails |
| `Vm.Memory.CopyUvm` | kernel/vm.c:314-342 | For every space, by its first missing page: panics exactly if sz is beyond that page and the frames last to there; otherwise succeeds exactly with enough frames, and says how many are left; equal contents in frames that were free and are not the parent's; on failure all are free again but the two upper-level pages and, in the stated case, one frame |
| `Vm.FourFrames` | kernel/vm.c:331-335 | That case at its smallest: one page, four free frames |
| `PageMap.SetEntryLookup` | kernel/vm.c:85-85 | Storing an entry changes the mapping of that page of that space alone |
| `PageMap.EnterWf` | kernel/vm.c:85-85 | A frame in no other use enters one |
| `PageMap.ClearWf` | kernel/vm.c:269-276 | A cleared entry's frame is in no use |
| `Vm.FramesForPages` | kernel/vm.c:314-342 | A copy of n pages takes n frames and one page table for every 512 |
| `VmAlloc.AllocUvm` | kernel/vm.c:224-249 | For every space with no page from oldsz on: takes a backpointer for a page table exactly if newsz is above 0x3fc00000, or, where deallocuvm would pass over pages, exactly as stated; otherwise reports success exactly with enough frames or with one too few where the last page lacks a page table; all new pages are mapped and zeroed in the first case, all but the last in the second; else the mappings are as before |
| `VmAlloc.FramesToGrow` | kernel/vm.c:236-247 | A space that has only grown takes one frame for each new page and one for each page table begun, and its last page lacks a page table exactly if it is the first of one |
| `VmAlloc.GrowPast` | kernel/vm.c:230-233 | sbrk(0x40000000) strays: the test against the end of user space is compiled out |
| `VmAlloc.GrowThenFork` | kernel/vm.c:325-328 | After allocuvm left out the last page, copyuvm never copies the space, however many frames are freed in between: it panics exactly once the frames suffice for the pages there are |
| `VmAlloc.GrowTwiceThenFork` | kernel/vm.c:327-328 | A second growth maps its pages behind the missing one, which stays missing, and still no fork copies the space: it panics exactly once the frames suffice for the pages before it |
| `VmAlloc.OneFrame` | kernel/vm.c:245-246 | The smallest such case: one page, one free frame |
| `VmAlloc.AllocPage` | kernel/vm.c:239-246 | One turn, with kalloc and the unchecked mappages failing exactly as stated |
| `Pipe.PipeDev.constructor` | kernel/pipe.c:21-56 | An empty pipe with both ends open |
| `Pipe.PipeDev.Write` | kernel/pipe.c:77-97 | The bytes written are appended to all bytes written, at most 512 are in flight; it sleeps only on a full pipe whose read end is open, fails only when that is closed or it was killed, and a sleeping reader is left with bytes to read exactly if the bytes do not fit and the read end is closed or the writer killed |
| `Pipe.PipeDev.Read` | kernel/pipe.c:99-120 | The next bytes in order; it returns 0 bytes for n > 0 only after the writers closed and all was read; it sleeps exactly on an empty pipe with open write end |
| `Pipe.PipeDev.Close` | kernel/pipe.c:58-74 | The end is closed, its sleepers woken, and the page freed exactly with the second end |
| `Pipe.PipeDev.Kill` | kernel/proc.c:417-435 | A killed process no longer sleeps |
| `Pipe.RunFifo` | kernel/pipe.c:77-120 | In every run the bytes read are a prefix of the bytes written and at most 512 are in flight |
| `Pipe.CountersApart` | kernel/pipe.c:84-84 | The 32-bit counters tell full from empty across wrap-around |
| `Pipe.StrandedRun` | kernel/pipe.c:84-88 | A run that leaves a reader asleep before a full pipe with both ends open |
| `Shell.Parser.constructor` | user/sh.c:328-334 | The cursor is at the start of the line |
| `Shell.Parser.Peek` | user/sh.c:311-321 | Whether the next token is one of the symbols; white space is skipped and no token lost |
| `Shell.Parser.GetToken` | user/sh.c:266-309 | The next token of the line and the rest, the cursor at its first character |
| `Shell.Parser.TakeToken` | user/sh.c:276-303 | The characters passed are one token: a whole word, one symbol, or both signs of an append |
| `Shell.Parser.Redirs` | user/sh.c:375-398 | Computes the parse of a list of redirections |
| `Shell.Parser.SimpleItems` | user/sh.c:430-443 | Computes the parse of words and redirections, with at most nine words |
| `Shell.Parser.ExecCommand` | user/sh.c:400-447 | Computes the parse of a block or a simple command, with what it read off in order |
| `Shell.Parser.BlockCommand` | user/sh.c:400-413 | Computes the parse of a block with its redirections |
| `Shell.Parser.PipeCommand` | user/sh.c:362-373 | Computes the parse of a pipeline; from left to right the command has the arguments, operators and redirections it read off |
| `Shell.Parser.LineCommand` | user/sh.c:345-360 | Computes the parse of a line, with what it read off in order |
| `Shell.Parser.NulTerminate` | user/sh.c:450-494 | A NUL at the end of every word of the command and nowhere else |
| `Shell.Parser.ParseCmd` | user/sh.c:328-343 | Accepts exactly the lines whose tokens have a derivation and returns the command of it; from left to right the command has the arguments, the operators and the redirections of the line, it is printed as tokens that parse to it, and every word and file name reads back from the buffer |
| `Shell.WordReadsBack` | user/sh.c:450-494 | After nulterminate each word reads back as its original text |
| `ShellGrammar.ParseExactly` | user/sh.c:345-447 | The parsing functions accept exactly the derivable token sequences, by that derivation |
| `ShellGrammar.OneDerivation` | user/sh.c:345-447 | The grammar is unambiguous |
| `ShellGrammar.LineSound` | user/sh.c:345-360 | Whatever is accepted is a derivation of the tokens consumed |
| `ShellGrammar.LineComplete` | user/sh.c:345-360 | Every derivation is found |
| `ShellPrint.PrintParses` | user/sh.c:328-447 | Every command the shell can hold is printed, with parentheses where the grammar needs them, as tokens that parse to it |
| `ShellPrint.ParsePrints` | user/sh.c:328-447 | Every command the parser makes reads back, and says from left to right what the line says |
| `ShellPrint.LineReads` | user/sh.c:345-360 | The arguments, operators and redirections of the command of a derivation are, in order, those of its tokens |
| `ShellLexer.LexSpells` | user/sh.c:262-309 | The tokens found, with white space before, between and after them, spell the line: whole words, single symbols, and plus exactly for a double greater-than sign |
| `ShellLexer.OneLexing` | user/sh.c:262-309 | No other tokens do |
| `ShellLexer.SymbolsRead` | user/sh.c:262-309 | The symbol characters of the line are, in order, those of its symbol tokens |
| `Grep.Match` | user/grep.c:72-82 | 1 exactly when some part of the text, at its ends where ^ and $ say so, is in the language of the pattern |
| `Grep.MatchHere` | user/grep.c:85-96 | 1 exactly when a match starts at the place |
| `Grep.MatchStar` | user/grep.c:99-106 | The same for c* and the rest of the pattern |
| `Grep.StarNowhere` | user/grep.c:99-106 | When the repetition cannot go on every split has been tried |
| `BufferCache.BCache.LinkFront` | kernel/bio.c:49-56 | One turn of binit's loop: the buffer joins the front of a list that stays well linked |
| `BufferCache.BCache.Unchain` | kernel/bio.c:131-132 | The list without the buffer, well linked; nothing but links changes |
| `BufferCache.BCache.Enchain` | kernel/bio.c:133-136 | The list with the buffer in front, well linked; nothing but links changes |
| `Dirs.DirFs.MakeFile` | kernel/sysfile.c:258-276 | create of a file: first free inode with one link, entered in the first room; fails exactly without a free inode |
| `Dirs.DirFs.MakeDir` | kernel/sysfile.c:258-276 | create of a directory: the dots, the parent's link and the entry; fails exactly without a free inode |
| `Dirs.DirFs.TakeBack` | kernel/sysfile.c:155-159 | The link that was counted is taken back and the counts are right again |
| `Dirs.DirFs.Remove` | kernel/sysfile.c:215-226 | The entry is cleared and the link counts follow |
| `File.OpenFile.Turn` | kernel/file.c:134-151 | One turn of the loop: the next chunk is written exactly when it fits, in one more transaction within the footprint |
| `Fs.FileSystem.FillAddr` | kernel/fs.c:368-372 | An empty direct slot, or that of the indirect block, gets a block nobody owned |
| `Fs.FileSystem.FillIndirect` | kernel/fs.c:379-385 | An empty entry of the indirect block gets a block nobody owned |
| `Fs.FileSystem.WriteBlock` | kernel/fs.c:489-493 | One turn of writei's loop: the piece is in place, all else unchanged, the blocks stay those needed, every changed block is logged |
| `Fs.FileSystem.WriteNext` | kernel/fs.c:488-494 | The bytes up to the end of a block are added to those written, all other inodes as they were |
| `Fs.FileSystem.ReadBlock` | kernel/fs.c:449-462 | One turn of readi's loop: the bytes at that place, with nothing changed |
| `Fs.FileSystem.FreeDirects` | kernel/fs.c:404-409 | The direct blocks are freed without panic |
| `LibFs.FreeDirects` | tools/libfs.c:365-368 | Exactly the direct slots beyond those kept are emptied |
| `LibFs.FreeEntries` | tools/libfs.c:376-379 | Exactly the indirect entries beyond those kept are emptied |
| `LibFs.FreeIndirect` | tools/libfs.c:380-383 | The empty indirect block is freed and no byte changes |
| `Pipe.PipeDev.Put` | kernel/pipe.c:92-92 | One byte more, at the place the 32-bit counter picks |
| `Refs.Kernel.Release` | kernel/file.c:68-78 | With the last reference the pipe end is shut, or the inode's reference is left to be put |
| `Refs.Kernel.SetNlink` | kernel/sysfile.c:137-138 | The link count changes in the entry and on disk |
| `Refs.Kernel.LeaveCwd` | kernel/sysfile.c:388-388 | The working directory is put |
| `Refs.Kernel.CopyFd` | kernel/proc.c:155-156 | One turn of fork's loop |
| `Refs.Kernel.CloseFd` | kernel/proc.c:185-188 | One turn of exit's loop, the file closed before the descriptor is cleared |
| `Refs.Kernel.GiveEnds` | kernel/sysfile.c:430-441 | Two descriptors take over the ends, or both ends are closed and descriptors and files as before; fails exactly without two descriptors |
| `Shell.Parser.SkipWhite` | user/sh.c:316-318 | The cursor passes white space and no token |
| `Shell.Parser.WordAndRedirs` | user/sh.c:432-442 | One turn of parseexec's loop, as one step of the parse |
| `Shell.Parser.Background` | user/sh.c:351-354 | As many background wrappers as there are ampersands |
| `Umalloc.Heap.Init` | ulib/umalloc.c:70-73 | The list of the empty base block |
| `Umalloc.Heap.Find` | ulib/umalloc.c:74-89 | A block that fits, after morecore if there was none; morecore is called once at most |
| `Umalloc.Heap.Extend` | ulib/umalloc.c:54-58 | The memory sbrk gave is one live block and the partition is kept |
| `Vm.Memory.UnmapPage` | kernel/vm.c:269-276 | The page is unmapped, its frame free and in no use, no other page changes |
| `Vm.Memory.Dealloc` | kernel/vm.c:265-277 | One turn: a mapped page is unmapped, and where there is no page table its pages are skipped |
| `Vm.Memory.FreeTables` | kernel/vm.c:290-295 | Exactly the page tables of the space join the free list, each once |
| `Vm.Memory.DropSpace` | kernel/vm.c:290-296 | A space without pages is gone, its tables and directory free, other spaces unchanged |
| `Vm.Memory.CopyFrame` | kernel/vm.c:331-333 | A frame from the free list with equal contents, or none is free |
| `Vm.Memory.CopyPages` | kernel/vm.c:324-336 | The loop: all pages copied, or stopped at the page for which frames ran out, or a panic at the first page that is not mapped |
| `VmAlloc.AllocPages` | kernel/vm.c:237-247 | The loop, with the exact number of pages mapped; beyond the user part it runs out of frames or strays |
| `VmAlloc.Undo` | kernel/vm.c:242-242 | It strays exactly if newsz is beyond landing and user part; otherwise the mappings are as before and all frames but page tables and the lost one are free again |
| `Paths.Resolve` | kernel/fs.c:624-646 | The loop of namex from any inode, with the reading it finds |
| `Dirs.DirFs.RemoveEntry` | kernel/sysfile.c:215-226 | The tree and the counts are right again, with the entry gone and the links that go with it |
| `Vm.Memory.MapRange` | kernel/vm.c:80-91 | The loop of mappages, over page numbers |
| `Paths.NextInode` | kernel/fs.c:624-641 | One turn of the loop: the inode that the next element names, the walk from there the same; or the end of the walk with its result, or its panic |
| `LogReach.EntriesOverrun` | kernel/log.c:220-227 | For every log of more than LOGSIZE blocks, operations of more than MAXOPBLOCKS blocks can list LOGSIZE + 1 blocks, one more than the array holds |

## Left out

- Dirs.DirFs.Dirlink: the panic when a directory has reached the largest file size, since entries are a sequence of any length.
- Dirs.DirFs.Ialloc: the type is set in a record; the layout of inode blocks is not modelled.
- Fs.FileSystem.Iupdate: inodes on disk are records; the layout of inode blocks is not modelled.
- Fs.FileSystem.Readi: for files with exactly the blocks of their size, as writei leaves them.
- Fs.FileSystem.constructor: a fresh image is given, not built block by block.
- Dirs.DirFs.constructor: a fresh image with a root directory is given, not built.
- Log.LogDevice.constructor: the place and size of the log are given, not read from the superblock.
- Umalloc.Heap.Morecore: a request that sbrk answers short ends the model with `short`.
- Vm.Memory.Kfree: the panic for an address outside the frames is left out, frames being numbers of the pool.
- Vm.Memory.SetupKvm: what the null store does to the page at address 0 is not modelled.
- Pipe.PipeDev.Kill: only the waking of a process in the pipe; the mark is in ProcKill.
- CrashFiles.CrashedFilewrite: one writer alone; how blocks encode inodes is a parameter; that the writes of the run are those of the transactions is a hypothesis, as the two models are not one program.
- CrashTree.CrashedTree: how blocks encode inodes and entries is a parameter, in CrashBlocks.CrashedBlocks too; that the calls hold what they change is a hypothesis, not derived from ilock.
- Dirs.DirFs.Link: atomic but for its two halves, which may be interleaved with other calls; path look-up in between is Paths.Namex.
- Refs.Kernel.SysOpen: begins where the inode is known; with the other system calls of this class it is atomic and does not create inodes.
- Refs.Kernel.SysChdir: begins where the inode is known to be a directory.
- LibFs.Itruncate: uses the kernel's allocator for that of tools/libfs.c, which differs only in its messages on an image that is already inconsistent; device files are refused before it.
- Umalloc.Heap.Malloc: the one loop of the source is a round of the list, morecore, and a second round; the request that sbrk answers short ends the model with `short`.
- Vm.Memory.FreeVm: does not return the two upper-level pages, as in the source; it requires that no page from 0x3fa00000 on is mapped.
- Vm.Memory.CopyUvm: flags are one number; it requires that the first missing page is not above 0x3fa00000.
- Shell.Parser.ParseCmd: argv is a list that is filled, and redirections wrap it afterwards.
- ProcTheorems.StepKeeps: code between two lock operations is one step; pids are unbounded.
- File.OpenFile.Filewrite: pipes are Pipe.PipeDev.Write, devices are not modelled.
- iread and iwrite of tools/libfs.c, which are readi and writei again, and its directory functions.
- uva2ka, copyout, clearpteu, inituvm and loaduvm, which would add only easy members to the page tables.
- Link counts as 16-bit and pids as 32-bit numbers: both are unbounded here.
- Bitmap blocks and inode blocks are kept apart from data blocks; the blocks that are logged relate them, and CrashFiles puts them in their places.
- Device and boot code, console output, exec, traps, system-call dispatch, the other user programs, and the permission fields.
- Memory ordering below the atomic exchange: acquire and release are steps.
