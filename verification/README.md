# A Dafny model of the xv6 kernel's protocols and data structures

This project models the parts of an xv6 fork (a small Unix-like kernel with a three-level scheduler) that keep
state under real invariants, and proves what they promise.  Code that changes state step by step is a class or a
method with loops, proved against functions and predicates on values; protocols between processes are step machines
over any number of processes, with results for every run.

- `CrashLog`: the redo log.  Crashing between any two disk writes of a commit, and of any number of recoveries, leaves the home blocks of every transaction all old or all new.
- `LogProtocol`: group commit between processes.  No commit holds part of an operation, sleepers have reason to sleep, and the reservation bounds the log.
- `FreeMap`, `Blocks`, `InodeLayer`, `Mkfs`: bitmap, block ownership, bmap, readi, writei, itrunc, filewrite, and the image mkfs builds.  Files refine byte sequences and the free map is exact.
- `Links`: directories, link counts, the tree of linked directories and what paths name.
- `Bio`: the buffer cache as a plain block store with least-recently-released recycling.
- `Umalloc`: the user allocator.  Live and free blocks partition the memory obtained.
- `Vm`: two-level page tables over the page pool, with every frame accounted for.
- `SleepLock`: sleep, wakeup and kill with sleep locks, at the granularity of single accesses.
- `ExitWait`: fork, exit, wait and kill on the process table.
- `Pipe`: the ring buffer with wrapping counters and its sleeping readers and writers.
- `Scheduler`: which process a scheduler pass may dispatch.
- `Grep`: the regular expression matcher against a declarative meaning of patterns.
- `Shell`: the command parser, its round trip with a printer, and in-place NUL termination.
- `Params`: shared constants and notions.

Where a property does not hold of the code, the code is kept and the exact condition is proved:
`LogProtocol.FitsExactly` and `LogProtocol.PanicExactly` (the log mkfs lays out is one block short of what the
reservation admits, and the guard in log_write is read outside the lock), `Pipe.ReadersExactly` and
`Pipe.KilledWriter` (a killed writer leaves without the reader's wakeup), `Links.CreateExactly` and
`Links.LinkExactly` (names made in a removed working directory), `Umalloc.WrapExactly` (requests whose sizes wrap),
`Mkfs.RoundedRoot` (the root directory's rounded size leaves a hole when it was already on a block boundary).

I/O, clocks and everything a process does in user mode are parameters or arbitrary choices.  Sequential models
(`Bio`, `InodeLayer`, `Links`, `Vm`, `Umalloc`) take each call as one step; the locks that make this so are the
subject of `SleepLock`, `LogProtocol`, `Pipe` and `ExitWait`.

## Model

| member | source | states |
|---|---|---|
| `CrashLog.CrashSafety` | log.c:69-122 | over every run of commits, each completed or cut at any write and followed by any number of cut recoveries, the home blocks are those of the durable transactions applied in order |
| `CrashLog.CrashDuringCommit` | log.c:192-202 | stopping commit after any number of its disk writes and recovering gives all old home blocks before the header write and all new ones from it on |
| `CrashLog.CrashBeforeHeader` | log.c:177-202 | until the header is written recovery leaves every home block as it was |
| `CrashLog.CrashWhileInstalling` | log.c:69-82 | from the header write to the last install write recovery replays the whole transaction |
| `CrashLog.CrashDuringRecovery` | log.c:115-122 | a recovery stopped after any write is continued by the next one to the same disk |
| `CrashLog.EventIsAtomic` | log.c:115-122 | one commit with any crashes ends with an empty log and an atomic effect |
| `CrashLog.AfterRetries` | log.c:115-122 | any number of interrupted recoveries leave a disk that recovers to the same state |
| `CrashLog.CommittedIsApplied` | log.c:192-202 | logging, header and install together apply exactly the transaction to the home blocks |
| `CrashLog.ReplayAbsorbs` | log.c:69-82 | replaying over a partly replayed disk equals one replay |
| `CrashLog.InstalledAt` | log.c:69-82 | installing changes only the named blocks and never the log area it copies from |
| `CrashLog.InstalledDistinct` | log.c:69-82 | with distinct block numbers each home block gets its own log block |
| `CrashLog.LoggedAt` | log.c:177-190 | exactly the first k log blocks hold the transaction's data |
| `CrashLog.ApplyAt` | log.c:69-82 | what a transaction means: its data at its blocks, everything else unchanged |
| `CrashLog.HeadReads` | log.c:85-113 | a header reads back as it was written |
| `CrashLog.ApplySameHome` | log.c:69-82 | a transaction's effect depends on home blocks only |
| `CrashLog.RunSpecSameHome` | log.c:115-122 | so does the effect of a whole run |
| `CrashLog.CacheIsApplied` | log.c:213-233 | what the cache shows is the disk with the pending transaction applied |
| `CrashLog.RecordKeeps` | log.c:213-233 | log absorption keeps the pending transaction well formed |
| `CrashLog.RecordMeaning` | log.c:213-233 | recording a write changes the transaction's meaning at that block and nowhere else |
| `CrashLog.CollectingTx` | log.c:177-202 | the pending transaction is one that commit can write |
| `CrashLog.CommitOutcome` | log.c:192-202 | after a commit every home block on disk is what the cache had and the log is empty |
| `CrashLog.CommitTraceFrom` | log.c:192-202 | the disk images of the four phases of commit are the sequence that the crash lemmas quantify over |
| `CrashLog.Log.constructor` | log.c:53-66 | the state recovery starts from |
| `CrashLog.Log.Bwrite` | memide.c:38-60 | one atomic block write that clears the dirty mark |
| `CrashLog.Log.LogWrite` | log.c:213-233 | refused exactly where the source panics, otherwise the pending transaction gives the block its new data once |
| `CrashLog.Log.WriteLog` | log.c:177-190 | copies the cached blocks to the log area, image by image |
| `CrashLog.Log.WriteHead` | log.c:101-113 | writes the header of the pending transaction |
| `CrashLog.Log.InstallTrans` | log.c:69-82 | installs the logged blocks, image by image |
| `CrashLog.Log.WriteAll` | log.c:192-202 | the four phases of a commit that has blocks leave exactly the images of the crash lemmas and nothing pinned |
| `CrashLog.Log.ReadHead` | log.c:85-96 | reads the header back into memory |
| `CrashLog.Log.Commit` | log.c:192-202 | leaves exactly the images of the crash lemmas, an empty log and the cache's contents on disk |
| `CrashLog.Log.RecoverFromLog` | log.c:115-122 | ends at the recovered disk through exactly the images of CrashDuringRecovery |
| `LogProtocol.EveryRun` | log.c:125-174 | in every run committing implies no outstanding operation, the panics in end_op and for writes outside a transaction do not happen, sleepers have a true wait condition, the header lists the blocks logged since the last commit, no commit holds a part of an operation |
| `LogProtocol.CountStep` | log.c:125-174 | outstanding counts the processes inside operations, committing the process in a commit |
| `LogProtocol.QuietStep` | log.c:125-174 | whoever sleeps in begin_op still must wait, and an idle log is empty |
| `LogProtocol.HeaderStep` | log.c:213-233 | the header holds, once each, exactly the blocks logged since the last commit |
| `LogProtocol.WholeStep` | log.c:145-174 | operations in a commit have ended and appear in no other commit or open transaction |
| `LogProtocol.OneCommitter` | log.c:145-174 | while one process commits no other does |
| `LogProtocol.SleeperHasWaker` | log.c:125-141 | a process asleep in begin_op waits for one that is inside an operation or a commit, so not all are stuck |
| `LogProtocol.ReservedStep` | log.c:132 | blocks in the header plus what running operations may still log never exceed LOGSIZE |
| `LogProtocol.LogNeverOverflows` | log.c:132 | in runs whose operations log at most MAXOPBLOCKS distinct blocks the header holds at most LOGSIZE |
| `LogProtocol.Overflow` | log.c:218-219 | for every log of 2 to LOGSIZE blocks a run of three bounded operations records more blocks than fit |
| `LogProtocol.FitsExactly` | log.c:213-233 | what log_write records fits behind the header in every bounded run if and only if the log has room for LOGSIZE blocks, or is the header alone and has room for none |
| `LogProtocol.PanicExactly` | log.c:213-219 | in every bounded run log_write panics only when every running operation has used its whole reservation, if and only if the log has room for LOGSIZE blocks; the one mkfs makes has room for one less |
| `LogProtocol.EarlyPanic` | log.c:218-219 | for every smaller log a bounded run of three operations ends in that panic while one of them has logged fewer than MAXOPBLOCKS blocks |
| `LogProtocol.NothingLogged` | log.c:218-219 | on a log that is the header alone nothing is ever recorded |
| `FreeMap.OnBit` | fs.c:56-78 | setting a bit of a bitmap block changes that bit and no other |
| `FreeMap.OffBit` | fs.c:80-95 | clearing a bit changes that bit and no other |
| `FreeMap.FreeMap.constructor` | fs.c:56-95 | a bitmap as a sequence of booleans |
| `FreeMap.FreeMap.Alloc` | fs.c:56-78 | finds and sets the lowest clear bit, or reports that none is clear |
| `FreeMap.FreeMap.SetBit` | fs.c:56-78 | sets one bit of the abstract map |
| `FreeMap.FreeMap.Free` | fs.c:80-95 | clears the bit, and reports exactly the case in which fs.c panics |
| `FreeMap.FreeMap.ClearBit` | fs.c:80-95 | clears one bit of the abstract map |
| `Blocks.FreeMapExact` | fs.c:56-95 | a bit is set exactly for metadata and blocks some inode slot names, and no two slots name the same block |
| `Blocks.NoneFree` | fs.c:56-78 | no block is free exactly when every bit is set |
| `Blocks.TakeFree` | fs.c:56-78 | taking a free block leaves one less |
| `Blocks.AllocKeeps` | fs.c:372-400 | allocating a free block into an empty slot keeps ownership exclusive and the map exact |
| `Blocks.AllocHidden` | fs.c:372-400 | and shows in no file's contents |
| `Blocks.AllocatedSlots` | fs.c:372-400 | and changes that slot of that inode only |
| `Blocks.WriteStep` | fs.c:498-504 | overwriting a file's block changes that block of that file only |
| `Blocks.ResizeStep` | fs.c:506-509 | changing an inode's other fields moves no block |
| `Blocks.ClearDirectStep` | fs.c:414-419 | freeing a direct block: the block was in use, and the map stays exact |
| `Blocks.FreeIndirectStep` | fs.c:424-427 | the same for a block named through the indirect block |
| `Blocks.ClearIndirectStep` | fs.c:429-430 | freeing the indirect block last empties all indirect slots at once |
| `Blocks.Truncated` | fs.c:407-435 | dropping an inode's ownership frees exactly the blocks it named |
| `Blocks.WordSet` | fs.c:389-394 | storing an address in an indirect block changes that entry only |
| `InodeLayer.OverwrittenIsSplice` | fs.c:481-511 | a write inside the file followed by the size update is a splice of its contents |
| `InodeLayer.BlocksWrittenBytes` | fs.c:498-504 | the block-wise copy replaces exactly the bytes of the range |
| `InodeLayer.ChunkIsPart` | fs.c:498-504 | each cut of the copy loop is the part of the source that belongs in its block |
| `InodeLayer.CopyIsWrite` | fs.c:481-511 | the whole of writei on values |
| `InodeLayer.ChunkFitsReservation` | file.c:126-152 | at any offset of a hole-free file a chunk of three blocks' worth logs at most MAXOPBLOCKS blocks with the inode |
| `InodeLayer.LogCostStep` | fs.c:372-400 | what one block of a write adds to the blocks logged |
| `InodeLayer.LogAdds` | fs.c:372-400 | the blocks that mapping and writing one block logs, at most: itself, its bitmap block, and what the indirect block takes |
| `InodeLayer.NeedSplit` | fs.c:372-400 | what a range of blocks needs is what its first part needs plus what the rest still needs after it, also when both touch a block |
| `InodeLayer.NeedNext` | fs.c:498-504 | the same for bytes, chunk by chunk |
| `InodeLayer.FittingStep` | file.c:136-151 | an operation of filewrite fits a file exactly if it is among the whole operations that fit |
| `InodeLayer.WriteKeepsHoleFree` | fs.c:481-511 | writes keep a file without holes free of holes |
| `InodeLayer.AddressesChange` | fs.c:498-509 | a write changes the inode's addresses if and only if the range had a block without one |
| `InodeLayer.NewAddressGrows` | fs.c:506-509 | in a hole-free file a new address means the file grew, which is when iupdate is called |
| `InodeLayer.StillInSync` | fs.c:506-509 | so the inode on disk equals the cached one after every write |
| `InodeLayer.ChunkRead` | fs.c:469-474 | each step of a read continues the file's contents |
| `InodeLayer.FileSystem.constructor` | fs.c:171-186 | a consistent image mounts |
| `InodeLayer.FileSystem.Balloc` | fs.c:56-78 | a zeroed block that was free, or none exactly when no block is free |
| `InodeLayer.FileSystem.Bmap` | fs.c:372-400 | gives block bn an address, allocating what is missing, without changing any file; fails exactly when fewer blocks are free than are missing, and takes exactly those |
| `InodeLayer.FileSystem.BmapDirect` | fs.c:378-382 | the direct branch of bmap, with its exact failure |
| `InodeLayer.FileSystem.AllocIndirect` | fs.c:387-388 | the allocation of the indirect block, failing exactly when no block is free |
| `InodeLayer.FileSystem.BmapIndirect` | fs.c:389-397 | the indirect branch of bmap, with its exact failure |
| `InodeLayer.FileSystem.Iupdate` | fs.c:220-236 | the inode on disk becomes the cached one |
| `InodeLayer.FileSystem.CopyIn` | fs.c:498-504 | the copy loop of writei; it runs out of blocks exactly when the range needs more than are free |
| `InodeLayer.FileSystem.CopyBlock` | fs.c:498-504 | one iteration of it: the bytes land in their block, and it fails exactly when the range so far needs more blocks than were free |
| `InodeLayer.FileSystem.Writei` | fs.c:481-511 | refused exactly for a gap, a file too large or a wrapping sum, out of blocks exactly when the range needs more than are free; otherwise the contents are spliced, other files unchanged, exactly the needed blocks taken, the disk inode updated if and only if the file grew, a sound file left sound, and the blocks logged counted |
| `InodeLayer.FileSystem.ReadBlock` | fs.c:469-474 | one iteration of readi, failing exactly when a hole needs more blocks than are free |
| `InodeLayer.FileSystem.ReadIn` | fs.c:469-474 | the loop of readi: exactly the bytes of the range, unless its holes need more blocks than are free; it changes nothing if and only if there is no hole |
| `InodeLayer.FileSystem.Readi` | fs.c:452-476 | returns exactly bytes off to min(off+n, size); changes nothing if and only if every block of the range has an address, and runs out of blocks exactly when its holes need more than are free |
| `InodeLayer.FileSystem.Bfree` | fs.c:80-95 | frees a block in use, so its panic does not happen |
| `InodeLayer.FileSystem.TruncDirect` | fs.c:414-419 | frees the direct blocks |
| `InodeLayer.FileSystem.TruncIndirect` | fs.c:421-431 | frees the indirect entries, then the indirect block |
| `InodeLayer.FileSystem.Itrunc` | fs.c:407-435 | frees exactly the blocks the inode named, leaves every other inode and block alone and a sound empty file |
| `InodeLayer.FileSystem.FileWriteOp` | file.c:140-151 | one operation of filewrite: refused, out of blocks or done exactly as writei, and on a sound file within MAXOPBLOCKS logged blocks |
| `InodeLayer.FileSystem.FileWrite` | file.c:117-156 | writes everything that fits a file in whole operations, and succeeds exactly when that is the whole range and it starts inside the file; runs out of blocks exactly when that part needs more than are free; each operation stays within its reservation and a sound file stays sound |
| `Mkfs.EmptyImage` | mkfs.c:108-115 | the empty image satisfies the block invariant |
| `Mkfs.RoundedRoot` | mkfs.c:158-163 | rounding the root's size up leaves a hole if and only if it was already a multiple of the block size |
| `Mkfs.UntouchedAllocation` | mkfs.c:271-284 | taking the next block is an allocation of a zeroed free block |
| `Mkfs.ImageBuilder.constructor` | mkfs.c:94-115 | the image before any file |
| `Mkfs.ImageBuilder.Ialloc` | mkfs.c:223-235 | the next inode, with one link and no contents |
| `Mkfs.ImageBuilder.TakeBlock` | mkfs.c:271-284 | the next free block becomes an inode's slot |
| `Mkfs.ImageBuilder.MapBlock` | mkfs.c:269-286 | the block for a file position, without changing any file; fails exactly when the disk has fewer blocks left than are missing, and takes exactly those |
| `Mkfs.ImageBuilder.MapIndirect` | mkfs.c:276-286 | the same through the indirect block |
| `Mkfs.ImageBuilder.AppendBlock` | mkfs.c:268-294 | one iteration of iappend, failing exactly when the range so far takes more blocks than were left |
| `Mkfs.ImageBuilder.AppendIn` | mkfs.c:268-294 | its loop: all the bytes land in their blocks, or the disk is too small for them |
| `Mkfs.ImageBuilder.Iappend` | mkfs.c:255-297 | adds exactly the bytes at the end of the file and keeps it hole-free; fails exactly when the file would be too large or take more blocks than are left |
| `Mkfs.ImageBuilder.FixRoot` | mkfs.c:158-163 | the size fix of the root directory |
| `Mkfs.ImageBuilder.Balloc` | mkfs.c:237-251 | the written bitmap has exactly the used blocks set, if they fit its first block |
| `Mkfs.ImageBuilder.Finish` | mkfs.c:158-165 | the finished image mounts as a new valid file system with the inodes on disk as in memory and exactly the blocks handed out in use |
| `Links.InitOk` | mkfs.c:117-128 | the root directory alone satisfies the invariant |
| `Links.LinkKeeps` | sysfile.c:116-164 | one more name for a file keeps counts, names and the directory tree: every linked directory still reaches the root through dot-dot |
| `Links.NewFileKeeps` | sysfile.c:245-288 | so does a new file |
| `Links.NewDirKeeps` | sysfile.c:245-288 | so does a new directory with its two entries and the parent's extra link |
| `Links.UnlinkFileKeeps` | sysfile.c:185-242 | so does removing a file's name, whose link count was at least one |
| `Links.UnlinkDirKeeps` | sysfile.c:185-242 | so does removing an empty directory |
| `Links.NoCycle` | sysfile.c:185-288 | no linked directory but the root is its own ancestor through dot-dot |
| `Links.RootedKept` | sysfile.c:116-288 | a step that moves no dot-dot entry of a linked directory keeps every one of them below the root |
| `Links.NewDirRooted` | sysfile.c:270-278 | a new directory hangs below the root where its parent does |
| `Links.CreateExactly` | sysfile.c:245-288 | creating a name keeps the link counts and the tree right if and only if the directory is still linked, which create does not ask |
| `Links.LinkExactly` | sysfile.c:139-153 | the same for link |
| `Links.Orphan` | sysfile.c:245-288 | a file made in a removed directory has a link that no linked directory explains, and after the directory's last iput it stays, with its link and without a name |
| `Links.OrphanDir` | sysfile.c:273-280 | a directory made in a removed directory gives that one a link again, so neither is ever freed |
| `Links.RemovedReachable` | sysfile.c:185-242 | such directories come about: one made, then unlinked while in use |
| `Links.EmptyDirOnce` | sysfile.c:168-182 | an empty directory is named once, in the directory its dot-dot names, and is no directory's parent |
| `Links.ParentStays` | sysfile.c:223-227 | its parent keeps at least one link |
| `Links.DropKeeps` | fs.c:331-352 | freeing an inode without links keeps the invariant |
| `Links.NamedIsLinked` | sysfile.c:212-213 | an inode some linked directory names has a link, so unlink's panic does not happen |
| `Links.Unnamed` | fs.c:194-214 | a number not in use is named nowhere, so reusing it is safe |
| `Links.BumpWalkable` | sysfile.c:139-141 | raising nlink first disturbs no path walk |
| `Links.OneStep` | fs.c:635-650 | where the beginning of a path leads to one inode only, so does the path one name further: names in a directory are unique |
| `Links.LeadsThrough` | fs.c:635-650 | a path that leads somewhere passes, at each of its names, an inode that its beginning leads to, and finds the name there |
| `Links.DeadEnd` | fs.c:635-650 | where the next name is not in use the path leads nowhere |
| `Links.FileTree.constructor` | mkfs.c:117-128 | exactly the root directory, its two entries naming itself |
| `Links.FileTree.DirLookup` | fs.c:524-548 | the slot of the live entry with the name, or none |
| `Links.FileTree.DirLink` | fs.c:551-578 | refused exactly when the name is in use, otherwise one free slot is filled, in a removed directory too |
| `Links.FileTree.IsDirEmpty` | sysfile.c:168-182 | true exactly when all slots after dot and dot-dot are free |
| `Links.FileTree.Namex` | fs.c:624-657 | returns an inode if and only if a chain of live entries with the names of the path leads to it, and as nameiparent the directory such a chain leads to before the last name; both have links unless the walk is one name from a removed directory |
| `Links.FileTree.Link` | sysfile.c:116-164 | succeeds if and only if the old path names a file and the new one a free name in a directory; then exactly that name is added and counted, and otherwise everything is as before; the invariant holds afterwards if and only if it failed or that directory is linked |
| `Links.FileTree.RemoveEntry` | sysfile.c:220-230 | unlink's changes: the entry erased, one link less, and with a directory one link of the parent |
| `Links.FileTree.Unlink` | sysfile.c:185-242 | succeeds if and only if the path names a file or an empty directory and not through dot or dot-dot; then that name goes with its link, and with a directory one link of the parent, and otherwise nothing changes |
| `Links.FileTree.MakeEntry` | sysfile.c:264-286 | create's changes: the new inode with its link and name; the invariant holds afterwards if and only if the directory is linked |
| `Links.FileTree.Create` | sysfile.c:245-288 | makes a new counted inode if and only if the path ends in a free name in a directory, and returns an existing one if and only if a file is asked for and the path names one; the invariant holds afterwards if and only if it made none or the directory is linked |
| `Links.FileTree.Iput` | fs.c:331-352 | the last reference removes exactly an inode without links |
| `Bio.UnlinkKeeps` | bio.c:132-133 | taking a buffer out leaves a circular doubly linked list of the others |
| `Bio.PushKeeps` | bio.c:134-137 | putting it behind the head gives one with it in front |
| `Bio.ReleaseRecency` | bio.c:130-138 | the list stays in order of release |
| `Bio.Recycle` | bio.c:81-91 | giving a clean unused buffer to another block loses no contents |
| `Bio.ReadIn` | memide.c:38-60 | filling an invalid buffer from disk gives the block's latest contents |
| `Bio.Modify` | log.c:231 | a dirty buffer's new contents are the store's |
| `Bio.WriteOut` | memide.c:38-60 | writing a dirty buffer out keeps what the cache shows |
| `Bio.Chain` | bio.c:38-54 | binit's loop builds the list of all buffers |
| `Bio.Cache.constructor` | bio.c:38-54 | an empty cache shows the disk |
| `Bio.Cache.Lookup` | bio.c:69-76 | finds the buffer of a block if and only if there is one |
| `Bio.Cache.Oldest` | bio.c:81-91 | the clean unused buffer released longest ago, or none if and only if there is none |
| `Bio.Cache.Bget` | bio.c:61-93 | the block's only buffer, or the least recently released clean unused one; fails exactly where the source panics, with the block not cached and no buffer clean and unused |
| `Bio.Cache.Iderw` | memide.c:38-60 | brings buffer and disk into agreement |
| `Bio.Cache.Bread` | bio.c:96-106 | returns the latest contents of the block, whatever is cached or still dirty, unless there is no buffer for it |
| `Bio.Cache.LogWrite` | log.c:213-233 | a logged change becomes the block's contents and stays pinned |
| `Bio.Cache.Bwrite` | bio.c:109-116 | a written change becomes the block's contents on disk too |
| `Bio.Cache.Brelse` | bio.c:120-141 | the last release moves the buffer to the front and marks it newest |
| `Bio.Cache.MoveToFront` | bio.c:130-138 | keeps the list a permutation of all buffers |
| `Umalloc.BlocksDisjoint` | umalloc.c:24-90 | blocks, live or free, never overlap |
| `Umalloc.Coarsen` | umalloc.c:33-41 | merging a block into the one that ends where it starts keeps the partition |
| `Umalloc.Refine` | umalloc.c:79-83 | cutting the end off a block keeps it |
| `Umalloc.TakeKeeps` | umalloc.c:76-78 | unlinking a block of exact size keeps partition, order and links |
| `Umalloc.SplitKeeps` | umalloc.c:79-83 | so does cutting the end off a larger one |
| `Umalloc.CutKeeps` | umalloc.c:75-86 | malloc's two ways of taking units are one step of the heap, and its header assignments are that step |
| `Umalloc.JoinKeeps` | umalloc.c:33-35 | so does merging the block after |
| `Umalloc.GiveKeeps` | umalloc.c:36-37 | so does linking a block into its gap |
| `Umalloc.MergeKeeps` | umalloc.c:38-41 | so does merging with the block before |
| `Umalloc.GrantKeeps` | umalloc.c:54-58 | so does memory from sbrk |
| `Umalloc.StopsAtGap` | umalloc.c:30-32 | free's stopping test holds at the block's gap and at no other place of the list |
| `Umalloc.FreedKeeps` | umalloc.c:24-44 | free as a whole: only that block changes hands, neighbours merge, and it is found next from freep |
| `Umalloc.FreedHeaders` | umalloc.c:33-43 | the four assignments of free are that change |
| `Umalloc.NoneFits` | umalloc.c:74-88 | a walk that is back at its start has met every free block |
| `Umalloc.WrapExactly` | umalloc.c:69 | a request is served in full, and sbrk asked for exactly the chunk, if and only if it is at most two gigabytes less two headers |
| `Umalloc.Allocator.constructor` | umalloc.c:21-22 | nothing allocated yet |
| `Umalloc.Allocator.Sbrk` | umalloc.c:54-56 | fails, or moves the break up past memory nobody has |
| `Umalloc.Allocator.FindGap` | umalloc.c:30-32 | the walk ends, at the gap |
| `Umalloc.Allocator.Relink` | umalloc.c:33-43 | the header assignments of free |
| `Umalloc.Allocator.Free` | umalloc.c:24-44 | the block alone becomes free; units, other live blocks and the list's order are kept |
| `Umalloc.Allocator.Morecore` | umalloc.c:46-61 | a chunk joins the list within reach of freep, or nothing changes; wild exactly when the chunk in bytes is not the int that sbrk receives |
| `Umalloc.Allocator.TakeFrom` | umalloc.c:75-86 | takes exactly nunits units off the end of the chosen block |
| `Umalloc.Allocator.Start` | umalloc.c:70-73 | the first call's empty list |
| `Umalloc.Allocator.Search` | umalloc.c:74-87 | the walk ends, at the first block after freep with enough units, if and only if there is one |
| `Umalloc.Allocator.Malloc` | umalloc.c:63-90 | first fit: the end of the first block after freep with enough units, exactly the units asked for, not live before, all other live blocks untouched; sbrk called, once, exactly when no free block has them, for exactly a chunk, and null exactly when it fails; wild exactly when the chunk in bytes would wrap |
| `Vm.Freerange` | kalloc.c:46-53 | the pool holds each frame of the range once |
| `Vm.KallocKeeps` | kalloc.c:82-95 | taking a frame from the pool keeps every frame accounted for |
| `Vm.KfreeKeeps` | kalloc.c:59-77 | so does giving it back |
| `Vm.NewTableKeeps` | vm.c:41-54 | a new page table changes no mapping |
| `Vm.MapUserKeeps` | vm.c:60-80 | mapping a frame changes one page of one address space |
| `Vm.FreePageKeeps` | vm.c:269-276 | freeing a page's frame changes one page and returns that frame |
| `Vm.MapKernelKeeps` | vm.c:60-80 | a kernel mapping changes one page |
| `Vm.DropTableKeeps` | vm.c:291-296 | freeing a page table without user pages loses no frame |
| `Vm.DropDirKeeps` | vm.c:297 | freeing the directory last loses no frame |
| `Vm.JumpOver` | vm.c:267-268 | jumping to the next table passes no mapped page |
| `Vm.Rollback` | vm.c:236-238 | freeing the range after a failure restores every mapping and every page frame |
| `Vm.PoolRestored` | vm.c:342-344 | freeing a new address space gives the pool back exactly what was taken |
| `Vm.TookTwice` | vm.c:35-80 | costs add up: a page table made for one page is not paid for again by the next |
| `Vm.TooLittle` | vm.c:35-80 | a pool too small for a part of the work is too small for the whole |
| `Vm.Memory.constructor` | kalloc.c:31-53 | the pool at boot |
| `Vm.Memory.Kalloc` | kalloc.c:82-95 | the first frame of the pool, or none if and only if there is none |
| `Vm.Memory.Kfree` | kalloc.c:59-77 | the frame is free again, no address space changed |
| `Vm.Memory.Walk` | vm.c:35-55 | after it the page table exists, all mappings as before; it takes a frame exactly if the table was missing, and fails exactly if then there is none |
| `Vm.Memory.MapPage` | vm.c:60-80 | maps exactly one user page, or changes nothing, which happens exactly when its table is missing and the pool empty |
| `Vm.Memory.MapKernelPage` | vm.c:60-80 | the same for a kernel page, which was not mapped before, so the remap panic does not happen |
| `Vm.Memory.MapRange` | vm.c:60-80 | maps consecutive kernel pages to consecutive frames; fails exactly when the pool holds fewer frames than tables are missing |
| `Vm.Memory.DropPages` | vm.c:264-277 | frees each mapped frame of the range once and no other, also across absent tables |
| `Vm.Memory.GrowPages` | vm.c:232-247 | zeroed frames from the pool for the whole range, or all mappings as before; fails exactly when the pool holds fewer frames than pages and missing tables |
| `Vm.Memory.Deallocuvm` | vm.c:255-279 | the return value and the pages between the two sizes |
| `Vm.Memory.Allocuvm` | vm.c:221-249 | the return value in all four cases and what is mapped afterwards; memory runs out exactly when the pool holds fewer frames than new pages and missing tables |
| `Vm.Memory.Freevm` | vm.c:283-298 | returns exactly the frames of the address space, each once |
| `Vm.Memory.Setupkvm` | vm.c:118-135 | a new space with exactly the kernel's mappings, or the pool as it was; fails exactly when the pool holds fewer frames than a directory and the kernel's tables |
| `Vm.Memory.CopyPage` | vm.c:323-340 | one iteration of copyuvm: the page with its flags and contents, or the new space as it stood |
| `Vm.Memory.Copyuvm` | vm.c:315-345 | same contents and flags in frames that were free, or the pool as it was; the parent unchanged either way; fails exactly when the pool holds fewer frames than a directory, all its tables and the pages |
| `SleepLock.EveryRunSafe` | sleeplock.c:22-42 | in every run at most one process holds a lock, and with the spinlock free a sleeper means the lock is taken |
| `SleepLock.StepKeeps` | proc.c:608-689 | every step keeps the whole invariant |
| `SleepLock.StepLocal` | sleeplock.c:22-42 | a step changes a spinlock only by taking it free or giving it back, and a lock's fields only while owning it |
| `SleepLock.OwnersKept` | sleeplock.c:22-42 | each spinlock is owned by exactly the process between its acquire and release |
| `SleepLock.HoldersKept` | sleeplock.c:22-42 | locked, pid and the holder agree |
| `SleepLock.WaitMoves` | proc.c:608-644 | what a process does in sleep keeps its own reason to wait |
| `SleepLock.WaitStays` | proc.c:649-689 | nobody else's step takes a sleeper's reason away without waking it |
| `SleepLock.WakeStays` | proc.c:649-665 | a pending wakeup stays pending until its scan is at the sleeper |
| `SleepLock.HeldStays` | sleeplock.c:34-42 | only the holder's release clears a lock |
| `SleepLock.WakeupComplete` | proc.c:649-665 | when wakeup returns nobody is left asleep on the lock |
| `SleepLock.SpinlocksProgress` | proc.c:608-644 | while a spinlock is owned some owner can take its next step |
| `SleepLock.BlockedOnHolder` | sleeplock.c:22-32 | a blocked process is asleep on a lock that some process holds |
| `ExitWait.EveryRun` | proc.c:194-333 | in every run parents are alive, sleepers in wait have a child and no zombie child, pids are reaped once, stacks and page directories are in one slot or freed |
| `ExitWait.StepKeeps` | proc.c:194-333 | every step keeps this |
| `ExitWait.ExitRelations` | proc.c:266-284 | exit leaves every process with a live parent |
| `ExitWait.ExitWaiter` | proc.c:268-280 | exit wakes whoever waits for a zombie it makes or hands over |
| `ExitWait.ReapRelations` | proc.c:306-320 | reaping keeps parents alive and sleepers justified |
| `ExitWait.ReapAccounts` | proc.c:306-320 | reaping keeps every stack and page directory accounted for |
| `ExitWait.ReapFrees` | proc.c:306-320 | reaping frees exactly the zombie's stack and page directory, both held until then, and returns a new pid |
| `ExitWait.StepFrees` | proc.c:194-333 | every step frees only what is held and leaves all other storage where it is |
| `ExitWait.FreedStays` | proc.c:194-333 | over every run a stack or page directory stays in its slot until it is freed, and then stays freed |
| `ExitWait.TakeRelations` | proc.c:82-102 | allocproc's taking of a slot under the lock keeps the relations |
| `ExitWait.TakeAccounts` | proc.c:82-102 | and gives it a new pid |
| `ExitWait.StackRelations` | proc.c:104-109 | getting its kernel stack keeps the relations |
| `ExitWait.StackAccounts` | proc.c:104-109 | and accounts for the stack |
| `ExitWait.ForkFamily` | proc.c:194-242 | no step of fork takes a parent away or gives anybody a zombie child |
| `ExitWait.CopyRelations` | proc.c:207-215 | copying makes the forking process the parent |
| `ExitWait.CopyAccounts` | proc.c:207-215 | and gives it a page directory |
| `ExitWait.DropRelations` | proc.c:207-213 | a slot given back, after a failed copy or for want of a stack (proc.c:105-109), leaves no trace in the relations |
| `ExitWait.DropAccounts` | proc.c:207-213 | and frees the stack, if it had one, once |
| `ExitWait.StartRelations` | proc.c:230-234 | the child starts with a live parent |
| `ExitWait.StartAccounts` | proc.c:230-234 | and its storage |
| `ExitWait.MinorRelations` | proc.c:670-689 | kill, sleeping and waking elsewhere, and wait without a zombie keep the relations |
| `ExitWait.MinorAccounts` | proc.c:670-689 | and the accounts |
| `ExitWait.ProcTable.constructor` | proc.c:133-166 | the first process alone |
| `ExitWait.ProcTable.Wakeup1` | proc.c:649-657 | wakes exactly the sleepers on the channel |
| `ExitWait.ProcTable.Exit` | proc.c:266-284 | the critical section of exit is the step |
| `ExitWait.ProcTable.Wait` | proc.c:296-332 | a pass of wait is the step: the first zombie child, -1, or sleep |
| `Pipe.EveryRun` | pipe.c:59-121 | in every run received bytes are a prefix of sent ones, short by at most the buffer; sleeping writers face a full pipe with the read end open; with nobody killed sleeping readers face an empty one with the write end open |
| `Pipe.WritersStep` | pipe.c:78-98 | every step keeps the writers' half |
| `Pipe.ReadersStep` | pipe.c:86-89 | a step keeps the readers' half if and only if it is not a killed writer giving up after filling the pipe under a sleeping reader |
| `Pipe.ReadersExactly` | pipe.c:78-121 | in every state of a run a sleeping reader faces an empty pipe with the write end open, if and only if no step of the run is a skipped wakeup |
| `Pipe.KilledWriter` | pipe.c:86-89 | a run that ends with a full pipe and its reader asleep |
| `Pipe.Do` | pipe.c:59-121 | each step keeps the prefix relation and only extends what was sent and received |
| `Pipe.Wrapped` | pipe.c:84-95 | the tests and indices on wrapped 32-bit counters are those on the true totals |
| `Pipe.Ring.constructor` | pipe.c:22-47 | an empty pipe |
| `Pipe.Ring.PutByte` | pipe.c:93 | one byte into a pipe that is not full |
| `Pipe.Ring.PutBytes` | pipe.c:83-95 | appends as many bytes as fit, in order |
| `Pipe.Ring.GetBytes` | pipe.c:113-117 | takes out the oldest bytes, in order |
| `Scheduler.Cpu.constructor` | proc.c:503-507 | an arbitrary table and arbitrary behaviour of processes |
| `Scheduler.Cpu.RunP` | proc.c:376-396 | counts the process, and dispatches it if and only if it is runnable |
| `Scheduler.Cpu.RunPid` | proc.c:415-426 | exactly the chosen process is dispatched and charged |
| `Scheduler.Cpu.RunThirdLevel` | proc.c:398-426 | dispatches a runnable level-2 process of least remaining priority, one if and only if some such priority is below the starting minimum |
| `Scheduler.Cpu.RunSecondLevel` | proc.c:428-461 | dispatches a runnable level-1 process of greatest response ratio |
| `Scheduler.Cpu.TotalTickets` | proc.c:470-476 | sums the level-0 tickets |
| `Scheduler.BootRuns` | proc.c:88-100 | the table of the first pass, init among zeroed slots, is in order, and whatever ticket is drawn the first to run is init |
| `Scheduler.Cpu.RunFirstLevel` | proc.c:463-493 | dispatches level-0 processes only, first the first runnable one at or after the drawn ticket's owner; traps, before any, exactly when the tickets add up to zero as a uint |
| `Scheduler.Cpu.Pass` | proc.c:503-549 | a pass dispatches only from the lowest level with a runnable process at its start, whatever dispatched processes do, and at level 1 and 2 some process exactly if one can be chosen; it traps at once if level 0 has a runnable process and no tickets |
| `Grep.Match` | grep.c:72-82 | true exactly when some substring is in the pattern's language, the first position only after a caret |
| `Grep.MatchHere` | grep.c:85-96 | true exactly when a prefix of the text is in the language |
| `Grep.MatchStar` | grep.c:99-106 | true exactly when some number of allowed characters leads to a match of the rest |
| `Grep.HereStar` | grep.c:89-90 | the meaning of a starred character followed by a pattern |
| `Grep.HereOne` | grep.c:93-94 | the meaning of a single character followed by a pattern |
| `Grep.HereEnd` | grep.c:91-92 | the meaning of a last dollar sign |
| `Grep.HereEmpty` | grep.c:87-88 | the empty pattern matches everywhere |
| `Shell.RoundTrip` | sh.c:341-467 | every tree with word arguments, at most nine of them a command, is the parse of its printed line |
| `Shell.ParsesExactly` | sh.c:341-467 | some line parses to a tree if and only if it is such a tree |
| `Shell.LineBack` | sh.c:359-376 | a printed line followed by a closing parenthesis or nothing parses back |
| `Shell.PipeBack` | sh.c:378-390 | so does a printed pipeline in its context |
| `Shell.ExecBack` | sh.c:435-467 | so does a printed command or block with its redirections |
| `Shell.BackBack` | sh.c:364-369 | so do any number of ampersands |
| `Shell.RedirsBack` | sh.c:392-416 | so do redirections, innermost first |
| `Shell.ArgsBack` | sh.c:451-463 | so do arguments with redirections after them |
| `Shell.LexBack` | sh.c:279-323 | printed tokens lex back |
| `Shell.LineSound` | sh.c:359-376 | an accepted line yields only such trees |
| `Shell.ExecSound` | sh.c:435-467 | an accepted command has at most nine word arguments |
| `Shell.SkipWord` | sh.c:310-314 | a longest run of word characters |
| `Shell.GetToken` | sh.c:279-323 | the next token of the line, its place, and the rest |
| `Shell.Peek` | sh.c:325-334 | whether the next token starts with one of the characters, without consuming it |
| `Shell.ParseRedirs` | sh.c:392-416 | the redirections the grammar gives, or its error |
| `Shell.RedirStep` | sh.c:397-415 | one turn of the redirection loop in the grammar's terms |
| `Shell.ParseArgs` | sh.c:446-467 | the argument list the grammar gives, or its error |
| `Shell.ParseExec` | sh.c:435-467 | a command as the grammar gives it |
| `Shell.ParseBlock` | sh.c:419-433 | a parenthesised line as the grammar gives it |
| `Shell.ParsePipe` | sh.c:378-390 | a pipeline as the grammar gives it |
| `Shell.ParseLine` | sh.c:359-376 | a line as the grammar gives it |
| `Shell.NulExec` | sh.c:485-489 | a NUL after each argument and nothing else changed |
| `Shell.Nulterminate` | sh.c:470-515 | a NUL after each word of the tree and nothing else changed |
| `Shell.ReadsBack` | sh.c:470-515 | afterwards each word reads as exactly its token |
| `Shell.ParseCmd` | sh.c:341-357 | accepts exactly the grammar's lines with the grammar's tree, and every argument and file name is a C string of its own |

## Left out

- Hardware and boot, device drivers beyond the memory disk's contract, interrupts, spinlock internals and the memory model: acquire and release are atomic steps.
- Concurrency inside the file system calls, the buffer cache, the page pool and the user allocator: each call is one step there.
- The window in link and create between finding a directory and locking it, in which another process may remove it: system calls are single steps.
- Path walks of more than one name from a directory already removed, and through its two entries, which may name inodes that are gone.
- kill's search for a pid: the victim is a slot, and may be any slot.
- Packing of inodes into blocks and ialloc's search for a free one: inodes are a sequence, and new inode numbers are given.
- The inode cache's reference counts and the file table's: a last reference is a step of its own.
- skipelem and the truncation of names to DIRSIZ: paths are sequences of names.
- loaduvm, inituvm, copyout, clearpteu and growproc: easy members over the same page table.
- Console line editing, barriers, get_children_of and the number formatting and printing helpers.
- exec, system call argument fetching, runcmd and the other user programs; grep's reading of its input in chunks.
- Running out of disk blocks is an outcome of the calls, with its exact condition, not a panic; running out of inodes or inode cache entries is excluded by a precondition.
- Umalloc.Allocator.Malloc: what the process does after sbrk was asked for a wrapped size is not followed; that is the outcome `wild`.
- Scheduler.Ratio: response ratios are exact reals, not rounded doubles.
- Shell.ParseArgs: the argument array is filled in a command that redirections already wrap; here arguments and redirections are collected and wrapped at the end.
- ExitWait.Pids: pids are unbounded, so their wrap-around is not modelled.
- Bio.Cache.LogWrite: a change of a buffer and the call that marks it are one step; a change never marked is not modelled.
