# A model of the xv6 kernel with record and replay, and proofs about it

The repository holds three copies of a small Unix kernel; `v3` is the most complete one and is what this project models.
The project states what the kernel's hardest parts promise and proves it in Dafny 4.11, for all inputs, and for the
protocols (the log, crashes, sleep and wakeup, pipes, processes, inode locks) for all interleavings. The code that is
written out as classes runs one call at a time. `dafny verify dfyconfig.toml` checks everything. Nothing here executes
the kernel.

The parts, from the disk upwards:

- **Crash-safe storage.** `LogProtocol` is the bookkeeping of the redo log as a state machine. `RedoLog` gives the disk
  image after every single block write of a commit and of a recovery, and `CrashRuns` whole histories in which the power
  may fail after any write; `LogOverrun` is the one budget at which that is not safe. `CommittedData` says of every
  block what a crash leaves of it, from the events and the disk alone, and `LogProgress` that commits and recoveries can
  be finished. `BufferCache` is the linked LRU cache, `LogDriver` the code of the log on top of it; its methods pass
  through exactly the images that the crash analysis is about. `Bitmap`, `Ownership`, `Contents` and `FileSystem` are
  block allocation, who owns which block, the bytes of a file, and the code of `v3/fs.c` and `v3/file.c` that keeps all
  three. `Durability` puts the two together: what a crash anywhere in a write leaves of the file.
- **Names and references.** `Directories` is a directory, a file of entries, as a map from names to inodes. `Paths`
  takes path names apart and resolves them. `References` counts who refers to an inode cache entry or an open file, and
  `Inodes` is the code that takes and gives these references, with its locks and transactions, up to the system calls
  and to every sequence of them. `LockOrder` is the order in which calls that run at once take the locks of inodes.
- **Record and replay.** `Records` is the file format, `Session` the one serializer that both reads and writes it,
  `Unambiguous` the fact that a session file can be read in one way only, `LongSessions` what happens to one that is too
  long. `CallRecords` is what each call stores and which record answers it, `SyscallBodies` the two forms in which every
  covered call is written, `CallEffects` what these calls do, `Replay` what each mode does and what follows for whole
  runs, and `RecordReplay` the engine's code.
- **Memory.** `PageTables` and `VirtualMemory` are the frame allocator and two-level page tables, `FrameCounts` the
  number of frames they take, `FreeList` and `Malloc` the user-level allocator of section 8.7 of Kernighan and Ritchie,
  The C Programming Language, 2nd edition.
- **Processes.** `Monitor` is sleep and wakeup around a spinlock, for any code that follows its rules; `SleepLock`,
  `Pipes` and `LogWait` are such code. `PipeCalls` and `PipeRoundTrip` are what the callers of a pipe see. `ExitWait` is
  fork, exit, wait and the scheduler, and `ProcessCycles` the turns that a process goes through.
- **Regular expressions.** `Regexp` is the matcher of chapter 9 of Kernighan and Pike, The Practice of Programming.

Code that changes state step by step is a class with methods and loops; protocols are state machines whose steps are the
points where other processes can intervene. The outside world (answers of the disk, of sbrk, of directory contents,
whether a process has been killed) enters as parameters or as choices left open.

## Findings

Where the code does not do what its comments or constants suggest, the model follows the code:

- `log_write` compares against one block less than the log has, and before it looks for a repeated block, while
  `begin_op` reserves for the whole log. With the promised ten blocks per operation a panic is reachable, even for an
  operation that has blocks left; with fewer no state of any run panics (`LogProtocol.PanicExactlyAtFullBudget`). On a
  disk with one bitmap block `filewrite` stays below ten (`FileSystem.WriteiCost`).
- `log_write` makes that comparison before it takes the lock. Two operations can both pass it and then both add a block,
  so with ten blocks per operation the log can outgrow its area without a panic
  (`LogProtocol.OverrunExactlyAtFullBudget`). `write_log` then writes over the first block behind the log, which holds
  inodes, before the commit header is there, and a crash leaves it overwritten. There is such a run exactly when
  operations may add ten blocks (`LogOverrun.SpoiledExactlyAtFullBudget`); crash safety is proved for all smaller
  budgets (`CrashRuns.CrashSafety`).
- A record made by chdir carries the tag of mkdir, so a replayed mkdir of the same path accepts it
  (`CallRecords.MatchesExactly`).
- A replayed read copies into the caller's buffer even after the comparison has failed, with a size taken from the
  record that did not match. It reads outside that record exactly when that was made by getpid, uptime or mknod, holds a
  descriptor or mode above 200 where the size is looked for, or there is no record left
  (`CallRecords.ReadSpillsOutside`). fstat does so for a record of mknod (`CallRecords.FstatSpillsOutside`). The other
  calls copy nothing.
- A recorded read or fstat of a descriptor that is not open stores what lies behind a pointer that was never set. The
  record is right, whatever that is, exactly for open descriptors and reads of no bytes
  (`SyscallBodies.RecordIsRightExactly`).
- `malloc` computes its size in 32 bits: a block is large enough exactly when the request is at most 2^32 - 8 bytes
  (`Malloc.RoomUnlessWrapped`), and sbrk is asked for what was meant exactly below 2^28 units
  (`Malloc.SbrkArgumentExact`).
- A writer that finds a pipe full and has been killed, or finds the read end closed, returns without waking the readers
  for whom it has stored bytes. A sleeping reader has something to read exactly when that has happened since the pipe
  was last drained (`Pipes.ReaderLeftAsleepExactly`; `Pipes.ReaderCanBeLeftAsleep` is such a run). Writers are always
  woken in time.
- `dirlink` gives up what a name already stands for without looking whether that is the directory it has locked. Linking
  to a name such as "d/." then waits for ever; for a link that runs alone this is the only such case
  (`Inodes.Vfs.SysLink`, `Inodes.LinkToSelf`).
- `iput` takes the lock of the inode it gives up. At the end of unlink and create that is the directory, while the child
  is still locked, and in dirlink it can be the directory above, while the one below is locked. Both close cycles with
  an unlink that locks from the directory to the name: creating a name and unlinking it (`LockOrder.CreateAndUnlink`),
  unlinking two names of one file in one directory (`LockOrder.UnlinkAndUnlink`), or linking to "d/.." and unlinking "d"
  (`LockOrder.LinkAndUnlink`) can wait for each other for ever. Without a process in one of these two places there is no
  such cycle among any number of processes (`LockOrder.DeadlockNeedsUpward`).
- `record_stop` checks its buffer only before each record. A byte is stored behind the buffer exactly if the session's
  encoding is longer than MAX_FILE_SIZE (`LongSessions.StorePositions`), which 271 reads of 200 bytes reach
  (`LongSessions.ManyReads`).
- `kill` looks at free slots too, whose pid is 0 or that of a process that could not be made, and `allocproc` does not
  clear the mark. A new process starts out killed exactly if a kill has found its slot since wait last cleared it
  (`ExitWait.NewProcessKilledExactly`; `ExitWait.KillZero` is such a run).

## Model

| member | source | states |
|---|---|---|
| LogProtocol.StepKeepsInv | v3/log.c:126-233 | every step of begin_op, log_write, end_op and commit, with the unlocked test and the locked section of log_write as two steps, keeps: no operation is outstanding during a commit, the logged list has no duplicates, and begin_op lets nobody in whose reservation would not fit |
| LogProtocol.EveryRunKeepsInv | v3/log.c:126-233 | the same in every state of every interleaving, and somebody is there to wake those who wait |
| LogProtocol.ReservationHolds | v3/log.c:126-141 | if each operation adds at most k of its MAXOPBLOCKS blocks, logged blocks plus all unspent reservations stay within LOGSIZE less two for every block below MAXOPBLOCKS, in every state of every run |
| LogProtocol.PanicExactlyAtFullBudget | v3/log.c:214-233 | with nlog = LOGSIZE a state in which log_write panics is reachable if and only if operations may add MAXOPBLOCKS blocks, and then also with an operation that has blocks left |
| LogProtocol.OverrunExactlyAtFullBudget | v3/log.c:214-233 | with nlog = LOGSIZE a state in which the logged blocks no longer fit the log area is reachable if and only if operations may add MAXOPBLOCKS blocks |
| RedoLog.HeadRoundTrip | v3/log.c:86-113 | read_head finds the block list that write_head stored, whatever stale entries lie behind it |
| RedoLog.InstallAt | v3/log.c:70-82 | after k copies the first k home blocks have their logged contents and all other blocks are untouched |
| RedoLog.RecoverIdle | v3/log.c:116-122 | recovery with an empty header changes no home block |
| RedoLog.RecoveryIsRestartable | v3/log.c:116-122 | recovery stopped after any of its writes and started again ends in the same disk |
| RedoLog.SealedRecovers | v3/log.c:178-202 | once the header is written, recovery yields all new home blocks |
| RedoLog.CommitIsAtomic | v3/log.c:178-202 | after any number of the writes of a commit, recovery yields all old home blocks, or all new ones from the header write on |
| CrashRuns.CrashRunKeepsInv | v3/log.c:69-233 | the invariant of the whole logging system, and the reservation of log space, hold in every state of every run with crashes anywhere, for operations of at most k blocks each whose reservations fit the log area; with nlog = LOGSIZE, for k < MAXOPBLOCKS |
| CrashRuns.CrashSafety | v3/log.c:69-233 | stopping in any state of any run of such operations, recovery yields exactly the committed updates, no operation is committed in part, and with no operation outstanding everything ended is committed |
| CommittedData.BlockAfterCrash | v3/log.c:178-233 | told by the events and the disk alone: whenever the power fails, recovery gives each home block the contents of the latest log_write of it that a commit header followed without a crash in between, absorbed or not, and leaves a block without one as the first boot found it |
| CommittedData.HistoryIsTold | v3/log.c:214-233 | in every state of every run the history holds, in order and with their contents, exactly the log_writes that no crash has discarded, and the cut is where the last commit header was written |
| CommittedData.CommitsExactly | v3/log.c:102-122 | the header on disk goes from empty to not empty in no write but the header write of a commit |
| CrashRuns.CommittedStays | v3/log.c:193-202 | what is committed stays committed for the rest of the run, whatever the operations add |
| CrashRuns.HomeUntouchedBeforeHeader | v3/log.c:193-233 | in the same runs no home block changes on disk before the header of its commit is written |
| CrashRuns.RunsExtend | v3/log.c:69-233 | the runs considered are all runs of such operations: every enabled event extends one |
| LogProgress.CommitCompletes | v3/log.c:178-202 | from every state of every run with a commit under way there is a run that finishes it, with the log empty and the home blocks on disk what the cache showed |
| LogProgress.RecoveryCompletes | v3/log.c:116-122 | from every state of every run that is recovering there is a run that finishes it, with the committed home blocks on disk |
| LogOverrun.SpoiledExactlyAtFullBudget | v3/log.c:178-233 | on any disk with nlog = LOGSIZE there is a run of operations of at most k blocks each in which a crash followed by recovery does not give the committed updates, if and only if k >= MAXOPBLOCKS |
| LogOverrun.LastCopySpoils | v3/log.c:178-190 | the last of 30 log copies lands on the first block behind the log area, and recovery leaves it so |
| BufferCache.UnlinkKeepsRing | v3/bio.c:121-141 | taking a buffer off the circular list leaves a circular list of the others in the same order |
| BufferCache.LinkFrontKeepsRing | v3/bio.c:39-56 | linking a buffer in behind the head puts it first on the circular list |
| BufferCache.Recycle | v3/bio.c:62-93 | reusing a buffer that nobody uses and log_write has not pinned changes the logical contents of no block |
| BufferCache.FillKeepsView | v3/memide.c:39-60 | reading a block into its buffer changes no logical contents |
| BufferCache.WriteKeepsView | v3/memide.c:39-60 | writing a buffer to disk changes no logical contents |
| BufferCache.StoreChangesView | v3/bio.c:97-116 | changing a held buffer changes the logical contents of its block only |
| BufferCache.Cache.constructor | v3/bio.c:39-56 | binit leaves one circular list of all buffers, none in use, showing the plain disk |
| BufferCache.Cache.Find | v3/bio.c:62-77 | the first scan finds the buffer of a block if and only if there is one |
| BufferCache.Cache.FindFree | v3/bio.c:79-92 | the second scan finds the least recently used buffer that is neither referenced nor pinned, if there is one |
| BufferCache.Cache.Bget | v3/bio.c:62-93 | a block gets its one buffer or the least recently used free one; it fails exactly when neither exists; no logical contents change |
| BufferCache.Cache.Fill | v3/memide.c:39-60 | iderw fills an invalid buffer from the disk |
| BufferCache.Cache.Bread | v3/bio.c:97-106 | bread returns the latest logically written contents of the block |
| BufferCache.Cache.Bwrite | v3/bio.c:110-116 | bwrite changes one disk block and no logical contents |
| BufferCache.Cache.Brelse | v3/bio.c:121-141 | releasing the last reference moves the buffer to the front, and nothing else changes |
| LogDriver.CommitTraceAt | v3/log.c:193-202 | the j-th disk written by the code of commit is the j-th image of the crash analysis |
| LogDriver.RecoveryTraceAt | v3/log.c:116-122 | the same for recover_from_log |
| LogDriver.FreeBesides | v3/bio.c:62-93 | besides the buffers that somebody refers to, all but as many as there are logged blocks are free |
| LogDriver.CommitShowsSame | v3/log.c:193-202 | after a commit the cache shows of every home block what it showed before, also where others hold buffers |
| LogDriver.Log.constructor | v3/log.c:54-66 | initlog leaves the recovered disk and an empty log |
| LogDriver.Log.CopyBlock | v3/log.c:70-82 | one round of install_trans or write_log writes the logical contents of one block over another, in one disk write, and leaves buffers in the hands of others alone |
| LogDriver.Log.WriteLog | v3/log.c:178-190 | write_log copies the logged blocks, in order, into the log area, and leaves home blocks and the buffers of others alone |
| LogDriver.Log.FillHead | v3/log.c:102-113 | write_head's loop stores count and block list in the header |
| LogDriver.Log.WriteHead | v3/log.c:102-113 | write_head is one disk write of that header |
| LogDriver.Log.InstallTrans | v3/log.c:70-82 | install_trans puts the log area over the home blocks and unpins them |
| LogDriver.Log.Commit | v3/log.c:193-202 | commit passes through exactly the disks of the crash analysis, shows the same logical home blocks as before, leaves the log empty, and leaves alone every buffer that a reader outside any transaction refers to |
| LogDriver.Log.TakeHead | v3/log.c:86-96 | read_head's loop takes over the block list of the header |
| LogDriver.Log.ReadHead | v3/log.c:86-96 | read_head takes over the list that is on disk |
| LogDriver.Log.RecoverFromLog | v3/log.c:116-122 | recover_from_log leaves the recovered disk, passing through exactly the disks of the crash analysis |
| LogDriver.Log.Absorbed | v3/log.c:214-233 | log_write's loop appends a new block and absorbs a repeated one |
| LogDriver.Log.PassTest | v3/log.c:218-221 | the two tests of log_write pass exactly where the protocol lets an operation pass |
| LogDriver.Log.NoteBlock | v3/log.c:223-232 | the locked part of log_write is an Append step, whatever others have logged since the test |
| LogDriver.Log.WriteBlock | v3/log.c:214-233 | bread, modify, log_write, brelse changes one block of the logical disk and is a Test and an Append step of the protocol, with any other buffers held meanwhile; refused exactly where the source panics |
| LogDriver.Log.BeginOp | v3/log.c:126-141 | one pass of begin_op's loop is a Begin or a Sleep step of the protocol |
| LogDriver.Log.LeaveOp | v3/log.c:146-164 | the first half of end_op is an End step, and tells the last operation out to commit |
| LogDriver.Log.FinishCommit | v3/log.c:166-174 | the second half of end_op is a Done step |
| LogDriver.Log.EndOp | v3/log.c:146-174 | end_op commits exactly when the last operation ends, and never changes logical home blocks or the buffers of others |
| Bitmap.BitOfSetBit | v3/fs.c:57-95 | setting or clearing one bit of a bitmap block changes that bit and no other |
| Ownership.AllocKeepsOwn | v3/fs.c:57-78 | balloc's marking keeps: the bitmap marks exactly metadata, owned blocks (each owned once) and blocks in flight |
| Ownership.AttachKeepsOwn | v3/fs.c:378-388 | storing a new block in an address of an inode keeps it |
| Ownership.EntryKeepsOwn | v3/fs.c:389-396 | storing a new block in the indirect block keeps it, and changes no other file |
| Ownership.DataKeepsOwn | v3/fs.c:482-511 | writing data of an owned block keeps it, and changes no reference |
| Ownership.DetachKeepsOwn | v3/fs.c:408-435 | a file letting go of all its blocks keeps it |
| Ownership.FreeKeepsOwn | v3/fs.c:82-95 | bfree of a block in flight keeps it, and never meets "freeing free block" |
| Contents.OthersReadSame | v3/fs.c:453-511 | a change to one file shows in the bytes of no other |
| Contents.WrittenBytes | v3/fs.c:482-511 | block by block writes amount to splicing the bytes into the file, and leave no holes |
| Contents.InodeRoundTrip | v3/fs.c:221-236 | an inode stored by iupdate is read back as it was, and its neighbours in the block are undisturbed |
| Contents.UpdateOnDisk | v3/fs.c:221-236 | iupdate changes the on-disk form of one inode only |
| FileSystem.WriteiCost | v3/file.c:126-153 | a chunk of filewrite logs at most ten distinct blocks, seven if the disk has one bitmap block |
| FileSystem.Fs.FirstClear | v3/fs.c:65-67 | balloc's inner loop finds the lowest clear bit |
| FileSystem.Fs.Balloc | v3/fs.c:57-78 | the lowest free block, unowned before, is marked, zeroed and returned; fails exactly when the disk is full |
| FileSystem.Fs.Bfree | v3/fs.c:82-95 | exactly one block becomes free |
| FileSystem.Fs.Bmap | v3/fs.c:373-400 | returns the block of a file offset, allocated if missing; nothing that was there is lost, other files are untouched, and the blocks logged are bounded; fails only where balloc panics, with every block in use, and never for a block that is there |
| FileSystem.Fs.BmapIndirect | v3/fs.c:385-397 | the same for indirect blocks, where both the table and the entry may be missing |
| FileSystem.Fs.Iupdate | v3/fs.c:221-236 | afterwards the disk has this inode as the cache has it, and every other inode as before |
| FileSystem.Fs.WriteChunk | v3/fs.c:498-504 | one round of writei puts one stretch of bytes into the file; fails only with every block in use, and never if the block is there |
| FileSystem.Fs.WriteLoop | v3/fs.c:498-504 | all rounds together put all the bytes into the file; fails only with every block in use, and never if all blocks are there |
| FileSystem.Fs.Writei | v3/fs.c:482-511 | refused exactly for a start beyond the end or an end beyond the maximum; otherwise the bytes are spliced in, other files and inodes are unchanged, a file without holes stays so, and cached and on-disk inode agree; fails only with every block in use, and never if all blocks are there |
| FileSystem.Fs.Readi | v3/fs.c:453-476 | returns the slice of the file's bytes, as far as the file goes, and changes nothing |
| FileSystem.Fs.Itrunc | v3/fs.c:408-435 | frees exactly the direct, indirect-entry and indirect blocks of the inode |
| FileSystem.Fs.FreeInode | v3/fs.c:335-346 | iput's freeing branch frees exactly the inode and its blocks, and every other file keeps its blocks and their contents |
| FileSystem.Fs.WriteTransaction | v3/file.c:140-145 | one transaction of filewrite splices its bytes in and logs at most MAXOPBLOCKS blocks, fewer with one bitmap block; fails only with every block in use |
| FileSystem.Fs.Filewrite | v3/file.c:118-156 | filewrite splices all bytes into the file, or a prefix if the file gets too long, and the offset follows; the disk after each of its transactions, which is what its log_writes make of the one before, holds the file with a longer prefix; fails only with every block in use |
| Durability.WholeTransactions | v3/log.c:193-202 | with operations of others in between, what is committed of a sequence of transactions are the log_writes of the first j of them, whole |
| Durability.CrashKeepsRunning | v3/log.c:116-122 | after a crash, and after any number of them, the sequence is found between two of its transactions |
| Durability.StepsAlone | v3/file.c:126-153 | the transactions of filewrite, as its code makes them, are such a sequence |
| Durability.FilewriteIsDurable | v3/file.c:126-153 | a crash anywhere in or after filewrite, in any run of the log with any number of earlier crashes and with others writing other blocks in the same commits, leaves after recovery the old file with the prefix of the new bytes that the committed transactions wrote |
| Directories.Linked | v3/fs.c:552-578 | putting an entry for a new name into the first unused place adds that name to the map and changes no other, and names stay distinct |
| Directories.Erased | v3/sysfile.c:486-488 | clearing the entry of a name removes that name from the map and changes no other |
| Directories.SameName | v3/fs.c:516-520 | namecmp decides equality of the C strings of at most DIRSIZ characters |
| Directories.Dirlookup | v3/fs.c:525-548 | the scan returns what the map says of the name and the place of its entry, and changes nothing |
| Directories.Dirlink | v3/fs.c:552-578 | refuses a name that is there; otherwise the map gains exactly that name and no other file changes; fails for a new name without an unused entry in a directory of maximal size, and otherwise only for one that needs a new entry, with every block in use |
| Directories.Erase | v3/sysfile.c:486-488 | always succeeds: the map loses exactly that name and no other file changes |
| Directories.IsDirEmpty | v3/sysfile.c:361-374 | true exactly if no entry after the first two is in use |
| Directories.EmptyMeansNoNames | v3/sysfile.c:361-374 | in a directory that begins with its dots that means that no other name stands for anything |
| Directories.TreeLooks | v3/fs.c:525-548 | dirlookup answers as the tree does over which path names are resolved |
| Directories.TreeElsewhere | v3/fs.c:525-578 | changing one directory changes no answer of another |
| Paths.SkipElem | v3/fs.c:596-618 | skipelem returns the first element of a path and the path of the others, for an independent definition of the elements |
| Paths.ElementsOfExamples | v3/fs.c:589-593 | the elements of the paths that skipelem's comment gives as examples |
| Paths.ShortIsPrefix | v3/fs.c:608-614 | an element is kept up to DIRSIZ characters |
| Paths.WalkLast | v3/fs.c:660-670 | resolving a path is resolving its directory and looking the last element up there |
| Paths.WalkJoined | v3/fs.c:634-651 | a path a/b leads where b leads from where a leads |
| References.HoldKeeps | v3/fs.c:277-352 | taking or giving up a reference keeps: each entry's count is the number of open files, current directories and in-flight references to it, and no two entries in use are the same inode |
| References.RecycleKeeps | v3/fs.c:260-270 | recycling a free entry keeps it |
| References.FileOpenKeeps | v3/sysfile.c:654-655 | making a new file refer to a held inode keeps it |
| References.FileCloseKeeps | v3/file.c:57-80 | the last close of a file passes its reference on |
| References.FdSetKeeps | v3/sysfile.c:61-73 | setting a descriptor keeps the count of every file |
| References.CwdSetKeeps | v3/sysfile.c:808-811 | setting a current directory keeps the count of every entry |
| Inodes.Vfs.FindEntry | v3/fs.c:248-258 | iget's scan finds the entry in use for an inode if there is one, and else a free entry if there is one |
| Inodes.Vfs.Iget | v3/fs.c:242-272 | a reference to the entry of the inode, which is there already or takes a free one; no other count changes |
| Inodes.Vfs.Idup | v3/fs.c:277-283 | one more reference |
| Inodes.Vfs.Iput | v3/fs.c:332-352 | one reference less, needing a transaction and not the lock |
| Inodes.Vfs.Dirlookup | v3/fs.c:525-548 | a reference to what the name stands for, or nothing at all |
| Inodes.Vfs.Dirlink | v3/fs.c:552-578 | succeeds exactly for a new name and leaves no reference; waits for ever exactly when the name stands for an inode that the caller has locked |
| Inodes.Vfs.Namex | v3/fs.c:625-657 | one reference to the inode that the path resolves to, from the root for an absolute path and from the current directory for another, or to its directory with the last element; on every path the locks are as before and no other reference stays |
| Inodes.PathsFromDirectory | v3/fs.c:625-657 | a relative path b in the directory that a names leads where a/b leads, an absolute one leads to the same inode from every directory, "/" is the root and the empty path the current directory |
| Inodes.Vfs.Create | v3/sysfile.c:510-551 | a locked inode with one reference, new or, for a file, an existing plain file, exactly when the path allows it; otherwise no lock and no reference |
| Inodes.Vfs.FileAlloc | v3/file.c:27-41 | a free file with one reference, or none exactly when all are in use |
| Inodes.Vfs.FileDup | v3/file.c:45-53 | one more reference to the file |
| Inodes.Vfs.FileClose | v3/file.c:57-80 | one reference less, and the inode's with the last, in a transaction of its own |
| Inodes.Vfs.FdAlloc | v3/sysfile.c:61-73 | the lowest free descriptor takes over the reference |
| Inodes.Vfs.SysOpen | v3/sysfile.c:554-660 | opens the inode that the path and mode stand for; fails, changing nothing, exactly if there is none, no free file or no free descriptor; no lock, transaction or reference is left behind and every process can go on |
| Inodes.Vfs.SysClose | v3/sysfile.c:154-186 | clears the descriptor and gives up its reference, or refuses; every entry keeps its inode |
| Inodes.Vfs.SysDup | v3/sysfile.c:76-87 | the lowest free descriptor becomes a second one with a reference of its own; fails exactly if the first is not open or none is free |
| Inodes.Vfs.SysChdir | v3/sysfile.c:758-813 | the current directory becomes the one resolved, exactly when that is a directory; entries in use keep their inode and every other process its directory |
| Inodes.Vfs.ChdirThenName | v3/sysfile.c:758-813 | through the two calls: after a successful chdir to a, a relative path b resolves to what a/b resolved to before, and an absolute one as from the root |
| Inodes.Vfs.SysLink | v3/sysfile.c:241-358 | a link that runs alone succeeds exactly for a file that is no directory and a new name, with one more link; on failure the link count is back; it blocks exactly when the new name stands for its own directory |
| Inodes.LinkToSelf | v3/fs.c:559-562 | linking any file to the name of a dot in any directory to which that name leads back blocks |
| Inodes.LinkToDot | v3/fs.c:559-562 | for instance link("f", "d/.") and, at the root, link("f", "/..") |
| Inodes.Vfs.SysUnlink | v3/sysfile.c:378-507 | succeeds exactly for a name other than the dots that is there and, if a directory, empty; no reference or lock is left behind |
| Inodes.Vfs.SysMake | v3/sysfile.c:663-755 | mkdir and mknod succeed exactly where create does and leave nothing behind |
| Inodes.Vfs.ForkFiles | v3/proc.c:206-209 | the child has the parent's descriptors and directory, each with a reference of its own, and can go on; every entry keeps its inode |
| Inodes.Vfs.ExitFiles | v3/proc.c:237-248 | all descriptors and the directory are given up, each reference once; every entry keeps its inode and every other process its directory |
| Inodes.Vfs.Boot | v3/proc.c:143 | the first process gets the root as its current directory, with one reference |
| Inodes.Vfs.Serve | v3/sysfile.c:75-813 | any one call of any process gets the reply and makes the change to files, descriptors and current directories that its own contract says, with the lowest free descriptor; it leaves the counts exact, running code with what it held, entries in use with their inode and all processes able to go on; it gets stuck exactly in a link to its own directory |
| Inodes.Vfs.ServeAll | v3/sysfile.c:75-813 | the same for every sequence of open, close, dup, chdir, link, unlink, mkdir, mknod, fork and exit of any processes, with all replies and all states in between, stopping only when the inode cache has fewer than three free entries |
| Inodes.RunFromBoot | v3/proc.c:120-155 | from boot on, after every such sequence each count is exactly the number of open files, current directories and descriptors that refer to it, and no two entries in use stand for the same inode |
| LockOrder.StepKeepsInv | v3/sysfile.c:316-550 | every step of open, create, link and unlink in any number of processes keeps: an inode lock has one holder, what a process has looked up under the lock of a directory is still there, and proper names lead down the tree |
| LockOrder.DeadlockNeedsUpward | v3/sysfile.c:316-550 | in every state of every run, any set of processes that wait for each other's inodes for ever contains one in iput of the directory under the lock of the child, or in dirlink's iput for a dot name |
| LockOrder.DeadlockIsForEver | v3/sleeplock.c:22-32 | no process of such a set ever takes a step again, whatever the others do |
| LockOrder.CreateAndUnlink | v3/sysfile.c:459-550 | for every directory and new name, create and unlink of that name have a run that ends with each waiting for the other |
| LockOrder.UnlinkAndUnlink | v3/sysfile.c:459-507 | so have two unlinks of two names in one directory for one file |
| LockOrder.LinkAndUnlink | v3/fs.c:552-561 | so have a link to the name ".." of a directory and the unlink of that directory |
| LockOrder.LinkAlone | v3/sysfile.c:316-346 | link alone gets through: the name is there and no lock is held |
| LockOrder.UnlinkAlone | v3/sysfile.c:459-500 | unlink of a file alone gets through: the name is gone and no lock is held |
| LockOrder.CreateAlone | v3/sysfile.c:509-550 | create of a new file alone gets through: the name leads to the new inode and no lock is held |
| Session.Buffer.Move | v3/sysproc.c:362-371 | in both directions field and buffer end up equal and the position moves on; a replay changes no buffer byte, a recording only these |
| Session.Buffer.MoveArg | v3/sysproc.c:400-435 | one argument moves between record and buffer as type byte and value, for each of the four types |
| Session.Buffer.MoveArgs | v3/sysproc.c:393-436 | the loop moves all arguments |
| Session.Buffer.Transform | v3/sysproc.c:373-438 | a record is written as its encoding or read back from it, consuming exactly those bytes; a blank one ends the list; reading past the end of the file fails |
| Session.Buffer.Store | v3/sysproc.c:478-490 | record_stop leaves the encoding of the whole session in the buffer |
| Session.Buffer.Load | v3/sysproc.c:583-597 | replay_start gets back the records of a session, whatever bytes follow it, and blanks behind them |
| Records.CloseInBytes | v3/sysproc.c:373-441 | a session with one record, byte by byte |
| LongSessions.StorePositions | v3/sysproc.c:373-490 | a byte is stored behind the buffer if and only if the encoding of the session is longer than MAX_FILE_SIZE, by at most one record, and record_stop fails if and only if it was not the last record that crossed the end |
| LongSessions.ManyReads | v3/sysproc.c:373-490 | n recorded reads of 200 bytes are too long a session if and only if n > 270 |
| Unambiguous.SessionUnambiguous | v3/sysproc.c:373-438 | no byte string begins with two different sessions |
| CallRecords.FirstOutputIsAfterInputs | v3/sysproc.c:76-97 | get1stOutputPos is the number of inputs that each call stores, for the tag it stores |
| CallRecords.NumbersSpelledOut | v3/sysfile.c:90-239 | the records of getpid, uptime, read, close and fstat: system call number, arguments in order, result and memory |
| CallRecords.PathsSpelledOut | v3/sysfile.c:241-813 | those of link, unlink, mkdir and chdir, which has the number of mkdir |
| CallRecords.NodesSpelledOut | v3/sysfile.c:554-755 | those of open and mknod |
| CallRecords.RecordGivesResult | v3/sysfile.c:96-139 | the record of a call is well formed, answers that call, and gives back its recorded result |
| CallRecords.MatchesExactly | v3/sysproc.c:258-360 | a record answers exactly the call it was made for, except that mkdir and chdir of one path answer each other |
| CallRecords.ReadSpillsOutside | v3/sysfile.c:97-118 | a replayed read whose comparison failed reads outside the record it met exactly for records of getpid, uptime and mknod, for a last input above MAX_RAW_SIZE, and past the end of the session |
| CallRecords.FstatSpillsOutside | v3/sysfile.c:195-217 | a replayed fstat does so exactly for a record of mknod |
| CallRecords.ReadSpillsRecorded | v3/sysfile.c:97-118 | a read that met the record of another read is left with the bytes recorded there |
| Replay.RecordingIsTransparent | v3/sysproc.c:246-256 | while there is room, a run in which the recorded process runs the rewritten bodies has the effects and results of the run of the original bodies, and one record for each of its calls |
| Replay.RecordingKeepsResults | v3/sysproc.c:246-256 | the k-th record is that of the k-th call, with its result, or with stray memory as output for a read or fstat without an open file |
| Replay.ReplayIsDeterministic | v3/sysproc.c:258-360 | as long as the replaying process's calls follow the records, the k-th gets the k-th recorded result and the kernel changes only by the calls of others |
| Replay.FirstMismatchKills | v3/sysproc.c:37-42 | the first call that its record does not answer kills the caller, switches both modes off and leaves the kernel alone; what it leaves in the caller's memory is what read and fstat still copy from that record, and nothing for other calls |
| Replay.NothingServedAfterwards | v3/trap.c:45-53 | from then on no record is made or served, and the killed process gets no further result |
| RecordReplay.SameBytes | v3/sysproc.c:326-346 | the byte loop decides equality |
| RecordReplay.CompareInputs | v3/sysproc.c:282-358 | the loop over the inputs decides whether all of them are equal |
| RecordReplay.Engine.Err | v3/sysproc.c:37-42 | both modes off, caller killed |
| RecordReplay.Engine.Add | v3/sysproc.c:246-256 | the record is appended, or the engine fails when the table is full |
| RecordReplay.Engine.Compare | v3/sysproc.c:258-360 | the next record is served exactly if it answers the call; otherwise, or past the end, the engine fails |
| RecordReplay.Engine.RecordCall | v3/sysfile.c:119-134 | the recording branch runs the rewritten body and hands its record to addSRC, as the transition function says |
| RecordReplay.Engine.Syscall | v3/sysfile.c:90-139 | the three branches of a call, each with its own body, do what the transition function says |
| RecordReplay.Engine.RecordStart | v3/sysproc.c:451-470 | recording starts with an empty table for the caller |
| RecordReplay.Engine.RecordStop | v3/sysproc.c:472-535 | the session overwrites the beginning of the file, or the engine fails |
| RecordReplay.OverwriteKeeps | v3/sysproc.c:499-515 | the file after record_stop begins with the session, keeps every byte behind it at its place, and has the larger of the two lengths |
| RecordReplay.Engine.ReplayStart | v3/sysproc.c:537-604 | the session at the beginning of the file is loaded, whatever follows it and whatever the buffer held |
| RecordReplay.Engine.ReplayStop | v3/sysproc.c:606-616 | replay ends for its own process only |
| RecordReplay.RecordThenReplay | v3/sysproc.c:451-616 | recording a program, saving it over any old file and replaying it on another kernel that works differently gives what was recorded, hence the first results if every read and fstat had an open file, and leaves that kernel alone |
| SyscallBodies.RecordedIsOriginal | v3/sysfile.c:90-813 | for every covered call the rewritten body leaves the state and returns the result of the original one, on every path, and its record is that call with that result, or with stray memory as output |
| SyscallBodies.RecordIsRightExactly | v3/sysfile.c:119-139 | the record holds the result, whatever unset pointers point to, if and only if the call uses no descriptor, an open one, or reads no bytes |
| SyscallBodies.RunOriginal | v3/sysfile.c:135-139 | each original body, run step by step with its jumps, does what the rewritten one does |
| SyscallBodies.RunRecorded | v3/sysfile.c:119-139 | each rewritten body, run step by step with its breaks, does what the original one does, and returns from its record the value that it put there |
| SyscallBodies.LinkOriginal | v3/sysfile.c:316-357 | link with jumps to one error exit does what the form with a copy of that exit at each place does |
| SyscallBodies.LinkRecorded | v3/sysfile.c:252-315 | link as rewritten does what the form with one error exit does |
| SyscallBodies.UnlinkOriginal | v3/sysfile.c:459-506 | unlink with jumps to one error exit does what the form with a copy of that exit at each place does |
| SyscallBodies.UnlinkRecorded | v3/sysfile.c:391-458 | unlink as rewritten does what the form with one error exit does |
| SyscallBodies.OpenOriginal | v3/sysfile.c:619-660 | open does what the form with separate exits for its two ways to an inode does; when it succeeds is CallEffects.OpenOutcome |
| SyscallBodies.OpenRecorded | v3/sysfile.c:568-618 | open as rewritten does what the original does |
| SyscallBodies.ReadRecorded | v3/sysfile.c:119-134 | read as rewritten does what the original does |
| SyscallBodies.CloseRecorded | v3/sysfile.c:165-179 | close as rewritten does what the original does |
| SyscallBodies.FstatRecorded | v3/sysfile.c:218-232 | fstat as rewritten does what the original does |
| SyscallBodies.MakeRecorded | v3/sysfile.c:674-742 | mkdir and mknod as rewritten do what the originals do |
| SyscallBodies.ChdirRecorded | v3/sysfile.c:770-795 | chdir as rewritten does what the original does |
| SyscallBodies.TransactionsBalance | v3/sysfile.c:90-813 | every path of every covered call, in both forms, ends each transaction it begins |
| CallEffects.CreateBit | v3/fcntl.h:4 | open takes the creating branch exactly for modes with the bit of value 0x200 |
| CallEffects.OpenOutcome | v3/sysfile.c:619-660 | open finds the inode that the model of the inode layer says, for every mode, and returns the descriptor exactly if there is one and a file and a descriptor are free |
| CallEffects.OpenOfNewName | v3/sysfile.c:568-660 | for a name that leads nowhere, in both forms, modes 0x200, 0x201 and 0x202 return a descriptor and modes 0, 1 and 2 return -1 |
| CallEffects.LinkOutcome | v3/sysfile.c:316-358 | link succeeds exactly for a file that is no directory and a new name in a directory |
| CallEffects.UnlinkOutcome | v3/sysfile.c:459-507 | unlink succeeds exactly for a name that is there, is no dot and leads to no directory with entries |
| CallEffects.ChdirOutcome | v3/sysfile.c:801-813 | chdir succeeds exactly for a path to a directory |
| CallEffects.MakeOutcome | v3/sysfile.c:692-755 | mkdir and mknod succeed exactly for a new name in a directory |
| CallEffects.LinksFollowNames | v3/sysfile.c:241-813 | every call, in both forms and on every path through it, changes the link count of every inode by as much as the number of its names and subdirectories |
| CallEffects.LocksBalance | v3/sysfile.c:241-813 | every call, in both forms and on every path, leaves every inode's lock as it found it |
| CallEffects.ReferencesBalance | v3/sysfile.c:241-813 | every call, in both forms and on every path, gives back every reference that no file and no current directory keeps |
| CallEffects.DescriptorsBalance | v3/sysfile.c:154-660 | open and close keep one file for each descriptor, whether or not they succeed |
| CallEffects.OpenBinds | v3/sysfile.c:639-660 | the descriptor that open returns stands for a file with the inode found and the mode given; a closed one stands for nothing |
| CallEffects.ChdirMoves | v3/sysfile.c:801-813 | a successful chdir makes the inode of the path the current directory, a failed one leaves it |
| CallEffects.MakesAsked | v3/sysfile.c:692-755 | mkdir asks for a directory, mknod for a device with its numbers, open with O_CREATE for a file |
| FreeList.Disjoint | v3/umalloc.c:25-90 | two blocks, free or allocated, never share a unit |
| FreeList.FreedKeeps | v3/umalloc.c:25-44 | freeing keeps the free list circular, in address order and fully coalesced; every unit stays with exactly one block and other live blocks keep their size |
| FreeList.FreedFields | v3/umalloc.c:33-42 | the header assignments of free are that insertion and those joins |
| FreeList.TakeKeeps | v3/umalloc.c:75-77 | handing out a whole block keeps all this |
| FreeList.SplitKeeps | v3/umalloc.c:78-82 | handing out the tail of a block keeps all this |
| FreeList.GrowKeeps | v3/umalloc.c:54-59 | a new region from sbrk keeps all this |
| Malloc.RoomUnlessWrapped | v3/umalloc.c:69 | a block has room for the request if and only if the request is at most 2^32 - 8 bytes |
| Malloc.SbrkArgumentExact | v3/umalloc.c:54 | sbrk gets the intended number of bytes if and only if the request is below 2^28 units |
| Malloc.Heap.FindSlot | v3/umalloc.c:30-32 | the search of free ends, at the place where the block belongs |
| Malloc.Heap.Free | v3/umalloc.c:25-44 | the block leaves the live ones, all else stays, and its units are in a free block at least as large |
| Malloc.Heap.Morecore | v3/umalloc.c:47-61 | a free block of the wanted size and exactly the new region more, or nothing changes |
| Malloc.Heap.Search | v3/umalloc.c:74-89 | the search ends after at most one more round following morecore, which is called only if nothing is large enough; fails exactly when sbrk does too |
| Malloc.Heap.Carve | v3/umalloc.c:75-84 | exactly the wanted units become a live block of their own |
| Malloc.Heap.Malloc | v3/umalloc.c:64-90 | a new block of the computed size that is no live block, with all live blocks intact and no unit lost; large enough exactly when the size did not wrap |
| PageTables.AddTableKeeps | v3/vm.c:44-53 | a new page table keeps: every frame has one use, agreeing with free list, directories and tables; no lookup changes |
| PageTables.MappedKeeps | v3/vm.c:69-73 | setting an entry changes the lookup of that page of that space only |
| PageTables.UnmappedKeeps | v3/vm.c:269-276 | clearing a user page and freeing its frame changes that page only |
| PageTables.DropTable | v3/vm.c:291-296 | giving back a table of a dying space disturbs no other space |
| PageTables.DropDir | v3/vm.c:297 | giving back its directory leaves everything in order |
| VirtualMemory.NoTableNoPages | v3/vm.c:266-268 | where deallocuvm skips, a walk page by page would have found nothing |
| VirtualMemory.HistoryReturns | v3/vm.c:284-298 | a space built from nothing and freed again leaves every frame used as before |
| VirtualMemory.Machine.constructor | v3/kalloc.c:32-44 | all frames of the range are on the free list |
| FrameCounts.LackingSplit | v3/vm.c:36-80 | once the first pages of a range have their tables, the others lack exactly the rest of what the range lacked |
| FrameCounts.TooFew | v3/vm.c:61-80 | frames that run out on the way through a range were too few for all of it |
| VirtualMemory.Machine.FreeRange | v3/kalloc.c:47-54 | exactly the frames of the range become free |
| VirtualMemory.Machine.Kalloc | v3/kalloc.c:84-96 | a free frame for the caller, or nothing exactly when there is none |
| VirtualMemory.Machine.Kfree | v3/kalloc.c:61-78 | the frame becomes free and no lookup changes |
| VirtualMemory.Machine.Walk | v3/vm.c:36-55 | the table for a page, with a new one taken from the free list only on request; no lookup changes; on request it fails exactly when the table is missing and no frame is free |
| VirtualMemory.Machine.MapPages | v3/vm.c:61-80 | the pages of the range are mapped to consecutive physical pages and all other lookups are as before; fails exactly when fewer frames are free than tables are missing, and takes exactly those |
| VirtualMemory.Machine.DeallocUvm | v3/vm.c:256-279 | exactly the pages between the two sizes are unmapped and exactly their frames freed |
| VirtualMemory.Machine.FreeVm | v3/vm.c:284-298 | exactly the frames of the space are freed, and no other space changes |
| VirtualMemory.Machine.AllocUvm | v3/vm.c:222-249 | new zeroed writable user pages between the two sizes; on failure every mapping and every page is as before; below KERNBASE it succeeds exactly when the free frames suffice for the pages and the missing tables, and takes exactly those |
| VirtualMemory.Machine.SetupKvm | v3/vm.c:119-136 | a space with exactly the kernel's mappings; on failure every frame is used as before; succeeds exactly with 65 free frames and takes exactly those |
| VirtualMemory.KernelMapsMemory | v3/vm.c:105-136 | above KERNBASE every page of physical memory is mapped at its own number, writable but for the kernel's text and constants, devices at their own addresses, and nothing else; nothing below |
| VirtualMemory.Machine.CopyUvm | v3/vm.c:316-345 | a space with copies of the pages, same flags and contents, and the original untouched; on failure every frame is used as before; succeeds exactly with free frames for the kernel part, the pages and one table for every 1024 of them |
| Monitor.StepKeepsInv | v3/proc.c:418-474 | every step of sleep, wakeup, kill and the code between keeps: a sleeper has its reason, or whoever has the lock owes it a wakeup |
| Monitor.NoLostWakeup | v3/proc.c:418-474 | in every interleaving, while the lock is free every sleeper on a kept channel still has its reason to sleep |
| Monitor.OneInside | v3/proc.c:418-474 | two processes are never inside the lock together, across sleep and wakeup |
| SleepLock.SleepLockIsSafe | v3/sleeplock.c:23-42 | at most one process is between acquiresleep and releasesleep, and while the inner lock is free a sleeper implies that the lock is held |
| SleepLock.HoldingSleepIsRight | v3/sleeplock.c:45-53 | holdingsleep is true of exactly the process that has the lock |
| Pipes.CountersDecide | v3/pipe.c:85-114 | the tests on the wrapping counters decide full and empty, and their difference modulo 2^32 is the number of bytes in the pipe |
| Pipes.PipeIsFifo | v3/pipe.c:60-121 | over every interleaving the bytes that the pipe has let out are a prefix of the bytes it has taken in, past any number of wraps |
| PipeCalls.PipeDelivers | v3/pipe.c:78-121 | told by the calls alone: over every interleaving the bytes that reads have handed to their callers, in order, are a prefix of the bytes that writes have got through, and at most PIPESIZE bytes and those in one reader's hands are missing |
| PipeCalls.CallsReturnRight | v3/pipe.c:78-121 | a write that returns its length has got all its bytes through in order; a read returns the number of bytes it hands out, fewer than asked for only if it leaves the pipe empty, and none only from an empty pipe without a writer |
| PipeRoundTrip.WriteThenRead | v3/pipe.c:78-121 | for every text that fits there is a run in which a write of it and a read of as many bytes hand out just that text |
| Pipes.WritersWokenInTime | v3/pipe.c:60-121 | while the lock is free a writer sleeps only on a full pipe whose read end is open |
| Pipes.ReaderLeftAsleepExactly | v3/pipe.c:79-121 | over every run, while the lock is free a sleeping reader has bytes to read or no writer left if and only if a writer has given up owing the readers a wakeup since the pipe was last drained |
| Pipes.GivingUpLeavesReaders | v3/pipe.c:85-89 | wherever a writer that owes stands before the two guards, returning leaves every sleeping reader behind on a full pipe; with the read end closed it must |
| Pipes.ReaderCanBeLeftAsleep | v3/pipe.c:85-89 | a run in which such a writer leaves a reader asleep on a full pipe |
| LogWait.BeginOpWokenInTime | v3/log.c:126-174 | while log.lock is free a process sleeps in begin_op only during a commit or when its reservation would not fit |
| LogWait.CountersAreExact | v3/log.c:126-174 | in every interleaving log.outstanding is the number of processes in an operation, at most one process commits, and nobody is in an operation meanwhile |
| LogWait.FollowsBegin | v3/log.c:126-141 | begin_op's test and its effect on the counters are those of the protocol whose reservations fit the log |
| LogWait.FollowsEnd | v3/log.c:146-163 | so is the effect of the first locked section of end_op |
| LogWait.FollowsAppend | v3/log.c:223-232 | and that of the locked section of log_write |
| ExitWait.StepKeepsInv | v3/proc.c:181-497 | every step keeps the invariants about CPUs, memory, embryos, parents, waiters and pids |
| ExitWait.ExitWaitIsSafe | v3/proc.c:181-382 | in every interleaving no process is on two CPUs, no process asleep in the loop of wait has a zombie child, every zombie has a live parent, and every exited process is a zombie or has been reaped exactly once |
| ExitWait.ReapIsSafe | v3/proc.c:273-312 | a process that wait can reap has its stack and page table still, is on no CPU, and has not been reaped before |
| ExitWait.WakeupEndsSleep | v3/proc.c:418-474 | over every run a process that went to sleep on a channel, in sleep or in wait, and has not gone to sleep again is awake after the next wakeup of that channel |
| ExitWait.ExitWakesParent | v3/proc.c:228-268 | in every state of every run, when a process exits, its parent becomes runnable if it is asleep in wait |
| ExitWait.KillReaches | v3/proc.c:480-497 | kill marks the process it finds and makes a sleeper runnable |
| ProcessCycles.YieldAndBack | v3/proc.c:386-393 | a process that yields can be run again at once, and then the table is as before |
| ProcessCycles.SleepAndBack | v3/proc.c:418-453 | a process that sleeps on a channel runs again after a wakeup of it, and the table is as before but for others woken there |
| ProcessCycles.ForkMakesChild | v3/proc.c:181-221 | fork leaves a runnable child of the caller with a new pid and memory, and everybody else as before |
| ProcessCycles.ForkGivesUp | v3/proc.c:181-197 | a fork without memory leaves the slot free, with the pid it had been given |
| ProcessCycles.ExitAndReap | v3/proc.c:228-312 | exit and then wait by the parent leave a free slot, the pid on record once, and the children with init |
| ExitWait.KilledExactly | v3/proc.c:479-497 | in every state of every run a slot is marked as killed if and only if a kill has found it since wait last cleared it |
| ExitWait.NewProcessKilledExactly | v3/proc.c:73-93 | allocproc makes a process that starts out killed if and only if a kill has found its free slot |
| ExitWait.KillZero | v3/proc.c:479-497 | after kill(0) by init the first process it forks starts out killed |
| Regexp.MatchHere | v3/grep.c:85-96 | true exactly when some beginning of the text is in the language of the pattern |
| Regexp.MatchStar | v3/grep.c:99-106 | the same for a starred character followed by a pattern |
| Regexp.Match | v3/grep.c:73-82 | true exactly when that holds at some position, at the first only for a pattern with a leading hat |

## Left out

- LogDriver.Log.Commit: others may hold buffers, but not of the blocks being moved, where the source waits until they are released, and they leave more free buffers than there are logged blocks, where the source panics.
- LogDriver.Log.WriteLog: the same.
- LogDriver.Log.CopyBlock: takes two blocks to whose buffers nobody else refers, where the source waits.
- LogDriver.Log.WriteHead: the same for the header block.
- LogDriver.Log.InstallTrans: the same for the logged and the log blocks.
- LogDriver.Log.EndOp: the same when it commits.
- LogDriver.Log.WriteBlock: takes a block to whose buffer nobody else refers, and a free buffer; nobody logs between its test and its append, which the steps of `LogProtocol` allow.
- LogDriver.Log.NoteBlock: takes a header array with room; past it the source writes behind the array.
- BufferCache.Cache.Bread: is for a block whose buffer is not locked already; waiting for that lock is `SleepLock`.
- Durability.FilewriteIsDurable: others write no block of the file and not the block of its inode, though they may write the bitmap; operations stay below the budget of `CrashRuns.CrashSafety`; the log area lies in front of the inodes.
- Directories.Dirlink: takes names without zero bytes, of at most DIRSIZ characters, as skipelem delivers them.
- FileSystem.Fs.Writei: is about files and directories; device inodes go to their drivers.
- FileSystem.Fs.Readi: takes a file without holes, since on a hole readi allocates.
- Session.Buffer.Load: is about buffers that begin with a session; what a damaged file decodes to is not stated.
- Session.Buffer.Store: takes a session that fits the buffer; how far a longer one is stored is `LongSessions.StorePositions`.
- RecordReplay.Engine.RecordStop: takes a session that fits MAX_FILE_SIZE; a longer one is written behind the buffer (`LongSessions.StorePositions`), over whatever lies there.
- RecordReplay.Engine.RecordStart: is for a time when no replay is on, since the serializer moves nothing sensible with both on.
- RecordReplay.Engine.RecordCall: takes paths and read sizes of at most MAX_RAW_SIZE bytes.
- RecordReplay.Engine.ReplayStart: takes a file that begins with a session.
- RecordReplay.Engine.Syscall: takes paths and read sizes of at most MAX_RAW_SIZE bytes whenever the engine looks at them, and one mode at a time, since the serializer moves nothing sensible with both on.
- Malloc.Heap.Morecore: takes requests below 2^28 units; above, sbrk gets another number and may shrink the heap.
- Malloc.Heap.Search: the same.
- Malloc.Heap.Malloc: takes requests below 2^28 units, where sbrk is asked for what was meant; headers of live blocks are assumed not to be overwritten by their users.
- Inodes.Vfs.Iput: the branch that frees an inode without links is `FileSystem.Fs.FreeInode`; which inodes have none is not tracked here.
- Inodes.Vfs.Dirlookup: what a name stands for is a parameter; the scan that finds it is `Directories.Dirlookup`.
- Inodes.Vfs.Dirlink: likewise; the search for a free entry and its writing are `Directories.Dirlink`.
- Inodes.Vfs.Create: takes the number of the inode that ialloc finds as a parameter.
- Inodes.Vfs.ServeAll: each call runs to its end before the next one starts; what the file system answers may change between calls. How calls that run at once wait for each other's inodes is `LockOrder`.
- Inodes.Vfs.Serve: the call runs alone.
- Inodes.Vfs.SysLink: the call runs alone, with three free cache entries.
- Inodes.Vfs.SysOpen: takes a cache with two free entries, so that iget does not panic.
- Inodes.Vfs.SysMake: the same.
- Inodes.Vfs.Namex: takes a cache with two free entries, so that iget does not panic; a lookup that leads to a freed inode, which panics in ilock, is not modelled.
- Inodes.Vfs.SysUnlink: takes a cache with two free entries, and a tree in which only the dots lead from a directory to itself.
- Inodes.Vfs.SysChdir: takes a cache with two free entries; sets the new directory before it gives up the old one, the other way round than the source; only the process itself looks at that field.
- VirtualMemory.Machine.CopyUvm: takes a source space in which all pages below the size are mapped, as the source panics otherwise.
- LockOrder.DeadlockNeedsUpward: is about the locks of inodes; buffers, the log and freed inode numbers that are used again are not in it.
- CallEffects.LinkOutcome: dirlink returns -1 for a name that is there; that it waits for ever when the name stands for its own directory is `Inodes.Vfs.SysLink`.
- Pipes.PipeIsFifo: the pipe stays allocated; freeing it when both ends are closed is not modelled.
- ExitWait.ExitWaitIsSafe: pids do not wrap; running out of process slots is a fork that does not start.
- SyscallBodies.RunRecorded: pointers into user memory are valid; fetching arguments is not modelled, except that a descriptor may not be open.
- Pipes.ReaderLeftAsleepExactly: any process may read and write, whether or not it has the pipe open.
- The exec call, device drivers, traps and context switches, which are hardware plumbing.
- The line buffering of grep, the shell and the other user programs.
- The earlier copies v1 and v2 of the kernel.
- Printing and diagnostics.
