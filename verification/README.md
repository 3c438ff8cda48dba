# Proofs about the xv6 kernel and the file server

A Dafny 4.11 model of the parts of this repository where the state is intricate, with proofs of
what they keep, over all inputs, all runs and all reachable states.  `dafny verify dfyconfig.toml`
checks everything.

**Storage.**  `LogMachine` is the redo log as steps over a disk of atomic blocks, with a crash
possible between any two block writes; `LogTheorems` proves crash atomicity, group commit and the
log-space reservation over whole runs, and class `Log` writes the code of log.c over raw blocks
and records every block write as a step of that machine.  Class `FileSystem` (with `Bitmap`,
`FsState`, `FsBytes`) is the free map, the block map, readi, writei and itrunc of fs.c, proved
against files as byte sequences; `File` is filewrite's chunking, which ties writei's cost to the
log's budget.  `Journal` runs the file system over the log: whatever the moment of a crash,
recovery leaves a consistent file system as it was at the boundary of an operation.  `Writers` is
writei by many processes on different inodes, interleaved at every log_write, `WriterCosts` what
each of them logs, and `LoggedWriters` the two over the log: calls have the effect of running one
after the other, and wherever the machine stops, recovery leaves the effect of the first of them to
return.  `Bio` is the buffer cache with its linked list (`Ring`), and `Virtio` the disk driver with
its device.

**Concurrency.**  `SleepWakeup` is sleep, wakeup, fork, exit, wait, kill and the mutexes as steps of
any number of processes.  Over all its runs `SleepTheorems` proves that no wakeup is lost,
`SleepResults` what kwait and kwaitpid return, `MutexResults` that the mutexes exclude, `Orphans`
that init adopts the children of those who exit, and `KillResults` when a kill is missed.
`PipeSleep` is who sleeps on a pipe.  `Locks` is the file server's lock registry with threads.

**Memory.**  `PageTable` and class `Vm` are the three-level tables and the page allocator;
`Spaces` is one invariant for the address spaces of all processes, their trapframes and the
shared-memory segments between them, `Shm` the part of its proofs that is about segments, and class
`ProcMem.Processes` the code that creates, grows, faults, forks, attaches, detaches and frees, over
one pool of pages; `CopyUser` is the copies between kernel and user memory.  `FreeList` and
`Umalloc` are the user-level allocator.

**Algorithms.**  `Rle` is the run-length codec, `Pipe` the ring buffer with wrapping counters
(`RingBuffer`), `Grep` the regular-expression matcher.

Five expected properties are false of the code:

- log_write tests for a full log before it looks for the block, so a process within its budget can
  panic when it writes a block again (`LogTheorems.AbsorbedWriteCanPanic`); `LogSpace` says exactly
  when.
- NBUF equals LOGBLOCKS, so a commit of a full log has no buffer for its first log block and panics
  (`LogTheorems.FullCommitPanics`).  A reader that holds a buffer outside any operation can stop a
  commit of a smaller log, at any of its steps (`LogTheorems.ReaderCanStopCommit`).
  `CommitPanicsExactly` says exactly when.
- A process may claim memory over a segment it has attached, and shrinking then gives kfree pages
  that other processes map (`ProcMem.FreedWhileMapped`).  `Spaces.ShrinkLimit` says exactly when, and
  `ProcMem.Processes.Shrink` what that leaves.
- A writer that is killed returns -1 from pipewrite without waking the readers, even when it has put
  bytes in, so a reader can sleep before a pipe that is not empty (`Pipe.ForgottenReader`).
  `PipeSleep.ForgottenExactly` says exactly when.
- A process that is killed between its test of killed in kwait and its taking of its own lock in sleep
  goes to sleep all the same (`KillResults.KillCanMiss`).  `KilledExactly` says that this is the only way.

How things are modelled:

- Code that waits (sleep, acquiresleep, a full pipe, the disk) is cut where it gives up its lock;
  each piece is a method or step, and any other may come between, so that what a piece promises holds
  for every interleaving of pieces.
- In `Vm`, `ProcMem` and `CopyUser` a method is a whole call: it is not cut where kalloc and kfree
  take and release kmem.lock, so a promise that something fails only with fewer than N pages free is
  for the pages that are free while no other process allocates.  Class `Journal` runs file-system
  calls whole, one after the other, inside operations that overlap; `Writers` cuts writei at every
  log_write.
- Calls whose outcome depends on what is not modelled take it as a parameter: what sbrk returns,
  whether malloc or a user copy succeeds, whether the process has been killed.
- A panic is a state the proofs show to be unreachable, a precondition the callers are shown to
  meet, or, where callers can run into it, a result with the exact condition for it.
- Page numbers stand for page-aligned addresses; fixed-size C arrays are sequences that are
  updated in place in fields, or arrays.
- Uniqueness is carried by ghost maps from a resource to its one holder: block to pointer, page to
  entry or owner, descriptor to chain.

## Model

| member | source | states |
|---|---|---|
| `LogTheorems.InitInv` | G16_Project1_xv6CustomizeSystemCalls/xv6-riscv/kernel/log.c:53-63 | a machine that boots from any disk with a well-formed header starts within the invariant |
| `LogTheorems.StepKeeps` | G16_Project1_xv6CustomizeSystemCalls/xv6-riscv/kernel/log.c:66-236 | every begin_op, log_write and end_op of any process, every block write of commit and of recovery, and a crash at any point keep the invariant that ties disk, cache, header and history together |
| `LogTheorems.RunInv` | G16_Project1_xv6CustomizeSystemCalls/xv6-riscv/kernel/log.c:66-236 | the invariant holds in every state of every run |
| `LogTheorems.CrashAtomicity` | G16_Project1_xv6CustomizeSystemCalls/xv6-riscv/kernel/log.c:66-124 | crash in any state of any run, crash again during recovery any number of times: when recovery is over the home blocks hold exactly the committed part of the history, and the log is empty |
| `LogTheorems.OnlyHeaderWriteCommits` | G16_Project1_xv6CustomizeSystemCalls/xv6-riscv/kernel/log.c:195-204 | what a crash would leave behind changes at commit's header write and at no other step, and there it becomes everything logged so far |
| `LogTheorems.RecoveryKeeps` | G16_Project1_xv6CustomizeSystemCalls/xv6-riscv/kernel/log.c:117-124 | however often recovery is interrupted by crashes, the contents it works towards stay the same |
| `LogTheorems.CommitFinishes` | G16_Project1_xv6CustomizeSystemCalls/xv6-riscv/kernel/log.c:194-204 | commit and recovery, left alone by crashes, come one step nearer to their end with every step; they can go on to it while the logged blocks and the buffers others refer to leave one over |
| `LogTheorems.CommitPanicsExactly` | G16_Project1_xv6CustomizeSystemCalls/xv6-riscv/kernel/log.c:179-204 | a step of commit finds no buffer exactly when the logged blocks, less those copied home, and the unpinned buffers that others refer to at that moment are NBUF or more; while no one refers to any, that is only at the first log block and only for NBUF logged blocks |
| `LogTheorems.WantOfBuffer` | G16_Project1_xv6CustomizeSystemCalls/xv6-riscv/kernel/bio.c:75-88 | in every state of every run, a commit or recovery that is not over is stuck exactly then, for every number of buffers held by others |
| `LogTheorems.FullCommitPanics` | G16_Project1_xv6CustomizeSystemCalls/xv6-riscv/kernel/param.h:9-11 | a reachable run: three operations, each within its budget, fill the log, and the commit of the last end_op finds every buffer pinned |
| `LogTheorems.ReaderCanStopCommit` | G16_Project1_xv6CustomizeSystemCalls/xv6-riscv/kernel/file.c:107-131 | a reachable run with one block less in the log: one reader that holds one buffer, at the first or at a later step of the commit, stops it there |
| `LogTheorems.PinnedLeft` | G16_Project1_xv6CustomizeSystemCalls/xv6-riscv/kernel/log.c:65-84 | during install_trans as many buffers are pinned as logged blocks have not been copied home |
| `LogTheorems.CommittedOperationsAreWhole` | G16_Project1_xv6CustomizeSystemCalls/xv6-riscv/kernel/log.c:147-176 | what has committed stays committed, and contains every write or no write of each operation, in all later states |
| `LogTheorems.GroupCommit` | G16_Project1_xv6CustomizeSystemCalls/xv6-riscv/kernel/log.c:127-176 | committing implies no operation outstanding, the panic of end_op is unreachable, and when the last commit is over everything logged is permanent |
| `LogTheorems.LogSpace` | G16_Project1_xv6CustomizeSystemCalls/xv6-riscv/kernel/log.c:215-236 | with at most MAXOPBLOCKS distinct blocks per operation the header never overflows; log_write panics exactly when the log is full, and then only for a block that is already in it, so every new block finds room |
| `LogTheorems.AbsorbedWriteCanPanic` | G16_Project1_xv6CustomizeSystemCalls/xv6-riscv/kernel/log.c:219-227 | a reachable run in which a process within its budget writes a block it has already logged and log_write panics, because it tests for a full log before it looks for the block |
| `LogTheorems.ReplayAbsorbs` | G16_Project1_xv6CustomizeSystemCalls/xv6-riscv/kernel/log.c:71-83 | copying a logged block home changes nothing that replaying the log would give |
| `LogTheorems.ReplayValues` | G16_Project1_xv6CustomizeSystemCalls/xv6-riscv/kernel/log.c:71-83 | replaying overwrites exactly the listed blocks, with the listed values |
| `LogTheorems.InstallDisk` | G16_Project1_xv6CustomizeSystemCalls/xv6-riscv/kernel/log.c:66-84 | one copy of install_trans keeps the header valid and what recovery would restore |
| `LogTheorems.LoggedIsCached` | G16_Project1_xv6CustomizeSystemCalls/xv6-riscv/kernel/log.c:179-192 | once write_log is through, replaying the log gives what bread returns |
| `LogTheorems.ClearDisk` | G16_Project1_xv6CustomizeSystemCalls/xv6-riscv/kernel/log.c:200-203 | emptying the header after the last copy keeps the recovered contents |
| `LogTheorems.BeginKeeps` | G16_Project1_xv6CustomizeSystemCalls/xv6-riscv/kernel/log.c:127-143 | admission by begin_op keeps the reservation: every operation's unused allowance still fits |
| `LogTheorems.EndKeeps` | G16_Project1_xv6CustomizeSystemCalls/xv6-riscv/kernel/log.c:147-176 | end_op keeps the invariant, with and without the commit |
| `Log.HeadRoundTrip` | G16_Project1_xv6CustomizeSystemCalls/xv6-riscv/kernel/log.c:86-115 | the header write_head stores is the header read_head reads, byte for byte |
| `Log.Log.constructor` | G16_Project1_xv6CustomizeSystemCalls/xv6-riscv/kernel/log.c:53-63 | a log booting from a raw disk is at the start of a run |
| `Log.Log.WriteLog` | G16_Project1_xv6CustomizeSystemCalls/xv6-riscv/kernel/log.c:179-192 | copying the cached blocks to the log is a sequence of machine steps, one per block write; it panics exactly at the first that finds no buffer, the logged blocks and those others refer to being all there are |
| `Log.Log.WriteHead` | G16_Project1_xv6CustomizeSystemCalls/xv6-riscv/kernel/log.c:100-115 | the header block gets the count and the entries, nothing else is written |
| `Log.Log.ReadHead` | G16_Project1_xv6CustomizeSystemCalls/xv6-riscv/kernel/log.c:86-98 | the in-memory header becomes the list stored on disk |
| `Log.Log.InstallTrans` | G16_Project1_xv6CustomizeSystemCalls/xv6-riscv/kernel/log.c:65-84 | each iteration is one machine step, for commit and for recovery; in a commit it panics exactly at the first that finds no buffer, in recovery never |
| `Log.Log.Commit` | G16_Project1_xv6CustomizeSystemCalls/xv6-riscv/kernel/log.c:194-204 | commit runs from the first log write to the cleared header as machine steps, and then all history is durable and nothing is pinned; it panics exactly when some step finds no buffer, at the first such step, and what was logged is then durable exactly if that step is past the header |
| `Log.StopsAlone` | G16_Project1_xv6CustomizeSystemCalls/xv6-riscv/kernel/log.c:179-204 | while no one else refers to a buffer, a commit panics exactly for NBUF logged blocks or more, and then at its first step |
| `Log.Log.RecoverFromLog` | G16_Project1_xv6CustomizeSystemCalls/xv6-riscv/kernel/log.c:117-124 | recovery ends with an empty header, and its steps are those of the machine |
| `Log.Log.BeginOp` | G16_Project1_xv6CustomizeSystemCalls/xv6-riscv/kernel/log.c:126-143 | admits exactly when no commit runs and the header's blocks and ten for each open operation and for this one are at most thirty |
| `Log.Log.LogWrite` | G16_Project1_xv6CustomizeSystemCalls/xv6-riscv/kernel/log.c:206-236 | a logged block is a machine step, absorbed when it is already listed |
| `Log.Log.EndOp` | G16_Project1_xv6CustomizeSystemCalls/xv6-riscv/kernel/log.c:145-176 | the last end_op leaves the home blocks equal to what bread returned before, and everything durable; it panics exactly when it is the last and some step of its commit finds no buffer, and the machine state says at which |
| `Log.Log.Crash` | G16_Project1_xv6CustomizeSystemCalls/xv6-riscv/kernel/log.c:117-124 | a crash keeps the disk, loses memory, and is a machine step |
| `Bitmap.SetBitBits` | G16_Project1_xv6CustomizeSystemCalls/xv6-riscv/kernel/fs.c:66-89 | setting a free-map bit changes that bit and no other |
| `Bitmap.ClearBitBits` | G16_Project1_xv6CustomizeSystemCalls/xv6-riscv/kernel/fs.c:92-106 | clearing a free-map bit changes that bit and no other |
| `FsState.UsedAlloc` | G16_Project1_xv6CustomizeSystemCalls/xv6-riscv/kernel/fs.c:66-89 | after balloc the blocks marked in use are those before and the new one |
| `FsState.UsedFree` | G16_Project1_xv6CustomizeSystemCalls/xv6-riscv/kernel/fs.c:92-106 | after bfree the blocks marked in use are those before without the freed one |
| `FsState.PutInodeHolds` | G16_Project1_xv6CustomizeSystemCalls/xv6-riscv/kernel/fs.c:226-242 | iupdate stores size and pointers in the inode's place and changes no other inode of the block |
| `FsState.AttachOwned` | G16_Project1_xv6CustomizeSystemCalls/xv6-riscv/kernel/fs.c:405-444 | hanging a new block on a pointer or indirect entry keeps single ownership, and changes no other pointer |
| `FsState.TruncatesOwned` | G16_Project1_xv6CustomizeSystemCalls/xv6-riscv/kernel/fs.c:448-476 | truncation keeps single ownership, clears the pointers of that inode and no others |
| `FsState.HeldPointer` | G16_Project1_xv6CustomizeSystemCalls/xv6-riscv/kernel/fs.c:448-476 | the next direct block to free has not been freed before |
| `FsState.HeldEntry` | G16_Project1_xv6CustomizeSystemCalls/xv6-riscv/kernel/fs.c:448-476 | the next block listed in the indirect block has not been freed before |
| `FsState.AllHeld` | G16_Project1_xv6CustomizeSystemCalls/xv6-riscv/kernel/fs.c:448-476 | direct, indirect and indirect-listed blocks together are all the inode owns |
| `FsBytes.AttachBytes` | G16_Project1_xv6CustomizeSystemCalls/xv6-riscv/kernel/fs.c:405-444 | a newly attached block changes the contents of no file |
| `FsBytes.PatchBytes` | G16_Project1_xv6CustomizeSystemCalls/xv6-riscv/kernel/fs.c:540-556 | copying a chunk into one block splices it into the bytes of the file, across the direct/indirect boundary too |
| `FsBytes.StoreBytes` | G16_Project1_xv6CustomizeSystemCalls/xv6-riscv/kernel/fs.c:226-242 | storing an inode, or into another file's block, changes no contents |
| `FileSystem.FileSystem.Balloc` | G16_Project1_xv6CustomizeSystemCalls/xv6-riscv/kernel/fs.c:62-89 | hands out the lowest free block, zeroed, never metadata; 0 exactly when none is free |
| `FileSystem.FileSystem.Bfree` | G16_Project1_xv6CustomizeSystemCalls/xv6-riscv/kernel/fs.c:91-106 | clears the bit of a block in use and logs one free-map block |
| `FileSystem.FileSystem.Bmap` | G16_Project1_xv6CustomizeSystemCalls/xv6-riscv/kernel/fs.c:395-444 | returns the block of the file, attached if it was missing, changing no contents; 0 only on a full disk; bounds the blocks logged |
| `FileSystem.FileSystem.BmapIndirect` | G16_Project1_xv6CustomizeSystemCalls/xv6-riscv/kernel/fs.c:421-441 | the same through the indirect block, allocating that first when missing |
| `FileSystem.FileSystem.Iupdate` | G16_Project1_xv6CustomizeSystemCalls/xv6-riscv/kernel/fs.c:222-242 | the on-disk inode becomes the one in memory |
| `FileSystem.FileSystem.Readi` | G16_Project1_xv6CustomizeSystemCalls/xv6-riscv/kernel/fs.c:490-519 | returns exactly content[off..min(off+n,size)] and its length, and 0 with nothing when off is past the end or off+n wraps; -1 exactly when the bytes lie in more blocks than copies to the reader succeed, and then what it has delivered is content too, as far as the failing copy got; changes nothing |
| `FileSystem.FileSystem.ReadLoop` | G16_Project1_xv6CustomizeSystemCalls/xv6-riscv/kernel/fs.c:504-517 | the loop delivers the bytes block by block, and stops at the copy that fails |
| `FileSystem.SpanIs` | G16_Project1_xv6CustomizeSystemCalls/xv6-riscv/kernel/fs.c:504-517 | the chunks of a transfer are the blocks that hold one of its bytes, one each |
| `FileSystem.FileSystem.WriteThenRead` | G16_Project1_xv6CustomizeSystemCalls/xv6-riscv/kernel/fs.c:490-562 | the round trip: after a writei that returned the length of its data, readi of the same range returns the data, unless a copy to the reader fails, and then a prefix of it |
| `FileSystem.FileSystem.ReadChunk` | G16_Project1_xv6CustomizeSystemCalls/xv6-riscv/kernel/fs.c:505-517 | one iteration returns the bytes up to the end of the block |
| `FileSystem.FileSystem.WriteChunk` | G16_Project1_xv6CustomizeSystemCalls/xv6-riscv/kernel/fs.c:540-556 | one iteration splices its chunk into the file, or finds the disk full or its source unreadable, and then changes no contents |
| `FileSystem.FileSystem.Writei` | G16_Project1_xv6CustomizeSystemCalls/xv6-riscv/kernel/fs.c:521-562 | content c becomes c[..off] + written + the rest of c, every other file and on-disk inode is as before; short only on a full disk, or after exactly the chunks whose copies succeeded; -1, with nothing changed, exactly when off is past the end or off+n past the largest file; at most Budget(off, n) blocks are logged |
| `FileSystem.FileSystem.Itrunc` | G16_Project1_xv6CustomizeSystemCalls/xv6-riscv/kernel/fs.c:446-476 | the file is empty, exactly its blocks have become free, all other files are as before; exactly the free-map blocks with their bits and the inode's block are logged |
| `FileSystem.FileSystem.FreeOne` | G16_Project1_xv6CustomizeSystemCalls/xv6-riscv/kernel/fs.c:91-106 | freeing an owned block not yet freed cannot hit the panic on a free block |
| `FileSystem.TruncatesRewrites` | G16_Project1_xv6CustomizeSystemCalls/xv6-riscv/kernel/fs.c:446-476 | truncation changes no other file's contents or on-disk inode |
| `FileSystem.FreedExactly` | G16_Project1_xv6CustomizeSystemCalls/xv6-riscv/kernel/fs.c:446-476 | the free map differs exactly at the blocks the inode owned |
| `FileSystem.FreePlusOwned` | G16_Project1_xv6CustomizeSystemCalls/xv6-riscv/kernel/fs.c:62-106 | free and owned blocks are disjoint and make up all data blocks, so their number is constant |
| `FileSystem.ChargeTotal` | G16_Project1_xv6CustomizeSystemCalls/xv6-riscv/kernel/fs.c:529-562 | data, free-map, indirect and inode blocks of one writei stay within the budget |
| `FileSystem.BlockThere` | G16_Project1_xv6CustomizeSystemCalls/xv6-riscv/kernel/fs.c:494-519 | a file without holes has a block for every byte below its size |
| `File.ChunkBudget` | G16_Project1_xv6CustomizeSystemCalls/xv6-riscv/kernel/file.c:148-173 | at any alignment a chunk logs at most MAXOPBLOCKS blocks |
| `File.OpenFile.WriteOp` | G16_Project1_xv6CustomizeSystemCalls/xv6-riscv/kernel/file.c:159-170 | one operation writes its chunk at the file offset within the log budget; -1 exactly when the offset is past the end or the chunk goes past the largest file |
| `File.OpenFile.Write` | G16_Project1_xv6CustomizeSystemCalls/xv6-riscv/kernel/file.c:133-179 | on a file open for writing, the chunks together write a prefix of the data at the old offset, all of it unless the disk is full, the offset is past the end, the next chunk goes past the largest file or a copy fails, every operation keeps to MAXOPBLOCKS, and all but the last write 3072 bytes; on another, -1 and nothing changed |
| `Journal.SameSound` | G16_Project1_xv6CustomizeSystemCalls/xv6-riscv/kernel/fs.h:8-12 | pointers, free map and file contents do not depend on the log area of the disk |
| `Journal.LoadsStored` | G16_Project1_xv6CustomizeSystemCalls/xv6-riscv/kernel/fs.c:302-311 | the inode ilock reads is the one iupdate stored |
| `Journal.EndSegment` | G16_Project1_xv6CustomizeSystemCalls/xv6-riscv/kernel/log.c:145-204 | from end_op to the end of its commit, a crash leaves what it would have left before or all there was |
| `Journal.CrashAnywhere` | G16_Project1_xv6CustomizeSystemCalls/xv6-riscv/kernel/log.c:117-124 | crash in any state, crash again during recovery any number of times: on the disk that is left, the inodes read from their blocks, the free map, every pointer and every file are those of the file system at the boundary of an operation |
| `Journal.Journal.constructor` | G16_Project1_xv6CustomizeSystemCalls/xv6-riscv/kernel/log.c:53-63 | boot from a disk that recovers to a consistent file system |
| `Journal.Journal.Begin` | G16_Project1_xv6CustomizeSystemCalls/xv6-riscv/kernel/log.c:126-143 | opens an operation exactly when the log has room for it |
| `Journal.Journal.Emit` | G16_Project1_xv6CustomizeSystemCalls/xv6-riscv/kernel/log.c:206-236 | the blocks an operation changed go to log_write in order, and then the log's cache is the file system's; no disk state in between recovers differently; panics only on a full log |
| `Journal.Journal.Write` | G16_Project1_xv6CustomizeSystemCalls/xv6-riscv/kernel/fs.c:521-562 | a writei inside an operation: every state of the log still recovers to an operation's boundary, and the new file system is the next boundary |
| `Journal.Journal.Truncate` | G16_Project1_xv6CustomizeSystemCalls/xv6-riscv/kernel/fs.c:446-476 | the same for itrunc, of a file whose blocks have their bits in fewer than MAXOPBLOCKS free-map blocks |
| `Journal.TruncateFits` | G16_Project1_xv6CustomizeSystemCalls/xv6-riscv/kernel/fs.c:446-476 | that is every file of a disk whose free map takes fewer than MAXOPBLOCKS blocks |
| `Journal.Journal.End` | G16_Project1_xv6CustomizeSystemCalls/xv6-riscv/kernel/log.c:145-176 | through all block writes of the commit, also of one that panics, a crash recovers the boundary from before or the last one; after the commit, the last one; panics exactly when some step of the commit finds no buffer |
| `Journal.Journal.Crash` | G16_Project1_xv6CustomizeSystemCalls/xv6-riscv/kernel/log.c:117-124 | what a crash now recovers is known and the same as before it |
| `Journal.Journal.Recover` | G16_Project1_xv6CustomizeSystemCalls/xv6-riscv/kernel/log.c:117-124 | after recovery the file system read from disk is the boundary that was recoverable, with every file as it was there |
| `Journal.Journal.Load` | G16_Project1_xv6CustomizeSystemCalls/xv6-riscv/kernel/fs.c:291-318 | reading all inodes from a recovered disk gives the file system that was stored |
| `Journal.Journal.WriteOp` | G16_Project1_xv6CustomizeSystemCalls/xv6-riscv/kernel/file.c:159-170 | one operation while others may be open: it sleeps exactly when begin_op does; with no other open it does not sleep, and does not panic while others refer to fewer than NBUF - MAXOPBLOCKS buffers, and is durable at its end |
| `Journal.Journal.FileWrite` | G16_Project1_xv6CustomizeSystemCalls/xv6-riscv/kernel/file.c:133-179 | while other operations may be open, and whatever the moment of a crash or a panic, what is recovered is what would have been before the call or has some prefix of the data written at the offset and no other file changed; with no other operation open, all that was written is durable at the end |
| `Writers.NextKeeps` | G16_Project1_xv6CustomizeSystemCalls/xv6-riscv/kernel/fs.c:528-562 | every step of every process in writei, up to and including one log_write, keeps the invariant that ties the cache, the free map with the blocks that balloc has in hand, the pointers, the inodes on disk and the bytes of every file |
| `Writers.MarkKeeps` | G16_Project1_xv6CustomizeSystemCalls/xv6-riscv/kernel/fs.c:66-89 | balloc sets the bit of a block that neither a file nor another process has |
| `Writers.ClearPointerKeeps` | G16_Project1_xv6CustomizeSystemCalls/xv6-riscv/kernel/fs.c:410-431 | a zeroed block becomes the block of a pointer, and no file changes |
| `Writers.EnterKeeps` | G16_Project1_xv6CustomizeSystemCalls/xv6-riscv/kernel/fs.c:432-441 | the same for an entry of the indirect block |
| `Writers.CopyKeeps` | G16_Project1_xv6CustomizeSystemCalls/xv6-riscv/kernel/fs.c:538-550 | a chunk copied to a block of a locked file is spliced into that file and no other |
| `Writers.UpdateKeeps` | G16_Project1_xv6CustomizeSystemCalls/xv6-riscv/kernel/fs.c:553-559 | iupdate makes the file as long as it was written, and its inode on disk that of memory, whatever others store in the same block |
| `Writers.RelEmpty` | G16_Project1_xv6CustomizeSystemCalls/xv6-riscv/kernel/fs.c:66-89 | when balloc has nothing in hand, the cache is the file system, bit for bit |
| `Writers.NextInOrder` | G16_Project1_xv6CustomizeSystemCalls/xv6-riscv/kernel/fs.c:528-562 | calls of writei on different inodes, interleaved at every log_write, have the effect on every file of running one after the other in the order in which they return |
| `Writers.Rests` | G16_Project1_xv6CustomizeSystemCalls/xv6-riscv/kernel/fs.c:528-562 | when no call is under way, the cache is a file system whose free map, pointers and inodes agree, and every file has had exactly the calls that returned written to it |
| `WriterCosts.BillKeeps` | G16_Project1_xv6CustomizeSystemCalls/xv6-riscv/kernel/fs.c:528-562 | what a call has logged, however others come between, stays within what its iterations account for |
| `WriterCosts.WithinBudget` | G16_Project1_xv6CustomizeSystemCalls/xv6-riscv/kernel/file.c:151-158 | no log_write of a call, however others come between, goes beyond the budget of a call that runs alone |
| `LoggedWriters.LogsAllowed` | G16_Project1_xv6CustomizeSystemCalls/xv6-riscv/kernel/log.c:206-236 | every log_write of an interleaved call is for a home block and within the space that begin_op reserved |
| `LoggedWriters.MoveKeeps` | G16_Project1_xv6CustomizeSystemCalls/xv6-riscv/kernel/log.c:66-236 | begin_op, every step of every call, end_op, every block write of commit and recovery and a crash at any point keep the invariant that ties log, cache and the file systems that may be recovered |
| `LoggedWriters.RunRight` | G16_Project1_xv6CustomizeSystemCalls/xv6-riscv/kernel/log.c:66-236 | the invariant holds in every state of every run |
| `LoggedWriters.InterleavedCrash` | G16_Project1_xv6CustomizeSystemCalls/xv6-riscv/kernel/log.c:117-124 | stop the machine in any state of any run of interleaved calls: on the disk that recovery leaves, inodes, free map and pointers agree, and every file has had exactly the first of the calls to return written to it, one after the other, up to some moment when no operation was open |
| `LoggedWriters.NothingLost` | G16_Project1_xv6CustomizeSystemCalls/xv6-riscv/kernel/log.c:145-176 | when no operation is open and no commit under way, the disk has every call that has returned |
| `LoggedWriters.OnlyFullLogStops` | G16_Project1_xv6CustomizeSystemCalls/xv6-riscv/kernel/log.c:206-216 | nothing keeps a call from its next step but a log_write that finds the log full |
| `FreeList.InsertSorted` | G16_Project1_xv6CustomizeSystemCalls/xv6-riscv/user/umalloc.c:24-44 | after free the list is address-ordered with a gap between any two blocks: nothing is left unmerged |
| `FreeList.InsertTotal` | G16_Project1_xv6CustomizeSystemCalls/xv6-riscv/user/umalloc.c:24-44 | free adds exactly the freed units |
| `FreeList.InsertApart` | G16_Project1_xv6CustomizeSystemCalls/xv6-riscv/user/umalloc.c:24-44 | what met neither the list nor the freed block meets nothing on the new list |
| `FreeList.CarveSorted` | G16_Project1_xv6CustomizeSystemCalls/xv6-riscv/user/umalloc.c:72-84 | taking the tail of a block, or all of it, keeps the list ordered and apart from what is handed out |
| `FreeList.CarveTotal` | G16_Project1_xv6CustomizeSystemCalls/xv6-riscv/user/umalloc.c:72-84 | malloc removes exactly the units handed out |
| `Umalloc.OnlyHere` | G16_Project1_xv6CustomizeSystemCalls/xv6-riscv/user/umalloc.c:29-32 | the exit tests of the search in free hold at the right place and nowhere else, across the wrap of the cycle |
| `Umalloc.LinkChain` | G16_Project1_xv6CustomizeSystemCalls/xv6-riscv/user/umalloc.c:33-43 | relinking through the headers gives the merged cycle, in each of the four merge cases |
| `Umalloc.UnlinkChain` | G16_Project1_xv6CustomizeSystemCalls/xv6-riscv/user/umalloc.c:74-75 | unlinking an exactly fitting block leaves one cycle |
| `Umalloc.ShrinkChain` | G16_Project1_xv6CustomizeSystemCalls/xv6-riscv/user/umalloc.c:76-80 | splitting a block leaves one cycle |
| `Umalloc.CheckedMore` | G16_Project1_xv6CustomizeSystemCalls/xv6-riscv/user/umalloc.c:71-88 | coming back to freep means that every block was too small |
| `Umalloc.Allocator.FindPlace` | G16_Project1_xv6CustomizeSystemCalls/xv6-riscv/user/umalloc.c:29-31 | the search ends at the block after which the freed one belongs |
| `Umalloc.Allocator.Link` | G16_Project1_xv6CustomizeSystemCalls/xv6-riscv/user/umalloc.c:32-43 | the new cycle is the old one with the block inserted and merged |
| `Umalloc.Allocator.Free` | G16_Project1_xv6CustomizeSystemCalls/xv6-riscv/user/umalloc.c:24-44 | keeps the circular, sorted, merged list, disjoint live blocks and the unit balance; only the freed block stops being live |
| `Umalloc.Allocator.Morecore` | G16_Project1_xv6CustomizeSystemCalls/xv6-riscv/user/umalloc.c:46-61 | adds the units obtained to the list, which then has a fitting block; fails with no change |
| `Umalloc.Allocator.Take` | G16_Project1_xv6CustomizeSystemCalls/xv6-riscv/user/umalloc.c:72-84 | hands out units that meet no live block |
| `Umalloc.Allocator.Malloc` | G16_Project1_xv6CustomizeSystemCalls/xv6-riscv/user/umalloc.c:63-90 | the search ends, asks for memory at most once and only if every block on the list is too small; the block is new, disjoint from all live ones, and the smallest number of 16-byte units with room for a header and the bytes; free plus live units equal the units obtained; 0 only if sbrk was asked and failed, and then nothing has changed |
| `PageTable.PxInjective` | G16_Project1_xv6CustomizeSystemCalls/xv6-riscv/kernel/vm.c:85-115 | below MAXVA the three 9-bit indices determine the page |
| `PageTable.PxParts` | G16_Project1_xv6CustomizeSystemCalls/xv6-riscv/kernel/vm.c:85-115 | below MAXVA the page number is its three 9-bit indices, the root's first |
| `PageTable.SamePath` | G16_Project1_xv6CustomizeSystemCalls/xv6-riscv/kernel/vm.c:97-115 | two walks that end in the same table took the same path from the same root |
| `PageTable.EntryPage` | G16_Project1_xv6CustomizeSystemCalls/xv6-riscv/kernel/vm.c:97-115 | every last-level entry is the entry of a page below MAXVA |
| `PageTable.RootExists` | G16_Project1_xv6CustomizeSystemCalls/xv6-riscv/kernel/vm.c:262-278 | every table and frame belongs to a root that exists |
| `PageTable.AddTableLookup` | G16_Project1_xv6CustomizeSystemCalls/xv6-riscv/kernel/vm.c:103-113 | adding a missing table changes no translation of any address space |
| `PageTable.MapLookup` | G16_Project1_xv6CustomizeSystemCalls/xv6-riscv/kernel/vm.c:145-174 | writing an entry inserts one translation and changes no other, in any address space |
| `PageTable.UnmapLookup` | G16_Project1_xv6CustomizeSystemCalls/xv6-riscv/kernel/vm.c:189-212 | clearing an entry deletes one translation and changes no other, in any address space |
| `PageTable.TableOnce` | G16_Project1_xv6CustomizeSystemCalls/xv6-riscv/kernel/vm.c:97-115 | a page-table page hangs from one entry only |
| `PageTable.FrameOnce` | G16_Project1_xv6CustomizeSystemCalls/xv6-riscv/kernel/vm.c:145-174 | an owned frame is mapped at one page of one address space only |
| `PageTable.FreeTableGood` | G16_Project1_xv6CustomizeSystemCalls/xv6-riscv/kernel/vm.c:262-278 | freeing an empty table and clearing its entry keeps the trees |
| `Vm.OtherLookup` | G16_Project1_xv6CustomizeSystemCalls/xv6-riscv/kernel/vm.c:97-212 | a change to one address space leaves every translation of the others |
| `Vm.Vm.constructor` | G16_Project1_xv6CustomizeSystemCalls/xv6-riscv/kernel/kalloc.c:26-31 | at boot every page is the kernel's or on the free list |
| `Vm.Vm.Freerange` | G16_Project1_xv6CustomizeSystemCalls/xv6-riscv/kernel/kalloc.c:33-40 | each page of the range is on the free list once |
| `Vm.Vm.Kalloc` | G16_Project1_xv6CustomizeSystemCalls/xv6-riscv/kernel/kalloc.c:65-82 | takes a free page off the list and fills it with 5; none only when the list is empty; no other page is written |
| `Vm.Vm.Kfree` | G16_Project1_xv6CustomizeSystemCalls/xv6-riscv/kernel/kalloc.c:42-63 | the page is back on the list, once, filled with 1; no other page is written |
| `Vm.Vm.WalkTo` | G16_Project1_xv6CustomizeSystemCalls/xv6-riscv/kernel/vm.c:85-115 | finds the last-level table, adding missing ones when asked; no translation changes, also when memory runs out |
| `Vm.Vm.Mappages` | G16_Project1_xv6CustomizeSystemCalls/xv6-riscv/kernel/vm.c:140-174 | inserts n consecutive translations, or as many as memory allowed, and changes no other; fails only with fewer than two pages free per page |
| `Vm.Vm.Uvmcreate` | G16_Project1_xv6CustomizeSystemCalls/xv6-riscv/kernel/vm.c:176-187 | a new address space with nothing mapped |
| `Vm.Vm.Uvmunmap` | G16_Project1_xv6CustomizeSystemCalls/xv6-riscv/kernel/vm.c:189-212 | deletes exactly the translations of the range; freed frames go back to the list; of the pages it frees without the address space owning them, it says which they are: they are on the list while still lent |
| `Vm.Vm.Uvmdealloc` | G16_Project1_xv6CustomizeSystemCalls/xv6-riscv/kernel/vm.c:242-258 | shrinks to the new size by deleting exactly the pages above it, and says which lent pages that frees |
| `Vm.Vm.IsMapped` | G16_Project1_xv6CustomizeSystemCalls/xv6-riscv/kernel/vm.c:475-486 | tells whether the page is mapped, and changes nothing |
| `Vm.Vm.AllocPage` | G16_Project1_xv6CustomizeSystemCalls/xv6-riscv/kernel/vm.c:227-237 | maps one new page with the given contents, or, with fewer than three pages free, leaves every translation as it was; panics exactly when the page is mapped already and a free page is found |
| `Vm.Vm.Uvmalloc` | G16_Project1_xv6CustomizeSystemCalls/xv6-riscv/kernel/vm.c:214-240 | maps every new page to a zeroed frame of its own; on failure, only when fewer than three pages per new page were free, every translation is as before; panics only if a page of the range is mapped, and succeeds only if none is; no page that stays in use is overwritten |
| `Vm.Vm.Uvmcopy` | G16_Project1_xv6CustomizeSystemCalls/xv6-riscv/kernel/vm.c:290-324 | every page of the parent has a copy with the same flags and bytes in a frame of the child's own, and no page more; on failure, only for want of memory, the child's pages are gone; the parent is as before |
| `Vm.Vm.Freewalk` | G16_Project1_xv6CustomizeSystemCalls/xv6-riscv/kernel/vm.c:260-278 | frees every table below and itself, returning each page once; the leaf panic is unreachable |
| `Vm.Vm.Uvmfree` | G16_Project1_xv6CustomizeSystemCalls/xv6-riscv/kernel/vm.c:280-288 | every page of the address space is free and nothing else has changed |
| `Vm.AllClear` | G16_Project1_xv6CustomizeSystemCalls/xv6-riscv/kernel/vm.c:262-278 | an address space that maps no page below MAXVA has no leaf in its tables |
| `Vm.RootGone` | G16_Project1_xv6CustomizeSystemCalls/xv6-riscv/kernel/vm.c:262-288 | freeing the root leaves no page behind |
| `Spaces.RegionsApart` | G16_Project1_xv6CustomizeSystemCalls/xv6-riscv/kernel/sysproc.c:618-620 | regions of different segments never overlap and lie below the trapframe |
| `Spaces.OthersKept` | G16_Project1_xv6CustomizeSystemCalls/xv6-riscv/kernel/proc.c:206-287 | a change to one address space, which may be new or gone, keeps all the others as they should be |
| `Spaces.ChangeOne` | G16_Project1_xv6CustomizeSystemCalls/xv6-riscv/kernel/proc.c:266-287 | a process that changes its own pages and size keeps the invariant of all processes and segments |
| `Spaces.TakenInv` | G16_Project1_xv6CustomizeSystemCalls/xv6-riscv/kernel/kalloc.c:65-82 | a page taken off the free list changes no translation and no one else's page |
| `Spaces.ReturnedInv` | G16_Project1_xv6CustomizeSystemCalls/xv6-riscv/kernel/kalloc.c:42-63 | a page the kernel took is mapped nowhere, so it can be freed, and no translation changes |
| `Spaces.LentName` | G16_Project1_xv6CustomizeSystemCalls/xv6-riscv/kernel/vm.c:140-174 | a page an address space maps without owning it is the trampoline, its own trapframe, or a page of a segment the process is attached to |
| `Spaces.AddProc` | G16_Project1_xv6CustomizeSystemCalls/xv6-riscv/kernel/proc.c:133-150 | a new process has its own trapframe page and nothing attached; all others are as before |
| `Spaces.DropProc` | G16_Project1_xv6CustomizeSystemCalls/xv6-riscv/kernel/proc.c:189-194 | once a detached process's address space is gone nothing maps its trapframe, and all others are as before |
| `Spaces.CreatedAndGone` | G16_Project1_xv6CustomizeSystemCalls/xv6-riscv/kernel/proc.c:206-238 | creating an address space and freeing it puts every page back to its use |
| `Spaces.Accounted` | G16_Project1_xv6CustomizeSystemCalls/xv6-riscv/kernel/kalloc.c:42-82 | every page is, exactly once, on the free list, the kernel's, the trapframe of one process, a page of one segment in use, or a table or frame of one process |
| `Spaces.NoneLeft` | G16_Project1_xv6CustomizeSystemCalls/xv6-riscv/kernel/proc.c:163-204 | when no process is left every page is free, the kernel's, or of a segment nobody is attached to |
| `Spaces.SameView` | G16_Project1_xv6CustomizeSystemCalls/xv6-riscv/kernel/sysproc.c:618-636 | processes attached to a segment map the same pages at the same addresses |
| `Spaces.ShrinkLimit` | G16_Project1_xv6CustomizeSystemCalls/xv6-riscv/kernel/vm.c:189-212 | the pages uvmdealloc frees are all the process's own exactly when no attached segment lies in the range, and none is freed twice |
| `Spaces.LentSegment` | G16_Project1_xv6CustomizeSystemCalls/xv6-riscv/kernel/vm.c:189-212 | a page it frees without the process owning it is a page of a segment, in its place |
| `Spaces.MappedAbove` | G16_Project1_xv6CustomizeSystemCalls/xv6-riscv/kernel/vm.c:162-166 | above its size a process maps exactly its attached segments, so mappages panics there and nowhere else |
| `Spaces.FreewalkLeaf` | G16_Project1_xv6CustomizeSystemCalls/xv6-riscv/kernel/vm.c:262-278 | when trampoline, trapframe and the pages below the size are unmapped, freewalk panics exactly if a segment is still attached above the size |
| `Shm.NewSegment` | G16_Project1_xv6CustomizeSystemCalls/xv6-riscv/kernel/sysproc.c:559-586 | a segment made from fresh pages keeps distinct keys, reference counts and all mappings |
| `Shm.AttachedInv` | G16_Project1_xv6CustomizeSystemCalls/xv6-riscv/kernel/sysproc.c:618-636 | attaching or detaching keeps every reference count equal to the number of processes attached, and every address space mapping exactly what it should |
| `Shm.LastGone` | G16_Project1_xv6CustomizeSystemCalls/xv6-riscv/kernel/sysproc.c:668-679 | when the count is 0 no page table maps a page of the segment, so its pages can be freed, and the other segments keep the invariant |
| `ProcMem.Processes.constructor` | G16_Project1_xv6CustomizeSystemCalls/xv6-riscv/kernel/kalloc.c:26-31 | a kernel without processes, all pages free but its own |
| `ProcMem.Processes.FreePages` | G16_Project1_xv6CustomizeSystemCalls/xv6-riscv/kernel/sysproc.c:669-673 | each of the pages goes to the free list once |
| `ProcMem.Processes.TakePages` | G16_Project1_xv6CustomizeSystemCalls/xv6-riscv/kernel/sysproc.c:568-582 | zeroed pages, or, if too few are free, all of them given back |
| `ProcMem.Processes.ProcPagetable` | G16_Project1_xv6CustomizeSystemCalls/xv6-riscv/kernel/proc.c:206-238 | trampoline and trapframe and nothing else; on failure, only with fewer than five pages free, every page and table is as it was |
| `ProcMem.Processes.ProcFreepagetable` | G16_Project1_xv6CustomizeSystemCalls/xv6-riscv/kernel/proc.c:240-248 | exactly the pages of the address space become free, all others are as before |
| `ProcMem.Processes.Allocproc` | G16_Project1_xv6CustomizeSystemCalls/xv6-riscv/kernel/proc.c:113-159 | a new process with a trapframe of its own and an empty address space; fails, with every page back where it was, only with NPROC processes or fewer than six pages free |
| `ProcMem.Processes.Growproc` | G16_Project1_xv6CustomizeSystemCalls/xv6-riscv/kernel/proc.c:266-287 | grows with zeroed pages or shrinks, attached or not; a negative sum wraps and changes nothing; failure, only past TRAPFRAME or for want of memory, changes no translation; panics only if an attached segment lies in the new range, and succeeds only if none does; keeps every process and segment as they should be, unless it shrinks over an attached segment: then pages are on the free list that the other processes attached to it still map |
| `ProcMem.Processes.Shrink` | G16_Project1_xv6CustomizeSystemCalls/xv6-riscv/kernel/proc.c:281-284 | unmaps exactly the pages between the sizes; the lent pages freed with them are none exactly when no attached segment lies there, and each of them is on the free list while every other process attached to its segment maps it |
| `ProcMem.LentStillMapped` | G16_Project1_xv6CustomizeSystemCalls/xv6-riscv/kernel/proc.c:281-284 | every page freed so is mapped, as before, by every other process attached to the segment |
| `ProcMem.Processes.SbrkLazy` | G16_Project1_xv6CustomizeSystemCalls/xv6-riscv/kernel/sysproc.c:116-125 | claims a larger size without mapping anything, up to TRAPFRAME, also over attached segments |
| `ProcMem.Processes.Vmfault` | G16_Project1_xv6CustomizeSystemCalls/xv6-riscv/kernel/vm.c:448-473 | maps a zeroed page if the address is below the size and unmapped; fails, with nothing mapped, only otherwise or for want of memory |
| `ProcMem.Processes.Shmget` | G16_Project1_xv6CustomizeSystemCalls/xv6-riscv/kernel/sysproc.c:536-591 | the segment with that key if there is one, else a new one of zeroed pages in a free slot; -1, with no page taken, only for a bad size, a full table or want of memory, which leaves key, size and page count in a slot that stays unused; no translation of any process changes |
| `ProcMem.Processes.MakeSegment` | G16_Project1_xv6CustomizeSystemCalls/xv6-riscv/kernel/sysproc.c:559-586 | the slot holds the new segment, or nothing has changed |
| `ProcMem.Processes.Shmat` | G16_Project1_xv6CustomizeSystemCalls/xv6-riscv/kernel/sysproc.c:593-639 | the region, the id-th four pages below the trapframe, maps exactly the segment's pages and the count goes up by one; attached twice it changes nothing; failure, only for a bad id or want of memory, changes no translation; panics only if a page of the region is mapped, and attaches only if none is |
| `ProcMem.Processes.MapSegment` | G16_Project1_xv6CustomizeSystemCalls/xv6-riscv/kernel/sysproc.c:622-632 | maps the pages of the segment one by one, or undoes them |
| `ProcMem.Processes.Undo` | G16_Project1_xv6CustomizeSystemCalls/xv6-riscv/kernel/sysproc.c:625-628 | the pages mapped before the failure are unmapped |
| `ProcMem.Processes.Detach` | G16_Project1_xv6CustomizeSystemCalls/xv6-riscv/kernel/proc.c:170-185 | the region is unmapped and the count lowered; with the last process the pages go to the free list, each once; no other process sees a change |
| `ProcMem.Processes.DropSegment` | G16_Project1_xv6CustomizeSystemCalls/xv6-riscv/kernel/sysproc.c:668-679 | the pages of the segment, and no others, become free |
| `ProcMem.Processes.Shmdt` | G16_Project1_xv6CustomizeSystemCalls/xv6-riscv/kernel/sysproc.c:641-683 | unmaps the region and lowers the count; exactly when the last process detaches the pages go to the free list, each once, and the slot is free; -1, with nothing changed, exactly if there is nothing to detach |
| `ProcMem.Processes.DetachAll` | G16_Project1_xv6CustomizeSystemCalls/xv6-riscv/kernel/proc.c:167-187 | detaches from every segment, each exactly once, freeing those no one else has |
| `ProcMem.Processes.Freeproc` | G16_Project1_xv6CustomizeSystemCalls/xv6-riscv/kernel/proc.c:161-204 | frees exactly the pages of the process, its trapframe and the segments it was the last to have; every other process keeps every translation and byte; the leaf panic of freewalk is not reached |
| `ProcMem.Processes.FreeSpace` | G16_Project1_xv6CustomizeSystemCalls/xv6-riscv/kernel/proc.c:189-194 | the trapframe is freed before the page table that maps it, and in the end nothing maps it |
| `ProcMem.Processes.Fork` | G16_Project1_xv6CustomizeSystemCalls/xv6-riscv/kernel/proc.c:289-315 | the child has a copy of every page of the parent, attached segments below the size among them, and of every byte of its saved registers but for a0, which is 0, and is attached to nothing; on failure, only for want of memory or of a process slot, every page and table is as it was |
| `ProcMem.ForkUndone` | G16_Project1_xv6CustomizeSystemCalls/xv6-riscv/kernel/proc.c:302-308 | freeing the child of a failed fork leaves the memory exactly as it was |
| `ProcMem.FreedWhileMapped` | G16_Project1_xv6CustomizeSystemCalls/xv6-riscv/kernel/sysproc.c:116-125 | a run: two processes attach a segment, one claims all memory below the trapframe lazily and shrinks, and a page is on the free list that the other maps |
| `CopyUser.FaultKeeps` | G16_Project1_xv6CustomizeSystemCalls/xv6-riscv/kernel/vm.c:448-473 | faulting in a page changes no byte of any process |
| `CopyUser.Alias` | G16_Project1_xv6CustomizeSystemCalls/xv6-riscv/kernel/vm.c:117-138 | a frame a user reaches is seen elsewhere only where a segment is shared, and there at the same page |
| `CopyUser.SharedBytes` | G16_Project1_xv6CustomizeSystemCalls/xv6-riscv/kernel/sysproc.c:618-636 | what one process sees in a shared segment every other one attached sees at the same address |
| `CopyUser.WriteBytes` | G16_Project1_xv6CustomizeSystemCalls/xv6-riscv/kernel/vm.c:365-368 | bytes written into a frame appear at one place, in the address space and in those that share it there, and nowhere else |
| `CopyUser.Walkaddr` | G16_Project1_xv6CustomizeSystemCalls/xv6-riscv/kernel/vm.c:117-138 | the frame of the page exactly when it is mapped for user access |
| `CopyUser.UserPage` | G16_Project1_xv6CustomizeSystemCalls/xv6-riscv/kernel/vm.c:353-358 | the frame of the page, faulted in if need be; none only for a page out of range, without permission, or not to be had |
| `CopyUser.WritablePage` | G16_Project1_xv6CustomizeSystemCalls/xv6-riscv/kernel/vm.c:353-363 | the same for writing |
| `CopyUser.Copyout` | G16_Project1_xv6CustomizeSystemCalls/xv6-riscv/kernel/vm.c:339-375 | the bytes are in the process's memory and, where it is shared, in that of the others; no other byte of any process has changed; a failure stops at the first page that cannot be used, with the bytes before it stored |
| `CopyUser.Copyin` | G16_Project1_xv6CustomizeSystemCalls/xv6-riscv/kernel/vm.c:377-403 | the bytes of the process's memory, across pages, and no byte of any process has changed |
| `CopyUser.CopyThereAndBack` | G16_Project1_xv6CustomizeSystemCalls/xv6-riscv/kernel/vm.c:339-403 | after a successful copyout, copyin of as many bytes succeeds and returns what was stored |
| `SleepTheorems.InitialInv` | G16_Project1_xv6CustomizeSystemCalls/xv6-riscv/kernel/proc.c:50-63 | boot with init alone satisfies the invariant |
| `SleepTheorems.StepKeeps` | G16_Project1_xv6CustomizeSystemCalls/xv6-riscv/kernel/proc.c:409-566 | every step of every process keeps the invariant, among them the window in sleep between releasing the condition lock and setting the state |
| `SleepTheorems.RunInv` | G16_Project1_xv6CustomizeSystemCalls/xv6-riscv/kernel/proc.c:409-566 | the invariant holds in every state of every run |
| `SleepTheorems.NoLostWakeup` | G16_Project1_xv6CustomizeSystemCalls/xv6-riscv/kernel/proc.c:693-738 | whenever wait_lock is free, no process asleep in kwait has an exited child, none asleep in kwaitpid has its target exited, and one asleep on a mutex faces a locked mutex |
| `SleepTheorems.MutualExclusion` | G16_Project1_xv6CustomizeSystemCalls/xv6-riscv/kernel/proc.c:447-460 | wait_lock is never held by two |
| `SleepTheorems.PidsUnique` | G16_Project1_xv6CustomizeSystemCalls/xv6-riscv/kernel/proc.c:96-131 | processes in use have different pids |
| `SleepTheorems.ScanKeeps` | G16_Project1_xv6CustomizeSystemCalls/xv6-riscv/kernel/proc.c:467-566 | a step of the scan of kwait and kwaitpid keeps the invariant, in which a scan has passed no exited child and remembers whether it has passed any child, also where kwaitpid stops at its target |
| `SleepTheorems.ReparentKeeps` | G16_Project1_xv6CustomizeSystemCalls/xv6-riscv/kernel/proc.c:407-420 | children handed to init, exited ones among them, make init due for a wakeup |
| `SleepTheorems.WakeKeeps` | G16_Project1_xv6CustomizeSystemCalls/xv6-riscv/kernel/proc.c:722-738 | wakeup leaves no process it has passed asleep on the channel |
| `SleepTheorems.SleepKeeps` | G16_Project1_xv6CustomizeSystemCalls/xv6-riscv/kernel/proc.c:691-720 | letting go of wait_lock before being marked asleep loses no wakeup |
| `SleepTheorems.ExitKeeps` | G16_Project1_xv6CustomizeSystemCalls/xv6-riscv/kernel/proc.c:452-463 | a process becomes a zombie only when its parent is not asleep for it |
| `SleepTheorems.MutexKeeps` | G16_Project1_xv6CustomizeSystemCalls/xv6-riscv/kernel/sysproc.c:192-280 | locking, unlocking and trying a mutex keep the invariant, in which every sleeper that faces a free mutex is about to be woken |
| `SleepResults.EveryReturn` | G16_Project1_xv6CustomizeSystemCalls/xv6-riscv/kernel/proc.c:470-561 | whatever a process returns from wait, waitpid or a mutex call, it made that call earlier, has not returned from it since, and one step decided the result |
| `SleepResults.WaitReturns` | G16_Project1_xv6CustomizeSystemCalls/xv6-riscv/kernel/proc.c:470-561 | in every run: a positive result of kwait or kwaitpid is the pid of a child that had exited, the target if one was given, its slot is free after that step and nothing else has changed; otherwise it is -1, nothing has changed, and there was no such child, or the caller had been killed and none of them had exited, or the status could not be stored |
| `SleepResults.WaitStatus` | G16_Project1_xv6CustomizeSystemCalls/xv6-riscv/kernel/proc.c:452-496 | the status kwait stores is the one that child, under that pid, gave to kexit |
| `SleepResults.OnlyCollected` | G16_Project1_xv6CustomizeSystemCalls/xv6-riscv/kernel/proc.c:484-496 | no exited process is lost and none is reported twice: its slot changes only in the step in which a kwait or kwaitpid of its parent finds it, with its pid and status as the answer |
| `SleepResults.WaitSleeps` | G16_Project1_xv6CustomizeSystemCalls/xv6-riscv/kernel/proc.c:502-560 | kwait and kwaitpid go to sleep only while there is a child to wait for, none of those has exited, and the caller has not been killed |
| `SleepResults.WaitGoesOn` | G16_Project1_xv6CustomizeSystemCalls/xv6-riscv/kernel/proc.c:476-560 | each look at the table brings the scan forward, to a result or to sleep |
| `SleepResults.ExitedWith` | G16_Project1_xv6CustomizeSystemCalls/xv6-riscv/kernel/proc.c:425-463 | a process that has exited called kexit with the status it shows |
| `SleepResults.OnlyWoken` | G16_Project1_xv6CustomizeSystemCalls/xv6-riscv/kernel/proc.c:723-765 | a sleeping process is woken only by kill or by a wakeup on the channel it sleeps on, and is runnable then |
| `KillResults.KilledExactly` | G16_Project1_xv6CustomizeSystemCalls/xv6-riscv/kernel/proc.c:502-560 | a process that sleeps in kwait or kwaitpid, or is past its test of killed and about to, has been killed exactly if the kill came between that test and its taking of its own lock in sleep |
| `KillResults.KilledAsleep` | G16_Project1_xv6CustomizeSystemCalls/xv6-riscv/kernel/proc.c:502-560 | the kill that a sleeping process has missed, and that it has not been woken since |
| `KillResults.KillCanMiss` | G16_Project1_xv6CustomizeSystemCalls/xv6-riscv/kernel/proc.c:502-509 | a run in which that happens |
| `Orphans.RunFamily` | G16_Project1_xv6CustomizeSystemCalls/xv6-riscv/kernel/proc.c:409-420 | in every state of every run parents and children are as the next lemmas need it, also in the middle of a reparent |
| `Orphans.ParentLives` | G16_Project1_xv6CustomizeSystemCalls/xv6-riscv/kernel/proc.c:409-463 | every started process but init has a parent that is started and has not exited |
| `Orphans.InitLives` | G16_Project1_xv6CustomizeSystemCalls/xv6-riscv/kernel/proc.c:430-431 | init does not exit |
| `Orphans.ParentOrInit` | G16_Project1_xv6CustomizeSystemCalls/xv6-riscv/kernel/proc.c:409-420 | while a process is not collected, it keeps its parent or is given to init |
| `Orphans.Adopted` | G16_Project1_xv6CustomizeSystemCalls/xv6-riscv/kernel/proc.c:409-463 | from the moment a process has exited, those it was the parent of have init as their parent until they are collected |
| `Orphans.FreshPid` | G16_Project1_xv6CustomizeSystemCalls/xv6-riscv/kernel/proc.c:95-131 | a new process gets a pid that no process has had before in the run |
| `Orphans.ForkDone` | G16_Project1_xv6CustomizeSystemCalls/xv6-riscv/kernel/proc.c:326-337 | when fork is done, the child is ready to run and the caller is its parent |
| `MutexResults.RunAgrees` | G16_Project1_xv6CustomizeSystemCalls/xv6-riscv/kernel/sysproc.c:173-281 | in every state of every run the mutex table agrees with who holds what, where a process holds a mutex from the return of its lock or trylock with 0 to the return of its unlock with 0 |
| `MutexResults.OneHolder` | G16_Project1_xv6CustomizeSystemCalls/xv6-riscv/kernel/sysproc.c:192-281 | in every state of every run a mutex has at most one holder; a locked one names its holder as the owner, or has none yet and its owner is about to return 0 from locking it |
| `MutexResults.TrylockReturns` | G16_Project1_xv6CustomizeSystemCalls/xv6-riscv/kernel/sysproc.c:256-281 | trylock returns 0 exactly when the mutex is in use and unlocked, which is when no one holds it, and then only that entry changes, to locked by the caller; else -1 and no change |
| `MutexResults.UnlockReturns` | G16_Project1_xv6CustomizeSystemCalls/xv6-riscv/kernel/sysproc.c:228-254 | unlock returns 0 exactly for the holder, and leaves the mutex unlocked; else -1 |
| `MutexResults.LockReturns` | G16_Project1_xv6CustomizeSystemCalls/xv6-riscv/kernel/sysproc.c:192-226 | lock returns 0 only when the mutex is in use and no one holds it, and then only that entry changes, to locked by the caller; it returns -1, with no change, only when the mutex is not in use, the caller holds it, or has been killed |
| `MutexResults.LockSleeps` | G16_Project1_xv6CustomizeSystemCalls/xv6-riscv/kernel/sysproc.c:205-220 | lock goes to sleep only while another process holds the mutex |
| `MutexResults.LockKilled` | G16_Project1_xv6CustomizeSystemCalls/xv6-riscv/kernel/sysproc.c:219-223 | a process that was killed while it slept for a mutex gets -1 from that call, not the mutex |
| `MutexResults.CreateReturns` | G16_Project1_xv6CustomizeSystemCalls/xv6-riscv/kernel/sysproc.c:173-190 | create returns the lowest mutex not in use and sets it up unlocked, or -1 when all are in use |
| `MutexResults.OnlyChanges` | G16_Project1_xv6CustomizeSystemCalls/xv6-riscv/kernel/sysproc.c:173-281 | a mutex changes only by the call that creates it, by a lock or trylock while no one holds it, and by the unlock of its holder |
| `Ring.Unlink` | G16_Project1_xv6CustomizeSystemCalls/xv6-riscv/kernel/bio.c:128-129 | unlinking a buffer leaves one circular list of the others |
| `Ring.PushFront` | G16_Project1_xv6CustomizeSystemCalls/xv6-riscv/kernel/bio.c:130-133 | linking in after the head gives one circular list with the buffer first |
| `Bio.BufferCache.constructor` | G16_Project1_xv6CustomizeSystemCalls/xv6-riscv/kernel/bio.c:36-53 | binit makes one circular list of all buffers |
| `Bio.BufferCache.Find` | G16_Project1_xv6CustomizeSystemCalls/xv6-riscv/kernel/bio.c:65-73 | finds the buffer of a block if there is one |
| `Bio.BufferCache.Unused` | G16_Project1_xv6CustomizeSystemCalls/xv6-riscv/kernel/bio.c:75-87 | finds the least recently used buffer without references |
| `Bio.BufferCache.Bget` | G16_Project1_xv6CustomizeSystemCalls/xv6-riscv/kernel/bio.c:55-89 | a reference to the one buffer of the block; referenced or pinned buffers keep their block; otherwise the least recently used free one is recycled; the panic exactly when all are referenced |
| `Bio.NoBufferLeft` | G16_Project1_xv6CustomizeSystemCalls/xv6-riscv/kernel/bio.c:75-88 | a block that is not cached, or cached and in no use, finds no buffer exactly when the logged blocks and the unpinned buffers that processes refer to are as many as there are buffers |
| `Bio.InUse` | G16_Project1_xv6CustomizeSystemCalls/xv6-riscv/kernel/bio.c:75-88 | a buffer is in use exactly when it is pinned or a process refers to it, and the two are counted apart |
| `Bio.BufferCache.Bread` | G16_Project1_xv6CustomizeSystemCalls/xv6-riscv/kernel/bio.c:91-103 | the data is the last logged or written value of the block |
| `Bio.BufferCache.Bwrite` | G16_Project1_xv6CustomizeSystemCalls/xv6-riscv/kernel/bio.c:105-112 | the block reads as the data written, here and on disk |
| `Bio.BufferCache.LogWrite` | G16_Project1_xv6CustomizeSystemCalls/xv6-riscv/kernel/log.c:206-236 | the block reads as the data logged, and its buffer is pinned once |
| `Bio.BufferCache.Install` | G16_Project1_xv6CustomizeSystemCalls/xv6-riscv/kernel/log.c:72-82 | the logged value goes to disk and the pin goes, while no block reads differently |
| `Bio.BufferCache.Brelse` | G16_Project1_xv6CustomizeSystemCalls/xv6-riscv/kernel/bio.c:114-137 | a buffer no one refers to becomes the most recently used, and the others stay in the order they were in |
| `Bio.Recycle` | G16_Project1_xv6CustomizeSystemCalls/xv6-riscv/kernel/bio.c:77-86 | recycling keeps one buffer per block and what every block reads as |
| `Bio.Touch` | G16_Project1_xv6CustomizeSystemCalls/xv6-riscv/kernel/bio.c:55-151 | changes to one buffer and its block keep uniqueness, counts and contents of all others |
| `Virtio.Partition` | G16_Project1_xv6CustomizeSystemCalls/xv6-riscv/kernel/virtio_disk.c:155-213 | every descriptor is free or in exactly one chain |
| `Virtio.IndexGap` | G16_Project1_xv6CustomizeSystemCalls/xv6-riscv/kernel/virtio_disk.c:312-324 | the 16-bit indices are equal exactly when nothing is between them |
| `Virtio.NextIndex` | G16_Project1_xv6CustomizeSystemCalls/xv6-riscv/kernel/virtio_disk.c:271-277 | the ring place of an index is the same after it wraps |
| `Virtio.SubmitGood` | G16_Project1_xv6CustomizeSystemCalls/xv6-riscv/kernel/virtio_disk.c:235-277 | posting a chain keeps the partition, the rings and every other request |
| `Virtio.SeeGood` | G16_Project1_xv6CustomizeSystemCalls/xv6-riscv/kernel/virtio_disk.c:312-324 | the next used entry is a completed request with status 0, and seeing it frees its buffer only |
| `Virtio.UnchainGood` | G16_Project1_xv6CustomizeSystemCalls/xv6-riscv/kernel/virtio_disk.c:288-289 | a request the handler has seen owns its three descriptors, linked as posted |
| `Virtio.VirtioDisk.constructor` | G16_Project1_xv6CustomizeSystemCalls/xv6-riscv/kernel/virtio_disk.c:140-146 | all descriptors free, nothing in flight |
| `Virtio.VirtioDisk.AllocDesc` | G16_Project1_xv6CustomizeSystemCalls/xv6-riscv/kernel/virtio_disk.c:155-166 | the first free descriptor; -1 exactly when none is free |
| `Virtio.VirtioDisk.FreeDesc` | G16_Project1_xv6CustomizeSystemCalls/xv6-riscv/kernel/virtio_disk.c:168-182 | the descriptor is in range and not free, so neither panic is reachable; then it is free |
| `Virtio.VirtioDisk.Alloc3Desc` | G16_Project1_xv6CustomizeSystemCalls/xv6-riscv/kernel/virtio_disk.c:199-213 | three different free descriptors, or none taken exactly when fewer than three are free |
| `Virtio.VirtioDisk.Submit` | G16_Project1_xv6CustomizeSystemCalls/xv6-riscv/kernel/virtio_disk.c:215-281 | a chain of three formerly free descriptors is posted for the buffer; nothing changes if fewer than three are free |
| `Virtio.VirtioDisk.Post` | G16_Project1_xv6CustomizeSystemCalls/xv6-riscv/kernel/virtio_disk.c:235-277 | the three descriptors say what was asked for |
| `Virtio.VirtioDisk.FreeChain` | G16_Project1_xv6CustomizeSystemCalls/xv6-riscv/kernel/virtio_disk.c:184-197 | exactly the three descriptors become free |
| `Virtio.VirtioDisk.Finish` | G16_Project1_xv6CustomizeSystemCalls/xv6-riscv/kernel/virtio_disk.c:283-292 | the request is gone and its descriptors are free |
| `Virtio.VirtioDisk.Intr` | G16_Project1_xv6CustomizeSystemCalls/xv6-riscv/kernel/virtio_disk.c:294-327 | clears the disk flag of exactly the buffers whose requests were completed, up to the last used entry; the status panic is unreachable |
| `Virtio.VirtioDisk.DeviceTake` | G16_Project1_xv6CustomizeSystemCalls/xv6-riscv/kernel/virtio_disk.c:271-281 | the device takes posted chains in order, each once, through wraparound |
| `Virtio.VirtioDisk.DeviceComplete` | G16_Project1_xv6CustomizeSystemCalls/xv6-riscv/kernel/virtio_disk.c:238-265 | going by the descriptors alone, the device moves the block of the requested sector between disk and the requesting buffer and nothing else |
| `Locks.LessTotal` | G16_Project_3/src/locks.c:97-105 | strcmp orders any two different paths |
| `Locks.LessTransitive` | G16_Project_3/src/locks.c:97-105 | strcmp's order is transitive |
| `Locks.Registry.GetOrCreate` | G16_Project_3/src/locks.c:16-53 | returns the one entry of the path, added at the end exactly if it was missing and there is memory; nothing only if it was missing and there is none |
| `Locks.StepKeeps` | G16_Project_3/src/locks.c:16-148 | every step of every thread, failures among them, keeps one lock per path and locks held exactly by those who acquired them |
| `Locks.RunInv` | G16_Project_3/src/locks.c:16-148 | the invariant holds in every state of every run |
| `Locks.WaitsUpward` | G16_Project_3/src/locks.c:97-116 | a thread that waits for a lock holds only strictly smaller ones |
| `Locks.NoDeadlock` | G16_Project_3/src/locks.c:79-127 | whenever some thread is in an operation, some thread in one can go on, whether readers pass waiting writers or wait behind them |
| `Locks.Exclusion` | G16_Project_3/src/locks.c:55-77 | a writer's lock is held by no one else |
| `Locks.NothingLeft` | G16_Project_3/src/locks.c:129-148 | after an operation nothing it acquired is still held, also when both paths are equal or the second acquisition failed |
| `Locks.HoldsWhatItNeeds` | G16_Project_3/src/locks.c:79-127 | in every state of every run a thread that uses its files holds the lock of its path, for reading if it reads and for writing if it writes, and both locks for writing if it named two paths, equal or not, in either order |
| `Locks.NoConflict` | G16_Project_3/src/locks.c:79-127 | in every state of every run two threads that use a common file both only read it |
| `Locks.GoesOn` | G16_Project_3/src/locks.c:16-148 | an operation whose calls succeed looks its paths up, takes at most two locks, uses its files and gives back exactly what it holds, one lock a step |
| `Rle.PairsExpand` | G16_Project_3/src/file_ops.c:501-510 | expanding the greedy pairs gives the input |
| `Rle.ExpandAt` | G16_Project_3/src/file_ops.c:546-552 | byte by byte what a stream stands for: after the bytes of the pairs before it, each pair gives its value as often as its count says, and all counts together are the length |
| `Rle.Shortest` | G16_Project_3/src/file_ops.c:484-515 | every stream of pairs is at least as long as the greedy encoding of what it stands for |
| `Rle.RoundTrip` | G16_Project_3/src/file_ops.c:484-557 | decompressing the compressed bytes returns the input, for every input up to MAX_FILE_SIZE |
| `Rle.SizeBound` | G16_Project_3/src/file_ops.c:484-515 | the output is at most 2n+4 bytes |
| `Rle.Optimal` | G16_Project_3/src/file_ops.c:517-557 | no accepted stream that decodes to the same bytes is shorter |
| `Rle.RunLength` | G16_Project_3/src/file_ops.c:502-506 | the inner loop finds the longest run up to 255 |
| `Rle.Compress` | G16_Project_3/src/file_ops.c:484-515 | computes the encoding whose properties are proved here, in a buffer it never overruns |
| `Rle.SumCounts` | G16_Project_3/src/file_ops.c:526-533 | gives up exactly when the total exceeds the limit |
| `Rle.Fill` | G16_Project_3/src/file_ops.c:546-552 | writes exactly the total found first |
| `Rle.Decompress` | G16_Project_3/src/file_ops.c:517-557 | EINVAL for a stream that does not begin with RLE1, then EFBIG if the counts exceed MAX_FILE_SIZE, then EINVAL for an odd length, then ENOMEM, and otherwise the bytes the pairs stand for |
| `Pipe.Pipe.constructor` | G16_Project1_xv6CustomizeSystemCalls/xv6-riscv/kernel/pipe.c:31-37 | an open, empty pipe |
| `Pipe.Pipe.Write` | G16_Project1_xv6CustomizeSystemCalls/xv6-riscv/kernel/pipe.c:76-103 | accepts exactly the bytes up to the first of: n, the byte a copy fails at, the reader's absence or the kill, PIPESIZE bytes pending, whatever the counters have wrapped to; sleeps exactly when the pipe fills first, fails exactly when the reader is gone or the process is killed before a byte it has room for, and the bytes before that byte stay accepted; wakes the readers on returning and on sleeping, and no one on failing |
| `Pipe.Pipe.Put` | G16_Project1_xv6CustomizeSystemCalls/xv6-riscv/kernel/pipe.c:95-96 | one byte at the end of the queue |
| `Pipe.Pipe.Read` | G16_Project1_xv6CustomizeSystemCalls/xv6-riscv/kernel/pipe.c:105-134 | delivers the oldest pending bytes in order, as many as asked for, as are pending and as can be copied; no bytes for n > 0 only from an empty pipe whose write end is closed; sleeps exactly before an empty pipe that is open, unless killed; fails exactly when killed there or when the first byte cannot be copied; wakes the writers whenever it gets to the copying |
| `Pipe.Pipe.Peek` | G16_Project1_xv6CustomizeSystemCalls/xv6-riscv/kernel/pipe.c:123 | the byte read is the oldest pending one |
| `Pipe.Pipe.Pop` | G16_Project1_xv6CustomizeSystemCalls/xv6-riscv/kernel/pipe.c:129 | what has been delivered stays a prefix of what was accepted |
| `Pipe.Pipe.Close` | G16_Project1_xv6CustomizeSystemCalls/xv6-riscv/kernel/pipe.c:58-74 | freed exactly when both ends are closed, and then no process sleeps on the pipe; wakes the other side |
| `Pipe.ForgottenReader` | G16_Project1_xv6CustomizeSystemCalls/xv6-riscv/kernel/pipe.c:84-87 | a run: a reader sleeps, a writer is killed after its first byte and returns -1, and the reader sleeps on before that byte |
| `PipeSleep.LostExactly` | G16_Project1_xv6CustomizeSystemCalls/xv6-riscv/kernel/pipe.c:76-134 | a step leaves a reader asleep before bytes that was not exactly when a writer gives up after its first byte while a reader sleeps |
| `PipeSleep.Sleepers` | G16_Project1_xv6CustomizeSystemCalls/xv6-riscv/kernel/pipe.c:58-134 | in every state of every run a sleeping writer has a full pipe before it that is open for reading, a sleeping reader one that is open for writing, readers and writers never sleep at the same time, and no one sleeps on a pipe that is freed |
| `PipeSleep.ForgottenExactly` | G16_Project1_xv6CustomizeSystemCalls/xv6-riscv/kernel/pipe.c:76-134 | in every state of every run a reader sleeps before bytes exactly when some earlier step forgot one, and ever since some reader has slept so |
| `PipeSleep.NoLostWakeup` | G16_Project1_xv6CustomizeSystemCalls/xv6-riscv/kernel/pipe.c:76-134 | unless a writer gave up after its first byte while a reader slept, whenever the lock is free a sleeping reader has an empty, open pipe before it and a sleeping writer a full, open one |
| `Pipe.FullWhen` | G16_Project1_xv6CustomizeSystemCalls/xv6-riscv/kernel/pipe.c:88 | the 32-bit comparison says full exactly when PIPESIZE bytes are pending |
| `Pipe.EmptyWhen` | G16_Project1_xv6CustomizeSystemCalls/xv6-riscv/kernel/pipe.c:113 | the 32-bit comparison says empty exactly when nothing is pending |
| `Pipe.NextCount` | G16_Project1_xv6CustomizeSystemCalls/xv6-riscv/kernel/pipe.c:95-96 | the ring place of a count is the same after it wraps |
| `RingBuffer.PushRing` | G16_Project1_xv6CustomizeSystemCalls/xv6-riscv/kernel/pipe.c:95-96 | storing at the end of a queue in a ring overwrites nothing of the queue |
| `RingBuffer.WrapAt` | G16_Project1_xv6CustomizeSystemCalls/xv6-riscv/kernel/pipe.c:95-96 | when the ring's size divides the counters' modulus, wrapping moves no place |
| `Grep.HereOne` | G16_Project1_xv6CustomizeSystemCalls/xv6-riscv/user/grep.c:93-95 | one step of matchhere is one item of the language |
| `Grep.HereStar` | G16_Project1_xv6CustomizeSystemCalls/xv6-riscv/user/grep.c:89-90 | a starred character matches when the rest matches after some number of it |
| `Grep.MatchHere` | G16_Project1_xv6CustomizeSystemCalls/xv6-riscv/user/grep.c:84-96 | true exactly when a prefix of the text (all of it with a final $) is in the language of the pattern |
| `Grep.MatchStar` | G16_Project1_xv6CustomizeSystemCalls/xv6-riscv/user/grep.c:98-106 | true exactly when the rest matches after some number of the starred character |
| `Grep.Match` | G16_Project1_xv6CustomizeSystemCalls/xv6-riscv/user/grep.c:72-82 | true exactly when some part of the text, or a prefix if the pattern starts with ^, is in the language |

## Left out

- LogTheorems.LogSpace: claims room for new blocks only; that a block already listed always finds room is false, as the witness run shows.
- FileSystem.FileSystem.Writei: a copy fails before its first byte; one that fails later leaves those bytes in the cached block without logging it.
- FileSystem.FileSystem.Readi: files have no holes, so readi never meets one.
- File.OpenFile.Write: regular files only; pipes, devices and reference counts of open files are left out.
- Journal.Journal.Write: one file-system call per operation, run whole while operations of other processes may be open; steps of calls on different inodes interleave in `Writers` and `LoggedWriters`.
- Journal.Journal.FileWrite: what happens between its begin_op calls and after one that sleeps are further calls.
- LoggedWriters.InterleavedCrash: for operations that make one call of writei, of at most filewrite's chunk, whose copies fail before their first byte; itrunc, inode allocation and directory updates do not interleave with them, and readers, who change nothing, are left out.
- LoggedWriters.OnlyFullLogStops: waiting for inode and buffer locks is a step that comes later; deadlock between them is not modelled.
- Journal.Journal.Truncate: a file whose bits lie in more free-map blocks logs more than begin_op reserved, and nothing is stated of it; mkfs makes no disk with such files.
- ProcMem.Processes.Fork: open files, names and the process table beyond the number of its entries are left out.
- ProcMem.Processes.Growproc: after shrinking over an attached segment the invariant of all processes no longer holds, so nothing is stated of calls that come after; sizes are below TRAPFRAME, so only the wrap of a negative sum can occur and is modelled.
- ProcMem.Processes.Shmget: the page addresses that a failed shmget leaves in an unused slot, which nothing reads, are not kept.
- ProcMem.Processes.ProcFreepagetable: for a process that has detached, as freeproc has seen to; exec, which may call it attached, is left out, and Spaces.FreewalkLeaf says when freewalk would then panic.
- SleepTheorems.PidsUnique: pids are unbounded; wrap-around of nextpid after 2^31 processes is not modelled.
- SleepTheorems.NoLostWakeup: scheduling fairness is not modelled, so nothing is said of how long a wakeup takes.
- SleepResults.WaitReturns: kwaitpid's -1 for a target of 0 or less, which takes no lock and no step, is left out.
- MutexResults.OneHolder: a process that exits keeps the mutexes it holds, as in the code, which has no call to take them away.
- Bio.BufferCache.Bget: uniqueness and contents are stated for nonzero devices, since all buffers start as block 0 of device 0.
- Virtio.VirtioDisk.Submit: retries after sleeping for descriptors are further calls; MMIO registers and memory barriers are left out.
- Pipe.Pipe.Write: a kill is given by the byte before which it is seen; that sleep gives up the pipe's lock only once the process counts as asleep is taken from SleepTheorems, where it is shown for wait_lock.
- Grep.Match: text is given line by line; the buffering in grep() is left out.
- Umalloc.Allocator.Malloc: addresses and sizes count 16-byte headers and are unbounded, so requests must be small enough for sbrk's int argument.
- copyinstr, uvmclear and the kernel's own page table.
- Directories, path names, inode allocation and link counts (dirlookup, dirlink, namex, ialloc, iput).
- exec and ELF loading.
- Message queues, freeze, thaw, signals and process queries.
- Boot, traps, UART, PLIC, device initialisation and the console.
- The file server's sockets, RESP parsing, logging and path helpers.
- The shell and the other user programs.
