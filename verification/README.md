# ALOS kernel: storage, synchronisation, scheduling

A Dafny model of the parts of the ALOS kernel whose correctness spans many functions: the ext2
driver, the blocking primitives and the worker pool, the thread scheduler, and three small cores
(line drawing, calendar time, network configuration text).

- **Ext2** (`Ext2*.dfy`). The device is a sequence of byte blocks. A `Volume` object holds the
  mounted file system; its allocators, block map, reader, writer and directory routines change it in
  place. Bitmaps, block pointers and directory records are real bytes. A ghost map names the one
  pointer each block hangs from, so that no two files can share a block; on top of it pointer trees
  refine byte sequences and directory bytes refine a name-to-inode map.
- **Synchronisation** (`Sync*.dfy`, `WorkPool.dfy`). Each critical section is one step of a
  transition system in which a thread is outside, asleep in a queue, woken but not yet retried, or a
  holder. The properties hold over every run, barging included. The classes perform the same steps
  in place.
- **Scheduler** (`ThreadLists.dfy`, `RunQueues.dfy`, `SchedSpec.dfy`, `SchedLaws.dfy`, `Scheduler.dfy`).
  The intrusive lists are linked thread objects. `SchedSpec` is the transition system over sequences of
  thread numbers and `SchedLaws` says what each of its operations does; `Scheduler` owns the five linked run queues, the linked sleep queue, which uses the same
  link field, and the wait queues, and performs every operation on them. Its invariant ties each
  linked list and each thread's fields to the state of the transition system.
- **Arithmetic and text** (`Bresenham.dfy`, `Calendar.dfy`, `NetConfig.dfy`).

`dafny verify dfyconfig.toml` checks everything.

Where the code departs from what its comments or callers expect, the model keeps the code, shows a
case that goes wrong and gives the condition under which it goes right:

- the ext2 reader follows a missing indirect pointer into block 0 (`ReaderAgrees`,
  `Ext2Sample.HoleReadsBootBlock`);
- freeing a padding bit of the last group breaks the counters (`FreeUnit`, `PaddingFreed`);
- growing a directory leaks a block, and with too few free blocks reports success and leaves a
  directory that is no longer tiled (`GrowDir`, `TornDirectory`, `GrowthWithoutBlocks`);
- merging directory records stores a 16-bit length (`RemoveEntry`, `Relengthed`, `HalvesLost`);
- deleting a file never frees its indirect blocks (`ReleasesAll`, `IndirectBlocksLeak`), and removing a
  directory that has the two links mkdir gives it frees nothing (`LinkDropped`);
- a read whose end wraps past 2^32 is not cut at the end of the file (`ReadBounds`);
- `i_blocks` wraps for files that end in the last block below 4 GiB (`SectorsCover`,
  `SectorsWrap`);
- `sem_post` compares a signed count as unsigned (`BoundedIff`, `NegativeIsStuck`);
- the recursion counter of a mutex wraps (`SyncMutex.StepKeepsIff`, `CounterWraps`), a normal mutex
  locked twice by its owner stays locked for ever (`SelfDeadlock`), and a condition wait frees only a mutex held once
  (`HeldThroughWait`, `HeldTwice`);
- the counters of a read-write lock overflow (`SyncRwLock.StepKeepsIff`, `ReadersOverflow`), and
  `rwlock_rdunlock` and `rwlock_upgrade` do not check that the caller is a reader (`RdUnlockIff`,
  `ForeignUnlockLetsWriterIn`, `UpgradeIff`, `ForeignUpgrade`);
- `sync.c` leaves the tail of a wait queue stale (`EnqueueByWalk`), and `scheduler_enqueue` puts a
  thread at the head of its queue although its comment says the end (`Push`);
- time asleep counts towards the aging of a thread (`BoostedOnWaking`);
- sleeping past the 64-bit tick counter wakes early (`SleepsUntil`, `WakesAtOnce`), and dates past
  2106 wrap (`RoundTrip`, `WrapsIn2106`).

## Model

| member | source | states |
|---|---|---|
| `Ext2Bytes.FindFirstZeroBit` | src/fs/ext2.c:251-268 | returns the first clear bit below the limit: every earlier bit is set, and -1 only when all are |
| `Ext2Bytes.CountClearFlip` | src/fs/ext2.c:273-284 | setting or clearing one bit changes the number of clear bits in a range by exactly one if the bit is in the range, and not at all otherwise |
| `Ext2Bytes.BitIsDigit` | src/fs/ext2.c:259-262 | bit k of a bitmap byte is its binary digit of weight 2^k |
| `Ext2Bytes.WithAdds` | src/fs/ext2.c:273-276 | setting a clear bit adds its weight to the byte |
| `Ext2Volume.Geometry.Locate` | src/fs/ext2.c:397-420 | the division and remainder of the free routines invert the numbering of the alloc routines, including the unsigned wrap-around of block 0, and fall in range exactly for the units the bitmaps account for |
| `Ext2Volume.Fs.SwitchedCounted` | src/fs/ext2.c:349-384 | after a bit and both counters change, group counts equal the clear bits and superblock counts are their sums if and only if the bit is one the counters count; a padding bit of the last group breaks it |
| `Ext2Volume.Fs.SwitchedSound` | src/fs/ext2.c:349-384 | one allocation or release keeps the whole allocator invariant, changes the set of units in use by exactly that unit and no block outside the metadata |
| `Ext2Volume.Fs.SwitchBack` | src/fs/ext2.c:367-375 | setting a bit and clearing it again restores bitmap, descriptors and superblock counters exactly (the roll-back of a failed descriptor write) |
| `Ext2Volume.Volume.Commit` | src/fs/ext2.c:349-388 | a failed bitmap or descriptor write leaves bitmap, counters and marks as they were; otherwise the unit is taken |
| `Ext2Volume.Volume.AllocUnit` | src/fs/ext2.c:305-389 | returns the lowest-numbered free unit, fails without faults exactly when none is free, and changes nothing when it fails |
| `Ext2Volume.Volume.FreeUnit` | src/fs/ext2.c:397-446 | succeeds exactly if the bit of the unit is set and neither the read nor the bitmap write fails; releases exactly that unit; a refused call changes nothing; the accounting survives if and only if the bit is not a padding bit of its group |
| `Ext2Volume.Geometry.RangeIff` | src/fs/ext2.c:305-365 | inodes count from 1 to groups times inodes per group, and blocks from the first data block, as many as the device has, so that with a first data block of 1 the last number is off the device |
| `Ext2Volume.Fs.MarkedOnDisk` | src/fs/ext2.c:349-420 | bit i of the block bitmap of group g, low bits first, stands for block first_data_block + g * blocks_per_group + i, and bit i of its inode bitmap for inode 1 + g * inodes_per_group + i |
| `Ext2Volume.Fs.FreeUnits` | src/fs/ext2.c:378-384 | the superblock counters are the numbers of blocks and of inodes in range that are not in use |
| `Ext2Tree.LinkTop` | src/fs/ext2.c:704-743 | hanging a fresh zeroed block from the inode changes that one pointer of that one file and keeps all blocks of all files pairwise distinct |
| `Ext2Tree.LinkEntry` | src/fs/ext2.c:751-763 | hanging a fresh zeroed block from an entry of a pointer block changes that one pointer of that one file and keeps all blocks of all files pairwise distinct |
| `Ext2Tree.SlotOfInjective` | src/fs/ext2.c:698-843 | different logical block numbers use different pointer slots |
| `Ext2Tree.Layout` | src/fs/ext2.c:698-843 | the block map by position: direct, single-indirect and double-indirect entries in order, row by row, and nothing beyond |
| `Ext2Tree.EntryBytes` | src/fs/ext2.c:746-751 | a pointer is four bytes of its block, the low one first |
| `Ext2Files.GetSingle` | src/fs/ext2.c:721-764 | the single-indirect walk with lazy allocation of the pointer block and of the data block |
| `Ext2Files.GetDouble` | src/fs/ext2.c:765-839 | the double-indirect walk with lazy allocation at three levels |
| `Ext2Files.GetBlock` | src/fs/ext2.c:698-843 | the number at the place of the logical index: direct pointer i, word i of the block under pointer 12 for 12 + i, word j of the block that word i of the block under pointer 13 names for 12 + p + i*p + j, and none beyond; allocation succeeds exactly when the volume has as many free blocks as the path lacks, takes no more, hands out zeroed blocks nobody owned, leaves every other pointer of every file as it was, and keeps every block with one owner and marked used |
| `Ext2Data.WriteChunk` | src/fs/ext2.c:870-912 | one round of the write loop changes exactly the chunk of exactly that logical block of that file |
| `Ext2Data.ByteInBlock` | src/fs/ext2.c:870-912 | byte idx * block size + at of a file is byte at of the block its logical block idx is mapped to |
| `Ext2Io.WriteInodeData` | src/fs/ext2.c:857-931 | the written prefix, the size max(old, offset + written), the 32-bit sector count and the 32-bit return value; every other file is untouched; the write completes if and only if the range is within the largest file and the volume has as many free blocks as null pointers lie on the way to the range |
| `Ext2Io.ReadInodeData` | src/fs/ext2.c:594-682 | delivers the bytes up to the end of the file, each from the block its position names through direct, single- and double-indirect words, or -1 exactly when a pointer leaves the device |
| `Ext2Io.ReadAfterWrite` | src/fs/ext2.c:594-931 | reading back the range a write copied gives exactly the bytes written, across direct, single- and double-indirect blocks |
| `Ext2Io.OtherBytesKept` | src/fs/ext2.c:594-931 | a write leaves every other byte of every file as the reader delivers it, holes included, unless a pointer block on the way to the byte is missing |
| `Ext2Io.ReaderAgrees` | src/fs/ext2.c:612-649 | the reader finds the block the block map names if and only if the pointer chain is present or block 0 reads as zero where the missing chain points |
| `Ext2Io.ZeroBootBlockIsSafe` | src/fs/ext2.c:617-648 | with an all-zero block 0 every hole reads as a hole |
| `Ext2Io.WriteThenRead` | src/fs/ext2.c:594-931 | the two calls in sequence: a write that returns r >= 0 is read back as the first r bytes of the buffer |
| `Ext2Io.LackingNext` | src/fs/ext2.c:698-905 | one more logical block costs exactly the pointers still missing on its path, pointer blocks shared with earlier blocks counted once |
| `Ext2Io.SectorsCover` | src/fs/ext2.c:919-921 | i_blocks covers the file if and only if the size rounded up to blocks does not pass 4 GiB |
| `Ext2Io.ReaderSees` | src/fs/ext2.c:594-660 | where the pointer blocks on the way are present, reader and block map deliver the same byte, holes included |
| `Ext2Io.SectorsWrap` | src/fs/ext2.c:919-921 | a file of one byte less than 4 GiB gets no sectors |
| `Ext2Io.ReaderLayout` | src/fs/ext2.c:612-649 | the reader uses the same positions, without stopping at a missing pointer block |
| `Ext2Io.BytesDelivered` | src/fs/ext2.c:602-675 | the bytes the reader delivers come from those positions |
| `Ext2Io.ReadBounds` | src/fs/ext2.c:594-601 | a read delivers the lesser of size and what is left of the file, and stays inside the file if and only if its end does not wrap past 2^32 into it |
| `Ext2Dir.FindDir` | src/fs/ext2.c:1136-1180 | the inode bound to a name in the live entries, or none |
| `Ext2Dir.ReadDir` | src/fs/ext2.c:1083-1133 | the index-th live entry in chain order, or none |
| `Ext2Dir.Inserted` | src/fs/ext2.c:1319-1338 | splitting a record with enough slack keeps the records tiling the directory and inserts exactly one entry at that place |
| `Ext2Dir.Merged` | src/fs/ext2.c:1243-1255 | adding a record length to its predecessor keeps the tiling and drops exactly that entry |
| `Ext2Dir.Cleared` | src/fs/ext2.c:1251-1254 | zeroing the inode number of the first record keeps the tiling and drops exactly that entry |
| `Ext2Dir.Appended` | src/fs/ext2.c:1343-1376 | a new block with one record extends the tiling by exactly that entry |
| `Ext2Dir.AddEntry` | src/fs/ext2.c:1290-1341 | finds room if and only if some record has the slack, and then adds exactly one live entry; the record added can later be merged back |
| `Ext2Dir.RemoveEntry` | src/fs/ext2.c:1205-1277 | fails exactly on names that are empty, too long or not bound to a positive int inode, and otherwise takes out the first entry of that name; the directory stays tiled if and only if the 16-bit length it stores lands on a record boundary of the old directory, and has exactly the other entries if and only if those are what follows there, which they are whenever the true length fits |
| `Ext2Dir.MergeWraps` | src/fs/ext2.c:1248-1250 | in particular a stored length shorter than its own record breaks the chain |
| `Ext2Dir.BindInserted` | src/fs/ext2.c:1290-1386 | one entry with a new name is exactly one more binding of the name-to-inode map |
| `Ext2Dir.BindRemoved` | src/fs/ext2.c:1205-1277 | one entry fewer is exactly one binding fewer |
| `Ext2Dir.HalvesLost` | src/fs/ext2.c:1248-1250 | a directory of two 32 KiB records is lost by removing the second |
| `Ext2Dir.Relengthed` | src/fs/ext2.c:1248-1250 | storing any other length in a record keeps the directory tiled if and only if the length covers the record itself and ends where records tile the rest, and then the entries are those before it, its own and those from there on |
| `Ext2Dir.Extended` | src/fs/ext2.c:1343-1376 | a directory with a tail is tiled if and only if the tail is, and the entries are those of both |
| `Ext2Dir.TornTiles` | src/fs/ext2.c:1367-1376 | of a new block of which only the first bytes were written the rest reads as zeros: it is a record if and only if the length field was written, and the new entry if its name was |
| `Ext2Dir.EntrySize` | src/fs/ext2.c:1190-1194 | the least multiple of four that holds the header and the name |
| `Ext2Dir.RecordBytes` | src/fs/ext2.h:137-143 | a record is the inode number in four bytes, its length in two, the length of the name, the file type and the name, and is read as that entry |
| `Ext2Vfs.FindNode` | src/fs/ext2.c:1136-1180 | lookup through the file layer: the inode the directory binds to the name |
| `Ext2Vfs.ListNode` | src/fs/ext2.c:1083-1133 | enumeration through the file layer: the index-th live entry |
| `Ext2Vfs.RemoveDirEntry` | src/fs/ext2.c:1205-1277 | removal through the file layer: same blocks, same counters, one entry fewer |
| `Ext2Vfs.GrowthDecided` | src/fs/ext2.c:1343-1386 | the write of the grown directory completes if and only if the volume has one block more than the new logical block needs |
| `Ext2Vfs.GrowDir` | src/fs/ext2.c:1343-1386 | one block leaks: it is marked and no file holds it; besides it exactly the blocks the directory gained are newly marked, and no other file changes; success is reported unless an empty directory could not grow; if the volume can grow the directory it gains exactly the entry, and otherwise its bytes are the old ones and the torn new block, tiled if and only if that block is |
| `Ext2Vfs.AddDirEntry` | src/fs/ext2.c:1290-1386 | insertion through the file layer, names cut to 255 bytes: in place when some record has room, refused without change when no block is free, and otherwise by growth with its leak, its result and its outcome |
| `Ext2Vfs.GrewTorn` | src/fs/ext2.c:1343-1386 | for every size: a growth that runs out of blocks leaves the old bytes, the part of the new record that fell into the old last block, and zeros |
| `Ext2Vfs.TornDirectory` | src/fs/ext2.c:1343-1386 | such a directory is tiled if and only if at least six bytes of the new record fell into its old last block, never if it was whole blocks long, and has the new entry if the whole name did |
| `Ext2Vfs.Truncated` | src/fs/ext2.c:1293-1295 | the longest prefix of at most 255 bytes |
| `Ext2Ops.SameMarksSameCounts` | src/fs/ext2.c:305-588 | two sound volumes with the same units in use have the same group and superblock counters |
| `Ext2Ops.Create` | src/fs/ext2.c:1400-1457 | refused exactly if the name exists or no inode is free, and then nothing changes; otherwise the entry is placed in a gap, or the directory grows with the leak, the result and the outcome of GrowDir, or the inode is given back and only the leaked block stays marked |
| `Ext2Ops.IsDirEmpty` | src/fs/ext2.c:1593-1625 | true exactly when every live entry is "." or ".." |
| `Ext2Ops.FreeInodeBlocks` | src/fs/ext2.c:1631-1645 | frees exactly the blocks of the twelve direct pointers, clears them, and keeps every other file |
| `Ext2Ops.ReleaseInode` | src/fs/ext2.c:1702-1715 | the last link gone: the direct blocks and the inode are free, size zero, deletion time set, every other file kept |
| `Ext2Ops.ReleasesAll` | src/fs/ext2.c:1631-1645 | deletion gives back every block of the file if and only if it has no indirect blocks |
| `Ext2Ops.DropLink` | src/fs/ext2.c:1699-1734 | one link fewer, from none to 65535; the inode and the direct blocks are free if and only if it was the only one, and then the parent of a directory loses a link too; every other file is kept |
| `Ext2Ops.NotItself` | src/fs/ext2.c:1674-1686 | an entry that can be unlinked never names the directory it is in |
| `Ext2Ops.Unlink` | src/fs/ext2.c:1651-1744 | succeeds if and only if the name is removable; then exactly one entry goes and the file has one link fewer, with its inode freed if and only if that was the only one; otherwise nothing changes |
| `Ext2Ops.UnlinkedEntries` | src/fs/ext2.c:1651-1744 | after an unlink the directory lists exactly the other entries in their order |
| `Ext2Ops.NothingLost` | src/fs/ext2.c:1400-1744 | over create, write and unlink the units in use, all counters and the entries end as they began |
| `Ext2Ops.CreateWriteUnlink` | src/fs/ext2.c:1400-1744 | the same for the three calls in sequence, for data of at most twelve blocks, also when the write is cut short by a full volume |
| `Ext2Ops.CreatedBinding` | src/fs/ext2.c:1400-1457 | a create changes the name-to-inode map of its directory by exactly the new binding |
| `Ext2Ops.UnlinkedBinding` | src/fs/ext2.c:1651-1744 | an unlink changes it by exactly the binding removed |
| `Ext2Ops.DirectoryMode` | src/fs/ext2.c:985-990 | a file is a directory exactly if the top four bits of its mode are 4 |
| `Ext2Ops.LinkDropped` | src/fs/ext2.c:1699-1734 | the link count goes down by one, or from 0 to 65535, and the inode and the direct blocks are freed if and only if it was 1 |
| `Ext2Ops.NewInode` | src/fs/ext2.c:1413-1444 | takes a free inode, or fails exactly if there is none, and writes an empty regular file with mode 0644 and one link in it |
| `Ext2Sample.Formatted` | src/fs/ext2.c:1750-1845 | the invariants are met: a small formatted volume with a one-block root directory is sound and meets what creation, writing and deletion require |
| `Ext2Sample.HoleReadsBootBlock` | src/fs/ext2.c:617-629 | on a valid volume a hole behind a missing pointer block reads as the block that block 0 names |
| `Ext2Sample.PaddingFreed` | src/fs/ext2.c:397-446 | on a valid volume a block number behind the end of the device can be freed, and the counters no longer match the bitmap |
| `Ext2Sample.GrowthWithoutBlocks` | src/fs/ext2.c:1343-1386 | on a valid volume with one free block every growth of the full one-block root directory reports success and leaves a directory that is not tiled |
| `Ext2Sample.IndirectBlocksLeak` | src/fs/ext2.c:1631-1645 | on a valid volume the deletion of a thirteen-block file frees its inode and leaves its pointer block and its last block marked |
| `SyncBase.Line.FirstInFirstOut` | src/kernel/sync.c:142-151 | the thread woken n-th is the thread that went to sleep n-th |
| `SyncBase.Line.WakeAllOrdered` | src/kernel/sync.c:640-664 | waking all empties the queue, forgets nobody and keeps the order |
| `SyncSemaphore.StepKeeps` | src/kernel/sync.c:290-453 | every step keeps: while threads sleep, the count is at most the number of woken threads about to retry |
| `SyncSemaphore.RunKeeps` | src/kernel/sync.c:280-453 | over every run the invariant holds and count = initial + posts - waits in 32-bit arithmetic |
| `SyncSemaphore.RunBounded` | src/kernel/sync.c:280-453 | started within its limit, the count stays within it and the equation is exact |
| `SyncSemaphore.RunUnlimited` | src/kernel/sync.c:280-453 | without a limit the equation is exact as long as initial + posts fits 31 bits |
| `SyncSemaphore.BoundedIff` | src/kernel/sync.c:418-432 | a limited semaphore stays between 0 and its limit in every run if and only if it starts there and the limit fits a signed 32-bit integer |
| `SyncSemaphore.NegativeIsStuck` | src/kernel/sync.c:427-432 | the unsigned comparison refuses every post on a negative count, for ever |
| `SyncSemaphore.Semaphore.Wait` | src/kernel/sync.c:290-336 | with a positive count one token is taken and one wait counted; otherwise the thread joins the end of the queue and no token moves; the invariant is kept |
| `SyncSemaphore.Semaphore.TryWait` | src/kernel/sync.c:338-358 | true exactly if the count is positive, and then one token is taken and one wait counted, past any sleepers; false changes nothing; the invariant is kept |
| `SyncSemaphore.Semaphore.Post` | src/kernel/sync.c:418-453 | -1 without change exactly if the count, read as unsigned, is at the limit; otherwise one more token, wrapping at 2^31, and the longest sleeper woken; the invariant is kept |
| `SyncSemaphore.Semaphore.constructor` | src/kernel/sync.c:280-288 | a new semaphore meets the invariant |
| `SyncSemaphore.Effect` | src/kernel/sync.c:290-453 | a token is taken by exactly the calls that find one, an accepted post adds one and wakes the longest waiter, a wait without a token queues the caller, and any other call changes nothing |
| `SyncSemaphore.RunCounts` | src/kernel/sync.c:280-453 | over every run the count is initial + posts that returned 0 - waits that succeeded, in 32-bit arithmetic |
| `SyncMutex.StepKeepsIff` | src/kernel/sync.c:95-261 | a step keeps the invariant (one owner, counter = unmatched locks, zero iff free, no lost wakeup) if and only if the 32-bit recursion counter does not wrap |
| `SyncMutex.RunKeeps` | src/kernel/sync.c:95-261 | the invariant over every run in which the counter does not wrap |
| `SyncMutex.ShortRunsFit` | src/kernel/sync.c:110-115 | a wrap takes 2^32 - 1 locks |
| `SyncMutex.OneHolder` | src/kernel/sync.c:95-261 | two threads with unmatched locks are the same thread |
| `SyncMutex.OnlyOwnerReleases` | src/kernel/sync.c:210-261 | ownership ends only by the owner undoing its last lock, and that wakes the longest waiter |
| `SyncMutex.OthersStep` | src/kernel/sync.c:95-261 | a step of one thread neither gives nor takes the mutex for another |
| `SyncMutex.RelockNormal` | src/kernel/sync.c:124-134 | a second lock of a normal mutex by its owner puts the owner to sleep |
| `SyncMutex.SelfDeadlock` | src/kernel/sync.c:124-134 | after that no run frees the mutex or wakes the owner |
| `SyncMutex.Mutex.Lock` | src/kernel/sync.c:95-173 | a free mutex is taken with depth one; a held one puts the caller at the end of the queue; the owner gets one level more, a refusal without change or the queue, by kind; the invariant is kept unless the counter wraps |
| `SyncMutex.Mutex.TryLock` | src/kernel/sync.c:175-208 | never sleeps; true exactly on a free mutex or for the owner of a recursive one, who then holds one lock more; false changes nothing; the invariant is kept unless the counter wraps |
| `SyncMutex.Mutex.Unlock` | src/kernel/sync.c:210-261 | 0 exactly for a holder; undoes one lock, and the last one frees the mutex and wakes the longest waiter; the invariant is kept |
| `SyncMutex.Mutex.constructor` | src/kernel/sync.c:47-57 | a new mutex is free, without waiters, and meets the invariant |
| `SyncMutex.CounterWraps` | src/kernel/sync.c:95-173 | a mutex locked once more after 2^32 - 1 locks has an owner and the depth of a free mutex |
| `SyncMutex.LockOutcome` | src/kernel/sync.c:95-208 | a free mutex goes to whoever asks, a held one to nobody but once more to the owner of a recursive mutex |
| `SyncMutex.UnlockOutcome` | src/kernel/sync.c:210-261 | the owner has one lock fewer; the last unlock frees the mutex and wakes the longest waiter |
| `SyncCondVar.RunKeeps` | src/kernel/sync.c:475-664 | over every run a waiter is blocked exactly while it is queued, and its phase agrees with the mutex |
| `SyncCondVar.QueuedBeforeFree` | src/kernel/sync.c:485-504 | in every run, whenever someone else could own the mutex a waiter is queued or already woken |
| `SyncCondVar.ReturnsOwning` | src/kernel/sync.c:510-541 | condvar_wait returns only from its own lock step, woken by a signal and owning the mutex as deeply as at the call |
| `SyncCondVar.LongestFirst` | src/kernel/sync.c:612-638 | whatever happens in between, k signals wake the k longest waiters in order |
| `SyncCondVar.HeldTwice` | src/kernel/sync.c:503-504 | a run in which a waiter that held the mutex twice sleeps and still owns it, and the next thread sleeps on the mutex |
| `SyncCondVar.OneByOne` | src/kernel/sync.c:640-664 | a broadcast is as many signals as there are waiters |
| `SyncCondVar.CondVar.Enter` | src/kernel/sync.c:475-501 | the waiter is blocked at the end of the queue while it still owns the mutex; the invariant is kept |
| `SyncCondVar.CondVar.ReleaseMutex` | src/kernel/sync.c:503-504 | the release inside the wait frees the mutex if and only if it was held once |
| `SyncCondVar.CondVar.Awake` | src/kernel/sync.c:510-532 | the loop test is true exactly for a thread that was dequeued |
| `SyncCondVar.CondVar.Retake` | src/kernel/sync.c:534-535 | the waiter owns the mutex again and has left the wait exactly if the mutex was free or still its own, and otherwise sleeps on it; the invariant is kept |
| `SyncCondVar.CondVar.Signal` | src/kernel/sync.c:612-638 | the longest waiter, if any, becomes ready and no other thread changes; the invariant is kept |
| `SyncCondVar.CondVar.Broadcast` | src/kernel/sync.c:640-664 | every waiter becomes ready in queue order and none stays blocked; the invariant is kept |
| `SyncCondVar.CondVar.constructor` | src/kernel/sync.c:466-473 | a new condition variable has no waiters and meets the invariant |
| `SyncCondVar.HeldThroughWait` | src/kernel/sync.c:503-535 | over every run the mutex is given up during a wait if and only if it was held once when the wait began |
| `SyncCondVar.SignalWakes` | src/kernel/sync.c:612-638 | a signal wakes the longest waiter and nobody else, and is lost without waiters |
| `SyncCondVar.BroadcastWakes` | src/kernel/sync.c:640-664 | a broadcast leaves nobody asleep or blocked |
| `SyncCondVar.RelockOutcome` | src/kernel/sync.c:534-535 | the waiter returns exactly if the mutex is free or was never given up |
| `SyncRwLock.StepKeepsIff` | src/kernel/sync.c:671-974 | a step keeps the invariant (no writer with readers, writer_wait_count = queued plus woken writers, no lost wakeup) if and only if no 32-bit counter overflows |
| `SyncRwLock.RunKeeps` | src/kernel/sync.c:671-974 | the invariant over every run without overflow, for both preferences |
| `SyncRwLock.ShortRunsFit` | src/kernel/sync.c:671-974 | an overflow takes more than 2^31 - 1 calls |
| `SyncRwLock.NeverBoth` | src/kernel/sync.c:671-974 | in every run a writer excludes all readers |
| `SyncRwLock.SomeoneComes` | src/kernel/sync.c:671-974 | in every run, when the lock is free and any thread sleeps, a woken writer is on its way |
| `SyncRwLock.ReadersSleepUnderWriters` | src/kernel/sync.c:696-701 | with reader preference readers sleep only while a writer holds the lock |
| `SyncRwLock.DowngradeKeepsHold` | src/kernel/sync.c:943-974 | a downgrade wakes all readers, lets no writer in between and can be upgraded back |
| `SyncRwLock.RdUnlockIff` | src/kernel/sync.c:825-850 | rwlock_rdunlock keeps the lock consistent if and only if the caller is a reader |
| `SyncRwLock.UpgradeIff` | src/kernel/sync.c:908-941 | rwlock_upgrade keeps the lock consistent if and only if the caller is a reader or there is not exactly one reader |
| `SyncRwLock.RwLock.RdLock` | src/kernel/sync.c:684-729 | true exactly when no writer holds the lock and, with writer preference, none waits; then the caller is one more reader, and otherwise last in the reader queue; the invariant is kept unless the count overflows |
| `SyncRwLock.RwLock.TryRdLock` | src/kernel/sync.c:731-752 | true exactly when no writer holds the lock and, with writer preference, none waits; then the caller is one more reader, and otherwise nothing changes; the invariant is kept unless the count overflows |
| `SyncRwLock.RwLock.WrLock` | src/kernel/sync.c:754-798 | true exactly when nobody holds the lock; then the caller is the writer, and otherwise last in the writer queue; a first attempt is announced once; the invariant is kept unless the count overflows |
| `SyncRwLock.RwLock.TryWrLock` | src/kernel/sync.c:800-823 | true exactly when nobody holds the lock, and then the caller is the writer; otherwise nothing changes; the invariant is kept |
| `SyncRwLock.RwLock.RdUnlock` | src/kernel/sync.c:825-850 | one hold of the caller fewer; the last reader out wakes the longest waiting writer, and no other does; the invariant is kept |
| `SyncRwLock.RwLock.WrUnlock` | src/kernel/sync.c:852-906 | by the writer only, and then the lock is free: with writer preference and a writer queued the longest waiting one is woken and the reader queue is untouched; otherwise every reader is woken, and the longest waiting writer; the invariant is kept |
| `SyncRwLock.RwLock.Upgrade` | src/kernel/sync.c:908-941 | true exactly for the sole reader, who becomes the writer; otherwise nothing changes; the invariant is kept |
| `SyncRwLock.RwLock.Downgrade` | src/kernel/sync.c:943-974 | by the writer only; it becomes the one reader, all waiting readers are woken and no writer is; the invariant is kept |
| `SyncRwLock.RwLock.constructor` | src/kernel/sync.c:671-682 | a new lock is free, without waiters, and meets the invariant |
| `SyncRwLock.ReadersOverflow` | src/kernel/sync.c:684-729 | one reader more than 2^31 - 1 makes the count negative |
| `SyncRwLock.ForeignUnlockLetsWriterIn` | src/kernel/sync.c:825-850 | an unlock by a thread that does not read lets a writer in beside a reader |
| `SyncRwLock.ForeignUpgrade` | src/kernel/sync.c:908-941 | an upgrade by a thread that does not read makes it a writer beside the reader |
| `SyncRwLock.ReadOutcome` | src/kernel/sync.c:684-752 | a reader gets in if and only if no writer holds the lock and, with writer preference, none is queued or woken; otherwise it is queued or turned away |
| `SyncRwLock.WriteOutcome` | src/kernel/sync.c:754-823 | a writer gets in if and only if nobody holds the lock; otherwise it is queued or turned away |
| `SyncRwLock.ReadersLeave` | src/kernel/sync.c:825-850 | a leaving reader takes one hold with it, and the last one wakes the longest waiting writer |
| `SyncRwLock.WriterLeaves` | src/kernel/sync.c:852-906 | a write unlock by the holder frees the lock and wakes by preference; by anyone else it changes nothing |
| `SyncRwLock.UpgradeOutcome` | src/kernel/sync.c:908-941 | an upgrade turns the only hold into a write hold and otherwise changes nothing |
| `SyncRwLock.WriterStepsDown` | src/kernel/sync.c:943-974 | a downgrade turns the write hold into a read hold and wakes every reader but no writer |
| `WorkPool.TokensIff` | src/kernel/workqueue.c:24-61 | a step keeps the token balance if and only if the 32-bit token count does not overflow; the balance: before shutdown queue length = unposted + tokens + token holders; after it tokens and posts to come cover the workers that can still enter sem_wait |
| `WorkPool.ItemsKept` | src/kernel/workqueue.c:155-194 | items leave in submission order, and a fetched item is run by one worker or has been run once |
| `WorkPool.RunKeeps` | src/kernel/workqueue.c:24-278 | both invariants over every run without overflow |
| `WorkPool.ShortRunsFit` | src/kernel/workqueue.c:192-211 | an overflow takes 2^31 - 1 posts |
| `WorkPool.TokenFindsItem` | src/kernel/workqueue.c:43-50 | in every run a worker past both tests finds an item, the one submitted longest ago |
| `WorkPool.OnceOrFreed` | src/kernel/workqueue.c:258-278 | after a destroy every submitted item was run exactly once or freed unrun, never both |
| `WorkPool.NobodyAsleep` | src/kernel/workqueue.c:204-211 | with shutdown set and its posts made, the semaphore queue is empty |
| `WorkPool.NobodyAsleepEver` | src/kernel/workqueue.c:204-211 | the same in every reachable state |
| `WorkPool.WorkerAdvances` | src/kernel/workqueue.c:31-61 | from then on every worker can step and each step brings it closer to its exit |
| `WorkPool.WorkersFinish` | src/kernel/workqueue.c:31-61 | whatever else happens the workers take a bounded number of steps, and when none can step all have exited |
| `WorkPool.Pool.Append` | src/kernel/workqueue.c:177-188 | the item joins the end of the queue and its post is owed; both invariants are kept |
| `WorkPool.Pool.Announce` | src/kernel/workqueue.c:190-191 | the post owed becomes one token more and wakes the longest sleeping worker; both invariants are kept unless the token count overflows |
| `WorkPool.Pool.TakeToken` | src/kernel/workqueue.c:32-33 | true exactly when a token was there; the worker holds it or sleeps; both invariants are kept |
| `WorkPool.Pool.Resume` | src/kernel/workqueue.c:35-38 | true exactly before shutdown; otherwise the worker exits with its token; both invariants are kept |
| `WorkPool.Pool.Dequeue` | src/kernel/workqueue.c:40-52 | delivers the oldest submission not yet fetched |
| `WorkPool.Pool.BeginShutdown` | src/kernel/workqueue.c:204-206 | the flag is set with one post owed per worker; both invariants are kept |
| `WorkPool.Pool.WakeOne` | src/kernel/workqueue.c:208-211 | one post of the shutdown loop; both invariants are kept unless the token count overflows |
| `WorkPool.Pool.Dispose` | src/kernel/workqueue.c:258-278 | frees exactly the items left in the queue |
| `WorkPool.Pool.CheckOpen` | src/kernel/workqueue.c:161-164 | true exactly before shutdown, and then the submission may enqueue |
| `WorkPool.Pool.Continue` | src/kernel/workqueue.c:31 | true exactly before shutdown; otherwise the worker exits; both invariants are kept |
| `WorkPool.Pool.Done` | src/kernel/workqueue.c:54-60 | the fetched item is run, once; both invariants are kept |
| `WorkPool.Pool.constructor` | src/kernel/workqueue.c:78-153 | a new pool has an empty queue, no tokens, all workers at their loop test, and meets both invariants |
| `WorkPool.NobodyLeaves` | src/kernel/workqueue.c:31-38 | in every run no worker leaves its loop before shutdown |
| `WorkPool.WorkGoesOn` | src/kernel/workqueue.c:24-61 | in every run, while an item is queued, nobody is about to post and the pool is open, some worker has a step to take |
| `WorkPool.ClosedForGood` | src/kernel/workqueue.c:161-206 | from shutdown on, whatever happens, only the submitters already past the test still submit, each once |
| `ThreadLists.RunQueue.Push` | src/kernel/thread.c:1415-1422 | the list stays well linked both ways with the thread at its head |
| `ThreadLists.RunQueue.Unlink` | src/kernel/thread.c:1443-1455 | the list stays well linked both ways without the thread, the others in their order |
| `ThreadLists.RunQueue.Pop` | src/kernel/thread.c:1467-1479 | takes the head and leaves the rest well linked |
| `ThreadLists.SleepQueue.Insert` | src/kernel/thread.c:888-899 | the list stays linked and sorted, the thread behind everyone who wakes no later |
| `ThreadLists.SleepQueue.PopDue` | src/kernel/thread.c:1388-1392 | takes the first thread if it is due; null only when nobody is |
| `ThreadLists.WaitQueue.Enqueue` | src/kernel/thread.c:101-114 | appends, with head and tail current |
| `ThreadLists.WaitQueue.EnqueueByWalk` | src/kernel/sync.c:142-151 | appends to the chain read from the head and leaves a non-null tail as it was, stale |
| `ThreadLists.WaitQueue.Dequeue` | src/kernel/thread.c:116-130 | takes the head of the chain |
| `ThreadLists.WaitQueue.Remove` | src/kernel/thread.c:133-171 | removes the thread exactly when it is queued, the others in their order, head and tail current |
| `RunQueues.RunQueues.Enqueue` | src/kernel/thread.c:1402-1429 | over five linked lists: the thread heads the list of its priority, the others are untouched, and all stay well linked, disjoint and of one priority each |
| `RunQueues.RunQueues.Dequeue` | src/kernel/thread.c:1431-1459 | the thread leaves the list of its priority, everything else in place and well linked |
| `RunQueues.RunQueues.PickNext` | src/kernel/thread.c:1461-1487 | takes the head of the highest non-empty list, null exactly when all are empty, and leaves every list well linked |
| `SchedSpec.ScheduleKeeps` | src/kernel/thread.c:1495-1543 | rescheduling restores the invariant and runs the head of the highest non-empty run queue, or the idle thread when all are empty; sleepers and blocked threads stay |
| `SchedSpec.SwitchKeeps` | src/kernel/thread.c:1522-1543 | a switch moves at most the old thread, to the head of the queue of its (demoted) priority |
| `SchedSpec.TakeOverKeeps` | src/kernel/thread.c:1252-1323 | preemption takes the first kernel thread of the highest queue that has one; user threads keep their queues and order |
| `SchedSpec.SlotForIs` | src/kernel/thread.c:888-899 | the insertion point is behind everyone who wakes no later and before everyone who wakes later |
| `SchedSpec.WakeDueKeeps` | src/kernel/thread.c:1382-1400 | exactly the threads with wake_tick <= now move to the run queue of their priority |
| `SchedSpec.AgeKeeps` | src/kernel/thread.c:1100-1138 | aging one queue changes exactly starved threads: each gets UI priority, is marked boosted with a fresh wait start and ends in the UI queue; nobody left in the queue is starved |
| `SchedSpec.TickKeeps` | src/kernel/thread.c:1068-1141 | after a tick no un-boosted thread below UI has waited 100 ticks |
| `SchedSpec.StepKeeps` | src/kernel/thread.c:875-1601 | yield, sleep, block, wake, tick and preempt all keep the invariant |
| `SchedSpec.RunKeeps` | src/kernel/thread.c:875-1601 | the same over every run |
| `SchedSpec.Partition` | src/kernel/thread.c:1068-1601 | over every run no thread is lost or added, and each is running, or in exactly one list and there once, or is the parked idle thread; run queue index = priority |
| `SchedSpec.NobodyWakesEarly` | src/kernel/thread.c:1382-1400 | over every run a sleeper stays asleep until an event processes its tick |
| `SchedSpec.NobodyOversleeps` | src/kernel/thread.c:1382-1400 | the first event that processes its tick makes a sleeper ready or running |
| `SchedSpec.SleepsUntil` | src/kernel/thread.c:875-903 | the caller sleeps until now + ticks if and only if that sum fits the 64-bit counter |
| `SchedSpec.NiceToPriority` | src/kernel/thread.c:774-798 | always a priority the scheduler has a queue for |
| `SchedSpec.WakesAtOnce` | src/kernel/thread.c:875-903 | a sleep of one tick at the last tick of the counter is over at that same tick |
| `SchedLaws.NiceLevels` | src/kernel/thread.c:774-798 | the priority never rises with the nice value, and its five levels change at -9, -4, 5 and 15 |
| `SchedLaws.SliceLevels` | src/kernel/thread.c:800-822 | time slices of 20, 15, 10, 7 and 5 ticks, shorter for higher priorities |
| `SchedLaws.EnqueueFront` | src/kernel/thread.c:1402-1429 | a thread made ready goes to the head of the run queue of its priority and no other list changes |
| `SchedLaws.WakesLongestWaiter` | src/kernel/thread.c:251-268 | waking one makes the longest waiter ready, at the head of its run queue, and only that one |
| `SchedLaws.WakesAllWaiters` | src/kernel/thread.c:270-286 | waking all makes exactly the threads of that wait queue ready, each at its own priority |
| `SchedLaws.ScheduleEffect` | src/kernel/thread.c:1495-1543 | the thread that gives up the processor loses its boost, returns to the priority of its nice value and, if runnable, starts to wait now at the head of its queue; no other thread changes |
| `SchedLaws.BlocksLast` | src/kernel/thread.c:202-215 | a blocked thread is last in its wait queue and another one runs |
| `SchedLaws.StarvedAfter100` | src/kernel/thread.c:1107-1108 | a thread is due for a boost after a hundred ticks of waiting without one |
| `SchedLaws.TickBoosts` | src/kernel/thread.c:1068-1141 | a tick boosts exactly the threads in a run queue below the UI queue, those just woken included, that have waited long enough, to the UI queue, and changes no other thread |
| `SchedLaws.BoostFront` | src/kernel/thread.c:1110-1133 | a boosted thread leaves its queue, the others in their order, and heads the UI queue |
| `SchedLaws.SliceRuns` | src/kernel/thread.c:1086-1089 | the slice of the running thread loses a tick, down to zero, and that of the idle thread does not run |
| `SchedLaws.BoostedOnWaking` | src/kernel/thread.c:1078-1134 | time asleep counts as waiting: a thread that last began to wait a hundred ticks ago is boosted by the tick that wakes it |
| `SchedLaws.KernelNext` | src/kernel/thread.c:1254-1266 | the first kernel thread of the highest run queue that has one, or none exactly if no run queue has one |
| `SchedLaws.PreemptsIff` | src/kernel/thread.c:1194-1323 | preemption switches if and only if the running thread has preemption enabled, is the idle thread or uses up its slice, and there is such a kernel thread, which then runs with the slice of its priority; from user mode nothing happens |
| `SchedLaws.PreemptStays` | src/kernel/thread.c:1218-1279 | without a switch the slice loses a tick, and one that is used up is refilled to ten unless preemption is disabled |
| `Scheduler.Scheduler.PickNext` | src/kernel/thread.c:1461-1487 | the head of the highest non-empty linked run queue leaves it, or the idle thread is named; lists, links and fields stay those of the transition system |
| `Scheduler.Scheduler.Schedule` | src/kernel/thread.c:1495-1543 | on the linked objects it is the reschedule step: the head of the highest non-empty run queue runs, the old thread is back at the head of its queue if it was still running, and the invariant holds |
| `Scheduler.Scheduler.SleepTicks` | src/kernel/thread.c:875-909 | on the linked objects it is the sleep step: the caller is in the sleep queue behind everyone who wakes no later, and another thread runs; the invariant is kept |
| `Scheduler.Scheduler.Block` | src/kernel/thread.c:202-215 | on the linked objects it is the block step: the caller is at the end of the wait queue and another thread runs; the invariant is kept |
| `Scheduler.Scheduler.WakeSleeping` | src/kernel/thread.c:1382-1400 | on the linked objects it is the wake step: exactly the threads that are due move from the sleep queue to their run queues |
| `Scheduler.Scheduler.WakeOne` | src/kernel/thread.c:251-268 | on the linked objects it is the wake step: the head of the wait queue, if any, becomes ready; the invariant is kept |
| `Scheduler.Scheduler.WakeAll` | src/kernel/thread.c:270-286 | on the linked objects it is the wake-all step: every thread of the wait queue becomes ready in order; the invariant is kept |
| `Scheduler.Scheduler.AgeQueue` | src/kernel/thread.c:1100-1138 | the walk along a linked run queue with the next thread saved, while threads leave the queue under it, is the aging step; every list stays well linked |
| `Scheduler.Scheduler.Tick` | src/kernel/thread.c:1068-1141 | on the linked objects it is the tick step: due sleepers wake, starved threads are boosted; the invariant is kept |
| `Scheduler.Scheduler.FindKernel` | src/kernel/thread.c:1254-1266 | the walk finds the first kernel thread of the highest linked run queue that has one |
| `Scheduler.Scheduler.Preempt` | src/kernel/thread.c:1194-1323 | on the linked objects it is the preemption step; it switches if and only if it comes from kernel mode, the running thread has preemption enabled, is the idle thread or uses up its slice, and some run queue has a kernel thread once the due sleepers are awake; the first one of the highest such queue then runs with the slice of its priority; the invariant is kept |
| `Scheduler.Scheduler.constructor` | src/kernel/thread.c:969-1060 | after initialisation the main thread runs, the idle thread is parked, any other threads given are linked into the run queues of their priorities, and the invariant holds |
| `Scheduler.Scheduler.MakeReady` | src/kernel/thread.c:1402-1429 | on the linked objects: the thread heads the run queue of its priority and is marked ready, no other list changes, and lists, links and fields stay those of the transition system |
| `Scheduler.Scheduler.FallAsleep` | src/kernel/thread.c:886-899 | the thread is linked into the sleep queue behind everyone who wakes no later; the run queues, which use the same link field, stay well linked |
| `Scheduler.Scheduler.TakeDue` | src/kernel/thread.c:1388-1392 | the first sleeper is unlinked exactly if its tick has come; the run queues stay well linked |
| `Scheduler.Scheduler.JoinWait` | src/kernel/thread.c:101-114 | the thread is linked at the end of its wait queue; every other list stays well linked |
| `Scheduler.Scheduler.LeaveWait` | src/kernel/thread.c:116-130 | the head of the wait queue is unlinked; every other list stays well linked |
| `Scheduler.Scheduler.Requeue` | src/kernel/thread.c:1522-1537 | a boosted thread is demoted and, if its state still says it can run, goes to the head of its run queue; a thread that has left for a sleep or wait queue stays there |
| `Scheduler.Scheduler.BoostThread` | src/kernel/thread.c:1108-1134 | the starved thread is unlinked, promoted and linked at the head of the UI queue; every list stays well linked |
| `Scheduler.Scheduler.Perform` | src/kernel/thread.c:875-1601 | every operation on the linked objects is one step of the transition system and keeps the coupling |
| `Scheduler.Scheduler.Run` | src/kernel/thread.c:875-1601 | every run of operations on the linked objects is the run of the transition system, so what is proved of its runs holds of the objects |
| `Scheduler.Scheduler.Everywhere` | src/kernel/thread.c:1068-1601 | each thread object runs, or is linked into exactly one list and there once, or is the parked idle thread; its state field says which, and its run queue is the one of its priority |
| `Scheduler.Scheduler.ListsApart` | src/kernel/thread.c:875-1601 | run queues, sleep queue and wait queues are pairwise disjoint as sets of thread objects, so no link field serves two lists |
| `Scheduler.Scheduler.Admit` | src/kernel/thread.c:642-643 | each new thread joins the run queue of its priority and no other thread moves |
| `Bresenham.DrawLine` | src/gui/render.c:253-279 | max(abs(dx), abs(dy)) + 1 pixels from p1 to p2, one step along the longer axis each time and at most one along the other, all within half a pixel of the ideal line, with halves rounded towards p1 |
| `Bresenham.StepTracked` | src/gui/render.c:269-277 | the step the two comparisons choose keeps twice the error within the longer side |
| `Bresenham.EndsThere` | src/gui/render.c:267 | the end point is reached exactly after max(abs(dx), abs(dy)) steps |
| `Bresenham.LineDetermined` | src/gui/render.c:253-279 | there is exactly one pixel sequence with that property |
| `Calendar.DatetimeToUnix` | src/kernel/timer.c:275-302 | the seconds since the epoch modulo 2^32, for every input |
| `Calendar.UnixToDatetime` | src/kernel/timer.c:304-342 | for every 32-bit time a valid date (month at most 12) with exactly that time, and the weekday that Zeller's congruence gives for it |
| `Calendar.RoundTrip` | src/kernel/timer.c:275-342 | a valid date survives both conversions if and only if its time fits 32 bits |
| `Calendar.RoundTripBack` | src/kernel/timer.c:275-342 | every 32-bit time survives both conversions |
| `Calendar.OrderPreserved` | src/kernel/timer.c:275-302 | the seconds since the epoch compare as the calendar fields do, and are equal only for the same date and time |
| `Calendar.AgreesWithPosix` | src/kernel/timer.c:275-302 | the loops compute the closed formula of POSIX.1-2017, XBD section 4.16, with the day of the year in closed form |
| `Calendar.OrderOfResults` | src/kernel/timer.c:275-302 | the 32-bit results order two dates as the calendar does whenever the counter has wrapped equally often before both |
| `Calendar.WrapsIn2106` | src/kernel/timer.c:275-302 | the first second that does not fit, on 7 February 2106, is converted to the epoch |
| `Calendar.MonthLengths` | src/kernel/timer.c:57-76 | thirty days in April, June, September and November, 28 or 29 in February, 31 in the others |
| `Calendar.MonthFormula` | src/kernel/timer.c:65-76 | the days before each month are a straight line rounded down and corrected for February |
| `Calendar.WeekdayIsZeller` | src/kernel/timer.c:318 | the weekday is the one Zeller's congruence gives from year, month and day, for every date |
| `NetConfig.Trim` | src/config/config.c:17-36 | leading blanks and trailing white space go, but never the first character left |
| `NetConfig.ParseLine` | src/config/config.c:77-121 | key and value around the first equals sign, cut to the buffer sizes and trimmed |
| `NetConfig.ParseIp` | src/config/config.c:123-155 | the four decimal parts, or failure on a part above 255, a wrong count or a foreign character |
| `NetConfig.IpToString` | src/config/config.c:157-183 | the dotted decimal text, at most 15 characters |
| `NetConfig.IpRoundTrip` | src/config/config.c:123-183 | every address is read back from its text |
| `NetConfig.LoadNetwork` | src/config/config.c:189-257 | the defaults with every line of the first 1023 bytes applied in order |
| `NetConfig.SaveNetwork` | src/config/config.c:279-328 | the printed text, which fits its 512-byte buffer |
| `NetConfig.PrintedLine` | src/config/config.c:77-121 | a printed key=value line is read back as that key and value |
| `NetConfig.LinesOfEnded` | src/config/config.c:226-253 | lines without line breaks are split again as they were joined |
| `NetConfig.RoundTrip` | src/config/config.c:220-328 | reading the printed text gives the configuration back, a DHCP one without addresses |
| `NetConfig.SaveThenLoad` | src/config/config.c:189-328 | the two calls in sequence do so |
| `NetConfig.TrimmedIff` | src/config/config.c:17-36 | trimming gives exactly the stretch with only blanks in front and only white space behind that cannot be shortened, except that its first character stays |
| `NetConfig.SplitsAtFirst` | src/config/config.c:77-121 | a line is a pair exactly if it holds an equals sign, and the first one splits it |
| `NetConfig.IpOfIff` | src/config/config.c:123-155 | a text is an address if and only if it is four runs of digits, possibly empty, of value at most 255, joined by dots and followed by white space or the end |
| `NetConfig.QuadReads` | src/config/config.c:123-155 | such a text is read as the values of its four runs, so that three dots are 0.0.0.0 |
| `NetConfig.LastAddressWins` | src/config/config.c:220-250 | each address loaded is the one of the last line that gives it; comments, malformed lines and lines of other keys have no effect on it |
| `NetConfig.LastSwitchWins` | src/config/config.c:220-250 | the DHCP setting loaded is the one of the last line that gives it |
| `NetConfig.ThreeDots` | src/config/config.c:123-155 | three dots are the address 0.0.0.0 |
| `NetConfig.Ignored` | src/config/config.c:220-250 | comments, blank lines, lines without an equals sign and lines of 256 characters or more set nothing |
| `NetConfig.PrintedAddress` | src/config/config.c:123-183 | an address in its usual decimal form, printed and read |

## Left out

- Hardware, assembly and boot: port I/O, `switch_task`, TSS and CR3 handling, interrupt frames.
- kheap, pmm, vmm, TCP, ELF loading, processes, GUI other than `draw_line`, consoles, logging.
- Ext2 mkdir, mount parsing, the on-disk bytes of superblock, group descriptors and inode table:
  inodes are records, and writing one assigns the record. `bg_used_dirs_count` and timestamps other
  than the deletion mark are not modelled.
- Device failures are modelled for taking and freeing blocks and inodes (`Fault`); elsewhere device
  I/O and kmalloc succeed.
- Directories are tiled by well-formed records and have no holes; what the loops do on damaged
  directories is not modelled.
- Geometry: the block size is at least 1 KiB and below 64 KiB, unit numbers fit 31 bits, and bits past
  the end of the device are set.
- Ext2Vfs.AddDirEntry: the directory with the new block stays below 2 GiB, as its int return value needs.
- Ext2Ops.Create: a name over 255 bytes is looked up whole and stored cut, as the code does, so
  creating it twice yields two equal entries; names in the conservation theorem have at most 255 bytes.
- Ext2Ops.Unlink: the unlinked inode is not open elsewhere with different contents, and the
  directories involved have no holes.
- Priority inheritance, timed waits (`sem_timedwait`, `condvar_timedwait`, wait queue timeouts),
  `condvar_wait` for user threads, `signal_count`.
- SyncCondVar.StepKeeps: calls from outside the wait do not wrap the mutex's recursion counter.
- WorkPool.RunKeeps: a pool is shut down once, and destroyed after its workers have exited and no
  submission is under way.
- Scheduler.Scheduler.Perform: the set of threads and the number of wait queues are fixed once the
  scheduler is built.
- Thread creation and exit, `thread_kill`, `thread_set_priority`, `thread_set_nice`, the reaper,
  `preempt_pending`, CPU accounting, and fairness within one priority.
- SchedSpec.StepKeeps: the idle thread neither sleeps nor blocks.
- Bresenham.DrawLine: coordinates are unbounded integers; clipping in `draw_pixel` is not modelled.
- Network configuration for one interface, and the file system calls around the text.
