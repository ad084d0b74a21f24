# A verified model of the user-space storage stack, its thread library and its trampoline

The repository runs unmodified programs over NVMe drives from user space. System calls are diverted
through a trampoline at address 0 (`mylib/zpoline.c`); file reads and writes are cut into NVMe
requests (`mylib/hook.c`), mapped to 2 MB blocks taken from a circular free list (`mylib/myfs.c`),
striped over the drives and driven through submission and completion rings (`mylib/nvme.cc`);
user-level threads come from Argobots (`argobots/src`); two programs copy all allocated blocks to a
stream and back (`abt_backup`).

The project models that code in Dafny and proves what it is for. Every main result is a statement
about every run: all interleavings of host and drives, of execution streams, or of threads.

| file | what it models |
|---|---|
| `Prelude.dfy`, `Arithmetic.dfy`, `Sequences.dfy`, `Counting.dfy` | shared definitions and facts |
| `Addressing.dfy` | striping, request identifiers, bounce slots, the composition with block addresses |
| `QueuePair.dfy`, `QueuePairRuns.dfy`, `Bounce.dfy`, `QueuePairDriver.dfy` | one queue pair and the drive behind it as a state machine; bounce memory in 2 MB pages; class `QP`, whose methods are runs of that machine |
| `Nvme.dfy` | all queue pairs and request identifiers |
| `BlockMap.dfy`, `Files.dfy`, `MyFs.dfy` | the superblock as a value with its invariant; names, unlinking and reference counts over runs; class `Superblock` with its in-place methods |
| `Hook.dfy` | `read_impl` and `write_impl` |
| `Coherence.dfy`, `Stack.dfy`, `ReadWrite.dfy` | all of the above together: what reads return |
| `Progress.dfy`, `Example.dfy` | that requests can be made and complete; a run of the whole stack with backup and restore |
| `Backup.dfy`, `BackupOnStack.dfy` | backup and restore, on ideal drives and over the whole stack |
| `XstreamList.dfy`, `UnitMap.dfy` | the execution-stream list; the unit-to-thread hash table |
| `StackPrint.dfy`, `TagBarrier.dfy`, `UltBarrier.dfy`, `RwLock.dfy`, `Future.dfy` | synchronization protocols |
| `Batching.dfy` | the io_uring batching of `blklib/hook.c` |
| `Trampoline.dfy` | the sled, the fix-up in `asm_syscall_hook`, the bitmap of replaced instructions |

How the models are built:

- A protocol is a state machine: `Enabled` says when an atomic action can happen, `Step` what it
  does, and a run is a sequence of actions. Fields called history let a theorem speak about the
  past; they do not decide what the modelled code does.
- Code that updates an object in place is a class whose methods are proved equal to functions on
  its abstract value; theorems are about those functions.
- A polling loop takes the behaviour of its environment as a parameter; since that parameter is
  arbitrary, results hold for every timing.

What the models show about the code beyond the results it was meant to have:

- A submission ring with all n slots unfetched reads as empty to the drive; nothing can move any
  more (`QueuePairRuns.FullRingDeadlocks`), and this is the only way to get stuck
  (`QueuePairRuns.StuckExactlyWhenRingFull`). Section 4.1.2 of NVM Express revision 1.3 allows n - 1.
- `write_impl` returns without awaiting the last request it issued (`Hook.WriteImpl`).
- A system-call number above 404 that is 1 modulo 3 (427, io_uring_register, is one) loses its
  return address in the trampoline (`Trampoline.IoUringRegisterUnbalanced`), and in a sled whose length is a
  multiple of three some landings would never reach the end (`Trampoline.SlidesExactlyWhen`).
- `myfs_used_blocks` answers -1 when no block is free (`BlockMap.FullExample`); unlinking a file
  with holes puts -1 into the free ring (`BlockMap.HoleExample`).
- An unlink postponed because the file is in use is never carried out (`Files.PostponedForEver`): the
  release tests the count it found, not the one it leaves. A file opened under a name can be hidden from
  that name by a longer one in an earlier slot (`Files.LongerNameExample`).
- Bounce slots stay inside their pages only for queue depths up to 512 or multiples of 512
  (`Addressing.BounceSlotsFitPages`).
- Inserting an execution stream before the head keeps a stale back link
  (`XstreamList.Global.Add`); it is harmless only because the rank-0 primary never moves.

## Model

| member | source | states |
|---|---|---|
| Addressing.StripingRoundTrips | mylib/nvme.cc:548-566 | for any number of drives, logical sector to (drive, device sector) is a bijection: both compositions with its inverse are the identity |
| Addressing.RidRoundTrips | mylib/nvme.cc:579-588 | the drive, core and slot that nvme_check takes from a request identifier are the ones the request was given |
| Addressing.BounceSlotsDisjoint | mylib/nvme.cc:228-232 | different slots of a queue share no byte of bounce memory |
| Addressing.BounceSlotsFitPages | mylib/nvme.cc:33-33 | all bounce slots lie inside their 2 MB pages if and only if the depth is at most 512 or a multiple of 512 |
| Bounce.StoredIsUpdate | mylib/nvme.cc:259-263 | copying data to the place of a slot in the paged bounce memory changes that slot and no other slot of the queue |
| Addressing.HomeInjective | mylib/nvme.cc:617-630 | different logical bytes have different (drive, byte) homes |
| Addressing.UnitInsideBlock | mylib/myfs.c:208-208 | offsets of one stripe unit are in one 2 MB block, at consecutive places |
| Addressing.ChunkIsContiguous | mylib/nvme.cc:548-567 | the bytes of a sector-aligned chunk inside one stripe unit are consecutive on the one drive, starting at the sector named in CDW10 |
| Addressing.SectorFitsCommand | mylib/nvme.cc:566-566 | for every block number below NUM_BLOCKS the device sector fits 32 bits |
| QueuePairRuns.RunKeeps | mylib/nvme.cc:233-370 | every event of host or drive, hence every run, keeps the invariant relating rings, phases, slots, flags, bounce contents and delivered buffers |
| QueuePair.PhaseTellsUnread | mylib/nvme.cc:307-308 | the entry at cq_head has the current phase if and only if a posted completion is unread, and it is then the oldest unread one, naming the slot of its own command |
| QueuePairRuns.CompletionsConsumedOnceInOrder | mylib/nvme.cc:300-370 | in every run check_cq consumes completions in posting order, each exactly once, across any number of wraps |
| QueuePairRuns.UnreadEntryNeverOverwritten | mylib/nvme.cc:361-367 | in every run the entry the drive posts next is not one the host has yet to read |
| QueuePairRuns.OneCommandPerSlot | mylib/nvme.cc:237-246 | in every run done_flag is 0 exactly on slots with an unreaped command, and no slot has two |
| QueuePairRuns.OutstandingBound | mylib/nvme.cc:233-254 | in every run at most n_sqe commands are submitted and not reaped |
| QueuePair.SubmitSlotIsFree | mylib/nvme.cc:237-251 | the slot new_sqe hands out belongs to no unreaped command, and the submission ring has room |
| QueuePair.CompletionRingHasRoom | mylib/nvme.cc:300-370 | while a command is in flight fewer than n_cqe completions are unread |
| QueuePairRuns.CheckSound | mylib/nvme.cc:300-382 | done() answers 1 for the slot of a request only if that request itself has completed; a read's destination then holds the drive's answer to that request and a write's data has reached the drive, even if the slot was reused meanwhile |
| QueuePairRuns.CheckComplete | mylib/nvme.cc:380-382 | a completed request keeps answering 1 until its slot is taken again |
| QueuePairRuns.FlagTellsNewest | mylib/nvme.cc:233-382 | in every run the flag of a slot is 1 if and only if the last request submitted in it has been reaped |
| QueuePairRuns.DoneForGood | mylib/nvme.cc:300-382 | once a request was reported done, no run of host and drive, even one that takes its slot again, changes what its read delivered |
| QueuePairRuns.StuckExactlyWhenRingFull | mylib/nvme.cc:255-258 | with commands outstanding, drive and poller cannot move if and only if all n slots hold unfetched commands |
| QueuePairRuns.FullRingDeadlocks | mylib/nvme.cc:233-258 | for every depth a reachable state exists in which no event at all is enabled |
| QueuePairRuns.DrainsUnlessFull | mylib/nvme.cc:300-370 | from every reachable state whose ring is not full, drive and poller can bring all outstanding commands to completion |
| QueuePairRuns.EveryRunDrains | mylib/nvme.cc:300-370 | from there no run of drive and poller is longer than the transfers, postings and reapings left, and one that cannot be continued, and only such a one, has reaped every command |
| QueuePairRuns.DrainedIsDone | mylib/nvme.cc:380-382 | with every command reaped nvme_check answers 1 for each of them |
| QueuePairDriver.QP.constructor | mylib/nvme.cc:173-198 | for every depth: the object starts in the machine's initial state and can be used if and only if every slot lies inside its page |
| QueuePairDriver.QP.ReapOne | mylib/nvme.cc:310-365 | one turn of the loop, with the data copied out of the slot's page, is the machine's Reap step |
| QueuePairDriver.QP.CheckCq | mylib/nvme.cc:300-370 | check_cq is a run of the machine and returns with every posted completion reaped, those the drive had posted by the first look among them |
| QueuePairDriver.QP.AwaitSlot | mylib/nvme.cc:237-245 | the polling loop of new_sqe is a run; it takes a free slot at once and unchanged, succeeds after the first look if the slot's last command was posted by then, succeeds if and only if the slot is out of use, and is still waiting only with every posted completion consumed |
| QueuePairDriver.QP.Fill | mylib/nvme.cc:625-636 | the stores of a request, with its data copied into the 2 MB page of its slot, are the machine's Submit step |
| QueuePairDriver.QP.Request | mylib/nvme.cc:543-581 | a request is a run; it succeeds, as one Submit step and nothing else, if its slot is free, and if the slot's last command was posted when first looked at; on success it is appended to the submissions in a slot every earlier command of which was reaped |
| QueuePairDriver.QP.Check | mylib/nvme.cc:583-611 | nvme_check is a run; it answers 1 iff the flag is 1, and then every request ever submitted in that slot has completed and been answered; it does answer 1 if the slot's last request was posted by the time the ring is looked at, and 0 only with every posted completion consumed |
| Nvme.Controller.constructor | mylib/nvme.cc:495-500 | a queue pair of its own for every drive and core, all usable if and only if the depth lets slots fit their pages |
| Nvme.Controller.Request | mylib/nvme.cc:543-654 | the request goes to the queue of its drive and core with the sector on that drive, the other queues are untouched, and the identifier returned is that of the request; it is made if the slot at the tail has only reaped requests, or its last one was posted when first looked at |
| Nvme.Controller.Check | mylib/nvme.cc:583-611 | if nvme_check answers 1 for an identifier, every request on any drive and core that was given it has completed and been answered, reads from their own bounce slot; and it answers 1 for a request announced by the time of the call whose slot no later request has |
| BlockMap.InitInv | mylib/myfs.c:28-46 | the initial superblock satisfies the partition invariant |
| BlockMap.TouchKeeps | mylib/myfs.c:183-201 | writing to the next block of a file keeps the partition while a block is free |
| BlockMap.UnlinkKeeps | mylib/myfs.c:91-113 | unlinking keeps the partition |
| BlockMap.TryUnlinkKeeps | mylib/myfs.c:115-122 | so does an unlink postponed by a positive reference count |
| BlockMap.OpenKeeps | mylib/myfs.c:146-176 | so does opening |
| BlockMap.GrownShape | mylib/myfs.c:183-201 | growing a file in order to n blocks takes exactly the blocks missing, and the tables stay mapped |
| BlockMap.GrownExtends | mylib/myfs.c:186-197 | growing never changes a block already assigned |
| BlockMap.GrownKeeps | mylib/myfs.c:183-201 | growing a named file in order keeps the partition |
| BlockMap.BlocksConserved | mylib/myfs.c:91-200 | after any run of opens, in-order writes and unlinks each block number is free or owned and not both, none twice, and the two counts add up to NUM_BLOCKS - 1 |
| BlockMap.UsedBlocksRightUnlessFull | mylib/myfs.c:49-59 | myfs_used_blocks is the number of owned blocks if and only if a block is free |
| BlockMap.UnlinkConservesExactlyWithoutHoles | mylib/myfs.c:96-106 | unlinking keeps every block in one place if and only if the first n_block cells of the file are active |
| BlockMap.HoleExample | mylib/myfs.c:96-106 | a file written at its second block only: unlinking puts -1 into the live ring |
| BlockMap.FullExample | mylib/myfs.c:49-59 | a reachable superblock with no free block: one block is owned and the reported number is -1 |
| BlockMap.RunNumbers | mylib/myfs.c:91-200 | in every run ring and tables hold block numbers or INACTIVE, in live entries and stale ones |
| MyFs.Superblock.constructor | mylib/myfs.c:28-46 | the initialized superblock is the model's initial value and satisfies the invariant |
| MyFs.Superblock.Used | mylib/myfs.c:49-59 | the number of owned blocks while one is free, and -1 otherwise |
| MyFs.Superblock.Open | mylib/myfs.c:146-176 | the first matching file, else the first empty slot, else nothing; a new file has exactly the name given and no blocks, the name finds the file from now on, the rest of the superblock is unchanged and the invariant kept |
| MyFs.Superblock.EnsureBlock | mylib/myfs.c:183-201 | the locked section is the allocation step on the abstract value |
| MyFs.Superblock.GetLba | mylib/myfs.c:179-210 | for any state of file and ring: the block is allocated as the abstract step says, and the assertion fails if and only if the cell is INACTIVE afterwards; otherwise the sector of the offset in that block |
| MyFs.UnmappedExactlyPastSize | mylib/myfs.c:203-207 | with files grown in order and a free block for each write the assertion fails exactly for reads at or past the size |
| MyFs.Superblock.Unlink | mylib/myfs.c:91-113 | the loop over the ring and the table equals the abstract unlink |
| MyFs.Superblock.TryUnlink | mylib/myfs.c:115-122 | with reference count 0 the slot is empty again and exactly the file's blocks are free; otherwise the file is marked and nothing else happens |
| MyFs.Superblock.UnlinkName | mylib/myfs.c:132-143 | every file whose name begins with the given one is emptied, or marked if it is held; all others stay as they are |
| MyFs.Superblock.IncrementRef | mylib/myfs.h:60-68 | the count goes up if and only if the file is open and not unlinked |
| MyFs.Superblock.DecrementRef | mylib/myfs.h:69-75 | the count goes down, and no block is ever freed, whatever the marks and the count |
| Files.OpenNames | mylib/myfs.c:146-176 | opening a name leaves the first file that begins with it open and unmarked; only if there was none is a slot changed, the first empty one, and it gets exactly that name |
| Files.OpenAgain | mylib/myfs.c:146-176 | opening a name twice leads to the same file and to no other |
| Files.NameStays | mylib/myfs.c:91-176 | over every run: the name keeps leading to its file unless the file is unlinked or a name that begins with it is opened into an earlier slot |
| Files.NameStaysExactlyWhen | mylib/myfs.c:153-159 | over every run without an unlink of the file: the name leads to it if and only if no earlier slot has a name beginning with it |
| Files.LongerNameExample | mylib/myfs.c:153-159 | a run after which a name no longer opens the file of that name |
| Files.UnlinkEmpties | mylib/myfs.c:91-122 | unlinking a file nobody holds leaves its slot as if never used, one that is held is only marked, and no other file changes |
| Files.EmptyIsGiven | mylib/myfs.c:160-173 | an emptied slot is given to the next new name if no earlier one is empty |
| Files.CountIsHolders | mylib/myfs.h:60-75 | over every run in which a file stays open and not unlinked its count is the number of its holders modulo 65536 |
| Files.AccessBalancedExactlyWhen | mylib/hook.c:162-214 | a read or write leaves the count as it was if and only if the file was open and not unlinked when it began; otherwise one lower |
| Files.PostponedForEver | mylib/myfs.h:69-75 | over every run: an unlink that was postponed is never carried out by a release; the file keeps its name and blocks until an unlink finds the count at 0 |
| Files.LeakExample | mylib/myfs.h:69-75 | a file unlinked during a read is still there, with its block, after the last release |
| Hook.TilesPartition | mylib/hook.c:194-203 | a buffer position inside the range belongs to exactly one request, one outside to none |
| Hook.RunTiles | mylib/hook.c:194-203 | unless the assertion stops them, the requests of the chunk loops tile the range, for reads and writes alike |
| Hook.ReadRunGood | mylib/hook.c:176-203 | a read changes nothing, and each of its requests lies inside one stripe unit, has at most 4096 bytes, and is addressed to the block of its offset |
| Hook.StopsAtHole | mylib/myfs.c:203-207 | the assertion stops a read if and only if a block of the range is INACTIVE |
| Hook.UnitInBlock | mylib/hook.c:176-179 | a request inside one stripe unit stays in one 2 MB block |
| Hook.IssueReads | mylib/hook.c:197-203 | a batch is a part of the run of the loops, of exactly READ_DEG requests unless the range ends, ends at the assertion or in front of the rest of the run, and changes nothing |
| Hook.ReadImpl | mylib/hook.c:156-216 | for every file, length and sector-aligned position: the assertion stops the read if and only if the clamped range has a hole, never in a file grown in order; otherwise the requests tile the clamped range, are as few as the unit rule says, all are good, and they are issued and polled batch by batch in order |
| Hook.IssueWrites | mylib/hook.c:247-253 | a batch is a part of the run of the loops, of exactly WRITE_DEG requests unless the range ends, ends at the assertion or in front of the rest of the run, and counts one request too few when it ends the range |
| Hook.WriteImpl | mylib/hook.c:218-266 | whatever the state of file and ring: unless the assertion stops it, requests tile the range, as many as the unit rule says, each inside one stripe unit, issued batch by batch, and all but the last are awaited; for a range starting in the file or at its end, with enough free blocks, nothing stops it, exactly the missing blocks are allocated, every request has the address of its offset, and block conservation is kept |
| Hook.RunGrows | mylib/myfs.c:186-199 | the allocations of the loops under in-order growth end in the file grown by exactly the missing blocks, and the requests are those of a read of that file |
| Hook.ClampedMeans | mylib/hook.c:164-167 | the offsets a read serves are those asked for that lie before the end of the file |
| Hook.CountsChosen | mylib/hook.c:176-179 | one request for a read inside one stripe unit, one for each stripe unit of an aligned range, one for each sector otherwise |
| Hook.BatchesUnpolled | mylib/hook.c:194-211 | at no moment of a read are more than READ_DEG requests issued and not polled to the end, and none when it returns |
| Hook.ButLastUnpolled | mylib/hook.c:244-261 | at no moment of a write more than WRITE_DEG, and one when it returns |
| Hook.ReachedEntries | mylib/myfs.c:28-46 | every reachable superblock meets the requirement of the write loops |
| Coherence.WriteKeeps | mylib/nvme.cc:613-654 | issuing a write keeps drives and queues in step with the contents as if written at once |
| Coherence.ReadKeeps | mylib/nvme.cc:543-581 | a read just issued is going to return the contents of this moment |
| Coherence.FetchKeeps | mylib/nvme.cc:543-654 | a drive carrying out any channel's next command keeps all that, for every pending read and byte |
| Coherence.FsStepKeeps | mylib/myfs.c:91-200 | opens, allocations and unlinks keep all that for the files that remain |
| Stack.NextKeeps | mylib/hook.c:156-266 | every action of the whole stack (open, unlink, chunk write, chunk read, drive step, poll) keeps the end-to-end invariant |
| Stack.SpecIsLastWritten | mylib/hook.c:218-266 | the contents kept by the invariant are what the actions alone determine: the byte last written since the file came into being |
| Stack.DoneReadDelivered | mylib/nvme.cc:583-611 | a read reported done has delivered every byte its caller was entitled to |
| Stack.ReadReturnsLastWritten | mylib/hook.c:194-211 | in every run, a chunk read that nvme_check reports done returns for every offset the byte last written there before it was issued |
| Stack.CheckedReadReturnsLastWritten | mylib/nvme.cc:579-610 | the same for the identifier that nvme_read_req returned: drive, core and slot are decoded from it |
| Stack.RunQueue | mylib/nvme.cc:543-654 | every run of the stack is, for each queue, a run of that queue, so all results about queue runs hold in it |
| Stack.ReadStaysDelivered | mylib/hook.c:206-211 | what that read delivered is still there at any later moment of the run, whoever has taken its slot since |
| Stack.BytesHaveOwnHomes | mylib/myfs.c:179-210 | in every reachable state two file bytes are at the same place of the same drive if and only if they are the same byte of the same file |
| Stack.OneCoreNeverRaces | mylib/nvme.cc:549-552 | with one core the hypothesis about conflicting requests of other cores holds by itself |
| Progress.ChannelDrains | mylib/nvme.cc:300-370 | in every reachable state of the stack a channel whose ring is not full can be served until all its requests are reaped |
| Progress.EveryServiceDrains | mylib/nvme.cc:300-370 | the same over the whole stack for the drive and poller of a channel |
| Progress.ReadCanComplete | mylib/hook.c:201-209 | a read just issued can be brought to be reported done, unless it filled its ring |
| Progress.OneCoreCanRead | mylib/nvme.cc:237-246 | with one core a chunk of a file can be read if and only if the slot at the tail is out of use |
| Progress.OneCoreCanWrite | mylib/nvme.cc:237-246 | and a chunk can be written, to a block the file has or the next one while a block is free, if and only if the slot at the tail is out of use |
| Example.BackupAndRestore | abt_backup/abt_restore.c:38-67 | for any drives and disks, any number of units up to a whole block and any data: a run exists that writes the units, backs them up, overwrites them with other data, restores and reads them back, and meets the hypotheses of the theorems about whole reads, whole writes and restored files |
| ReadWrite.RequestIsChunk | mylib/hook.c:200-201 | every request formed by the loops is a chunk of the stack, at the address of its file offset |
| ReadWrite.WritesWholeSectors | mylib/hook.c:248-250 | a write of whole sectors is cut into requests of whole sectors |
| ReadWrite.ReadAssembles | mylib/hook.c:194-211 | if every request's part of the buffer agrees with the contents, so does the whole buffer |
| ReadWrite.RangeReadReturnsLastWritten | mylib/hook.c:156-216 | a whole read whose requests were each reported done, at moments of their own, leaves in the buffer, for every offset of the range, the byte last written there |
| ReadWrite.WriteIsChunk | mylib/hook.c:248-250 | each request of a write of whole sectors is a chunk write the stack accepts, carrying its part of the data |
| ReadWrite.RangeWriteIsLastWritten | mylib/hook.c:218-266 | once the chunk writes of a whole write are issued, in any order and among anything that leaves the range alone, the contents of the range are the data written |
| ReadWrite.WriteAlone | mylib/hook.c:244-261 | the chunk writes of a whole write alone leave its data in the range, whatever happened before |
| ReadWrite.ReadAfterWrite | mylib/hook.c:156-266 | a read of the range whose requests are issued after that and each reported done returns exactly the data written |
| Backup.Append | abt_backup/abt_backup.c:36-60 | the stream is extended by the file's blocks in table order, sector by sector |
| Backup.Save | abt_backup/abt_backup.c:79-84 | the stream begins with the image of all named files, whatever it held before |
| Backup.Parse | abt_backup/abt_restore.c:38-67 | the file's blocks get the contents of the stream and no other sector changes |
| Backup.Restore | abt_backup/abt_restore.c:87-92 | from a stream that begins with an image, exactly the allocated sectors get the image's contents |
| Backup.RoundTrip | abt_backup/abt_restore.c:69-95 | backup, any change of the drives, restore: every allocated sector is as at backup time, every other as it was in between |
| Backup.ReachableIsMapped | abt_backup/abt_backup.c:44-46 | every superblock the file system reaches meets what both programs rely on |
| BackupOnStack.UnitAddress | abt_backup/abt_backup.c:45-50 | the sector both programs compute for a unit of a block is the stack's address of its file offset |
| BackupOnStack.RestoredContents | abt_backup/abt_restore.c:38-67 | through queues, striping and drives: when the reads of a backup were reported done and the restore has written the saved units back, every offset of the file that had contents at backup time has them again |
| BackupOnStack.RestoredReads | abt_backup/abt_restore.c:38-67 | whoever reads the file after that, through any core, request after request, and has seen each reported done, has a buffer equal to the saved units, which agrees with the contents at backup time |
| XstreamList.Global.FindPlace | argobots/src/stream.c:2014-2026 | the search ends at the first larger rank with its predecessor |
| XstreamList.Global.Add | argobots/src/stream.c:2011-2054 | x is inserted at its place and the list stays linked and sorted; it stays well formed if and only if x does not become the head of a non-empty list with a stale back link |
| XstreamList.Global.Remove | argobots/src/stream.c:2057-2069 | the list without x, still well formed and sorted |
| XstreamList.Global.UpdateMax | argobots/src/stream.c:1979-2008 | max_xstreams becomes the least number above the rank and not below its old value |
| XstreamList.Global.FreeRank | argobots/src/stream.c:2077-2089 | the rank found is the least unused one |
| XstreamList.Global.IsTaken | argobots/src/stream.c:2091-2101 | the walk finds a rank iff the list has it |
| XstreamList.Global.SetNewRank | argobots/src/stream.c:2072-2111 | fails, changing nothing, iff the wanted rank is taken; otherwise x is enrolled, with the least unused rank if none was asked for, num_xstreams and max_xstreams stay right, and a rank-0 primary stays at the head |
| XstreamList.Global.ChangeRank | argobots/src/stream.c:2114-2144 | for a secondary stream: fails iff another stream has the rank; otherwise the list is the old one with x moved, and everything stays well formed with the primary at the head |
| XstreamList.Global.ReturnRank | argobots/src/stream.c:2146-2155 | x leaves the list, num_xstreams stays its length |
| UnitMap.LookupFindsThread | argobots/src/unit.c:282-301 | in every run and every continuation of it a lookup of a unit makes at most one step more than the nodes it was away, has then found the thread the calls had mapped its unit to, and until then can always make its next step |
| UnitMap.OthersKeepSeeking | argobots/src/unit.c:222-280 | maps, unmaps and lookups of others never move a lookup away from its node nor change the unit's thread |
| UnitMap.MappedIsMappedBy | argobots/src/unit.c:222-280 | in every run the plain map kept with the table is the one the map and unmap calls alone determine |
| UnitMap.TableIsMap | argobots/src/unit.c:222-301 | in every run a unit is mapped to a thread, going by the calls alone, iff its bucket stores the pair, in one node only |
| UnitMap.TableIsMapAtHash | argobots/src/unit.c:127-139 | the same for the code's hash: the pair is in the bucket unit_get_hash_index names |
| UnitMap.HashDigits | argobots/src/unit.c:127-139 | for every unit the hash ignores the three lowest bits and is the sum of the next three digits base 256, modulo 256 |
| UnitMap.LengthIsPeak | argobots/src/unit.c:222-280 | after no beginning of a run do the calls have more units of a bucket mapped than its list is long at the end, and after some beginning they have as many |
| UnitMap.FindTombstone | argobots/src/unit.c:231-242 | the scan finds the first tombstone from the head, or none is there |
| UnitMap.FindUnit | argobots/src/unit.c:269-278 | the walk finds the first node of the unit |
| StackPrint.AssertionsHold | argobots/src/info.c:1095-1096 | both run-time assertions hold in every run: FINALIZE on departure, an empty barrier for the winning trigger |
| StackPrint.PrintingStopsTheWorld | argobots/src/info.c:1043-1076 | whoever prints is the only printer and all other streams are stopped inside |
| StackPrint.OnePrintingPerTrigger | argobots/src/info.c:1348-1370 | each won trigger is printed exactly once, before the next can win; wins and printings are counted by the events |
| StackPrint.NobodyLeavesBeforeFinalize | argobots/src/info.c:1089-1094 | no stream leaves the barrier before FINALIZE |
| StackPrint.NeverStuck | argobots/src/info.c:1036-1106 | a printing in progress can always be carried on |
| TagBarrier.NobodyLeavesEarly | argobots/src/stream_barrier.c:160-177 | however often one stream has left, every stream has called the barrier that often; a stream outside has finished every call it made |
| TagBarrier.SpinnerLeavesExactlyWhenReleased | argobots/src/stream_barrier.c:171-177 | a spinning stream can leave iff its round is released, and the barrier is at most that one round ahead |
| TagBarrier.NeverStuck | argobots/src/stream_barrier.c:146-181 | some participant can always move |
| UltBarrier.CounterIsBlockedCount | argobots/src/barrier.c:216-231 | whenever the lock is free the counter is the number of blocked threads and below num_waiters |
| UltBarrier.ArrivalAssertionHolds | argobots/src/barrier.c:217-218 | the assertion on the counter holds in every run |
| UltBarrier.ReleaseFreesGroup | argobots/src/barrier.c:226-230 | a release finds exactly num_waiters - 1 blocked threads and wakes all of them |
| UltBarrier.OnlyGroupsLeave | argobots/src/barrier.c:197-233 | going by the events, returns plus threads on their way out equal the sizes of the completed groups, across reinitializations, and num_waiters is that of the last one |
| UltBarrier.StandsStillOnlyIncomplete | argobots/src/barrier.c:197-233 | without new calls nothing can move iff every thread is outside or blocked, and then the group is incomplete |
| RwLock.WriterExcludesAll | argobots/src/rwlock.c:144-237 | in every run reader_count is the number of readers and a writer excludes everybody else |
| RwLock.SleepsExactlyWhenKeptOut | argobots/src/rwlock.c:157-210 | a reader goes to sleep iff a thread holds the lock exclusively, a writer iff a thread holds it at all; otherwise it gets the lock in the mode it called for |
| RwLock.HeldAsCalled | argobots/src/rwlock.c:144-237 | whoever has the lock has it in the mode of its last call |
| RwLock.NobodySleepsInVain | argobots/src/rwlock.c:263-281 | with the mutex free every sleeper is kept out by a thread that holds the lock |
| RwLock.UnlockMatchesLock | argobots/src/rwlock.c:271-277 | unlock finds the flag set iff its caller holds the lock exclusively, and never decrements a zero count |
| RwLock.NeverStuck | argobots/src/rwlock.c:144-281 | as long as a thread is busy with the lock some thread can go on |
| Future.ValuesAreSet | argobots/src/futures.c:270-349 | in every run the values and callback runs since the last reset are those the calls alone determine |
| Future.ReadyExactlyWhenAllSet | argobots/src/futures.c:229-349 | with the lock free a future is ready iff as many values as it has compartments were set since the last reset |
| Future.ReadyMeansFilledAndCalled | argobots/src/futures.c:229-304 | whoever tests the future ready, at any moment and without the lock, finds the values of the calls in order and the callback already run, once, with them |
| Future.NoEarlyCallback | argobots/src/futures.c:289-296 | between resets the callback runs at most once, never before all compartments are set |
| Future.ArrayIsValues | argobots/src/futures.c:270-304 | with the lock free the first compartments are the values set since the last reset, in order |
| Future.SetFailsExactlyWhenReady | argobots/src/futures.c:278-290 | setting fails without effect iff the future is ready |
| Future.WaitEndsExactlyWhenReady | argobots/src/futures.c:172-201 | a waiter is let go only while the future is ready, and with the lock free nobody sleeps on a ready one |
| Future.NeverStuck | argobots/src/futures.c:172-349 | a thread inside an operation never waits for ever on the others |
| Batching.LeavesOnlySubmitted | blklib/hook.c:205-230 | in every run the request a thread is polling for, the last it prepared going by the events, is with the kernel |
| Batching.SubmitsExactlyWhen | blklib/hook.c:205-226 | a step hands the ring over iff it prepares one request more than the threshold or is the second turn of a thread that has seen no submit; then all of the ring goes and the counters say so |
| Batching.TurnsEnd | blklib/hook.c:214-229 | in every run a thread leaves the batching loop on its second turn at the latest, and without a submit of its own iff the number of submits since its preparation is not a multiple of 65536 |
| Batching.PendingIsUnsubmitted | blklib/hook.c:205-224 | in every run pending_req is the number of requests prepared, counted by the events, less those with the kernel, at most the threshold |
| Trampoline.FillSled | mylib/zpoline.c:453-470 | the loop writes the sled byte at every address and nothing beyond |
| Trampoline.StoreTail | mylib/zpoline.c:489-506 | the thirteen stores are push rax, movabs of the hook's address in little-endian order, jmp rax |
| Trampoline.Setup | mylib/zpoline.c:453-506 | memory then holds sled and tail |
| Trampoline.SledSlides | mylib/zpoline.c:425-470 | for sled lengths not divisible by three every landing reaches the end, pushing one word exactly when it is 1 modulo 3 and below the nops |
| Trampoline.SlidesExactlyWhen | mylib/zpoline.c:453-470 | every landing reaches the end if and only if the length is not divisible by three or below 108 |
| Trampoline.MultiplyTellsRemainder | mylib/zpoline.c:164-170 | for every 64-bit rax the multiplied value is not below the constant if and only if rax is 1 modulo 3 |
| Trampoline.FixUpMeans | mylib/zpoline.c:159-171 | the fix-up restores rax, keeps rdi, and drops one word iff rax is 1 modulo 3 |
| Trampoline.TailJumps | mylib/zpoline.c:489-506 | the tail arrives at the hook with rax saved on the stack |
| Trampoline.HookEntered | mylib/zpoline.c:159-171 | every system call number arrives at the hook with its registers; its stack is intact or lacks exactly the return address |
| Trampoline.BalancedExactlyWhen | mylib/zpoline.c:159-171 | a call comes through unchanged if and only if its number is at most length - 108 or not 1 modulo 3 |
| Trampoline.IoUringRegisterUnbalanced | mylib/zpoline.c:409-470 | at the length 512 of the code, number 427 does not come through: its stack lacks the return address |
| Trampoline.Record | mylib/zpoline.c:92-95 | setting a bit adds one address to the set and loses none |
| Trampoline.IsRecorded | mylib/zpoline.c:97-100 | the test answers membership |

## Left out

- PCI and uio setup, address translation, the admin queue and controller start in mylib/nvme.cc: hardware and operating-system calls.
- Conflicting requests of different cores that overlap in time: nothing in the code orders them, so the stack theorems take their absence as a hypothesis on the run.
- A drive that executes the commands of one queue out of order: the modelled drive fetches and executes in ring order and posts completions in any order.
- Host accesses to one queue pair by two threads at once: they hold its lock, so host events are atomic.
- Writes that are not a multiple of 512 bytes: the last sector then carries earlier contents of its bounce slot; content theorems are for whole sectors.
- Lengths of 2 GB and more in one read or write, where the int loop variables overflow.
- Block conservation and file contents after a write that skips blocks or finds the ring empty: the code checks neither, so the run theorems take in-order growth and a free block as hypotheses on the run; what the single operations do then is modelled.
- The completion-head doorbell (mylib/nvme.cc:368): the modelled drive posts without looking at it and is shown never to overrun the ring; a drive that waits for it has fewer runs, so every safety result covers it, and QueuePairRuns.DrainsUnlessFull does not speak of it.
- True concurrency inside the free ring: a compare-and-swap and the slot access after it are one step.
- Reference counts inside Hook.ReadImpl, Hook.WriteImpl and the runs of the whole stack: Files states what they do to a file; a hold taken while another thread changes the flags is one step.
- myfs_mount, and names of 1024 characters or more, which overrun their slot.
- Waiting requests in Hook.Await: awaiting is recorded as an order of polls; that a poll succeeds only after completion is the queue pair's theorem.
- Backup.RoundTrip: requests take effect at issue on ideal drives, so that sectors never written through the file system are covered too; BackupOnStack.RestoredReads goes through the stack for contents the file system has written. Transfer errors of the stream are not modelled.
- The num_xstreams field read by other modules while the list lock is held, and failed allocation of a stream.
- Failed allocation of a node in the unit table, and memory orderings weaker than the order of atomic accesses.
- Time-outs and a changing number of streams in the stop-the-world protocol.
- The branch of the stream barrier that uses pthread barriers, and a barrier of one waiter, which does nothing.
- Errors of cond_wait in the readers-writer lock and unlock by a thread that holds nothing.
- Wait lists, mutexes, condition variables and spinlocks themselves: they are atomic primitives.
- A full io_uring and completions with errors in blklib/hook.c, and mylib/iouringlib.c: kernel behaviour.
- Rewriting of instructions, signal return and the C side of the hook in mylib/zpoline.c.
- blklib and abtlib copies of myfs.c, nvme.cc and zpoline.c: the mylib versions are modelled.
- argobots thread, key, pool and scheduler code: its deciding parts are in headers that are not part of this model.
