# Verified models of Android's system/extras tools

Dafny models of the parts of this repository whose correctness is hardest to see from the code, with proofs of
what they are for:

- **ext4fixup** renumbers every inode of an ext4 image, in place, with a progress record on the disk
  so that it can be killed and started again. The disk, the power supply and the runs are modelled; the main
  result is about any series of power cuts followed by one run that completes.
- **memory_replay** replays an allocation log on one worker thread per recorded thread. It is a state machine whose
  steps are the atomic actions of the dispatcher and the workers; results hold for every interleaving.
- **libfec** checks a dm-verity hash tree and serves reads that the tree vouches for. The disk may hold anything,
  blocks may be unreadable, and the error decoder may return anything.
- **make_ext4fs** allocates blocks from bitmaps and chunk lists, describes files by extents and writes directories
  into byte buffers. Allocation is proved to conserve blocks and to use the fewest regions; extents and
  directories are read back with the readers of ext4fixup, and a file is followed from its length through the
  allocator and the extents to its blocks and the place of each of its bytes.
- **perfprofd's range map**, the streaming **SHA-1**, the **f2fs** used-block scan and **ioshark**'s splitting of
  mappings are each proved against a simple definition of their result.

`dafny verify dfyconfig.toml` checks the whole project. Modules follow the program's parts; a module of values and
lemmas (for example `BlockPool`) stands beside the module that holds the class or the loops (`Allocators`).

Where the code and its comments disagree, the model does what the code does:

- The comment at ext4_utils/allocate.c:460-466 promises the smallest hole that a request fits in.
  `BlockChoice.SmallestMissed` is an input for which it is not chosen, and `BlockChoice.SmallestChosenIff` says
  exactly when it is. The number of regions is least in any case.
- Freed blocks are not always found again (ext4_utils/allocate.c:231-253). `BlockReturn.FirstChunkLost` is a block
  that is free in the bitmap and in no hole, `BlockReturn.FoundAgainIff` says exactly which freed blocks are in a
  hole, and `BlockReturn.AllocateThenFree` when an allocation that is given back leaves the holes as large as before.
- A file with more than three regions whose first region is a single block loses all other regions
  (ext4_utils/allocate.c:566-598). `ExtentTrip.FourBlocksMisread` is such a file, and `ExtentTrip.ReadsBackIff` says
  exactly which files read back.
- The primary superblock and its descriptors are written one after the other (ext4_utils/ext4fixup.c:328-341). A
  power cut between the two loses the growth of the free counts for good. `FixupWrites.GrowthLost` is an image and a
  cut for which it does, and `FixupWrites.TornIff` says exactly which cuts do.
- An image that is small against its hash tree is never recognised (libfec/fec_open.cpp:44-97);
  `VeritySearch.SmallFileMissed` and the contract of `VeritySearch.FindVerityOffset`.
- The high word of the SHA-1 bit count misses updates of 2^29 bytes or more that do not carry
  (ext4_utils/sha1.c:224-226). `Sha1.LongUpdate` is such an update, and `Sha1.CountIff` says exactly which updates
  are counted.

## Model

| member | source | states |
|---|---|---|
| Fixup.FixWithRestarts | ext4_utils/ext4fixup.c:779-811 | Any series of runs, each cut after any given number of writes, and then a run that completes leave exactly the disk of one uninterrupted run, or the same disk without the growth of the free counts, the latter if and only if the inodes per group need rounding and the first run that gets to the primary superblock is cut right after writing it; a disk that fails the sanity pass is never changed |
| FixupWrites.TornIff | ext4_utils/ext4fixup.c:328-341 | A series of cuts leaves the primary superblock ahead of its descriptors if and only if the inodes per group need rounding and the first run with power for the primary superblock has power for that write and no more |
| FixupWrites.HooksLoseNothing | ext4_utils/ext4fixup.c:348-350 | A series of cuts none of which comes right after a superblock, as at the three places where the tool can be told to stop, loses nothing |
| FixupWrites.OneWriteTears | ext4_utils/ext4fixup.c:326-341 | A run that starts at the superblocks, has no bitmap to clear and has to round is torn by power for exactly one write |
| FixupWrites.GrowthLost | ext4_utils/ext4fixup.c:326-341 | An image with an empty root directory and two inodes in a group, cut after nine writes, ends without the growth of its free counts |
| Fixup.Device.Run | ext4_utils/ext4fixup.c:779-811 | A run started on anything an earlier run may have left performs the writes that the disk determines, in their order and as far as the power lasts; it finishes the job, or leaves a disk from which the next run can go on, or refuses without a write |
| Fixup.Device.RecurseDir | ext4_utils/ext4fixup.c:525-683 | A pass over a subtree writes its blocks in post-order as far as the power lasts, keeps the order invariant (an entry is dealt with only after all below it) at every write, touches nothing outside, and on return all of the subtree is dealt with |
| Fixup.Device.WriteBack | ext4_utils/ext4fixup.c:672-678 | Writing a directory block by block keeps the invariant after every block |
| Fixup.Device.SanityPass | ext4_utils/ext4fixup.c:525-683 | The first pass accepts exactly the trees whose entries can be marked and renumbered |
| Fixup.Device.SetState | ext4_utils/ext4fixup.c:122-169 | Changing the progress record changes nothing else, and a cut leaves the old or the new state |
| Fixup.Device.CheckInodeBitmaps | ext4_utils/ext4fixup.c:237-266 | Each bitmap is as before or as it should be at any cut, and all are as they should be at the end |
| Fixup.Device.UpdateSuperblocks | ext4_utils/ext4fixup.c:269-354 | The last phase writes the bitmaps that change and then each group's superblock and descriptors, as far as the power lasts; it ends on the finished disk whatever part of it an earlier run had done, or stays resumable |
| FixupDisk.FixedIsSettled | ext4_utils/ext4fixup.c:690-817 | A finished image is accepted again and a further run leaves it exactly as it is |
| FixupDisk.TornLosesGrowth | ext4_utils/ext4fixup.c:328-341 | The torn and the whole result are the same disk if and only if the inodes per group need no rounding |
| FixupCounts.FixedFreeCount | ext4_utils/ext4fixup.c:296-307 | If the free count of the superblock is the total of the descriptors before, it is so on the finished disk; on a torn one it exceeds the total by the groups times what each should have gained |
| FixupCounts.FixedGroupCount | ext4_utils/ext4fixup.c:237-266 | If a group's descriptor counts the clear bits of its bitmap before, it does so on the finished disk, up to the new number of inodes; of the bitmap only the bits between the two numbers change, and they are cleared |
| FixupCounts.FixedSuperblocks | ext4_utils/ext4fixup.c:296-341 | The finished superblock counts groups times inodes per group, its free inodes grow by as many as its inodes, and every copy of it and of the descriptors says the same |
| FixupCounts.FixedIpg | ext4_utils/ext4fixup.c:747 | The new inodes per group are the least multiple of those in a block that is enough |
| FixupDisk.FixedKeepsPaths | ext4_utils/ext4fixup.c:655-661 | On the finished disk, read with its new count, a path from the root through directories the tool reaches leads to the slot it led to before |
| FixupTree.MarkIsTopBit | ext4_utils/ext4fixup.c:654-661 | Marking sets the top bit of a 32-bit inode number, unmarking clears it, and neither touches another bit |
| FixupTree.BlockWriteKeepsInv | ext4_utils/ext4fixup.c:672-678 | Writing any range of a directory's buffer keeps the invariant: an entry that is dealt with has its whole subtree dealt with on disk |
| FixupTree.PassBegins | ext4_utils/ext4fixup.c:787-802 | The untouched tree starts the marking pass, and a fully marked tree starts the updating pass |
| FixupTree.PassEnds | ext4_utils/ext4fixup.c:797-802 | The updating pass ends with every reachable entry renumbered once and nothing else changed |
| FixupMeaning.AlignUpFits | ext4_utils/ext4fixup.c:747 | Rounding up stays within a block and doing it again changes nothing |
| FixupMeaning.NewInumKeepsSlot | ext4_utils/ext4fixup.c:81-89 | A new inode number under the new count names the inode-table slot the old one named under the old count |
| FixupMeaning.NewInumInjective | ext4_utils/ext4fixup.c:81-89 | Two inode numbers get the same new number if and only if they are the same |
| FixupMeaning.PathsKeepMeaning | ext4_utils/ext4fixup.c:655-661 | A path through directories that the tool reaches resolves after the renumbering to the slot it resolved to before |
| FixupMeaning.ClosedReaches | ext4_utils/ext4fixup.c:611-625 | If no entry of the tree names a directory that the tool does not reach, every path is such a path |
| FixupMeaning.SecondRunSameNumbers | ext4_utils/ext4fixup.c:655-661 | Renumbering a renumbered tree changes no inode number |
| FixupExample.ImageAccepted | ext4_utils/ext4fixup.c:615-625 | An image with dot entries and a subdirectory is one the tool accepts: dot entries are not followed, and no other directory is left out |
| FixupExample.ImageRenumbered | ext4_utils/ext4fixup.c:81-89 | With three inodes per group and four to a block, inodes 2, 4 and 5 of that image become 2, 5 and 6 wherever they are named |
| ReplayProof.StepKeeps | memory_replay/Pointers.cpp:52-103 | Each atomic step of the dispatcher or a worker keeps the invariant of the pointer table and the workers |
| ReplayProof.RunKeeps | memory_replay/main.cpp:85-141 | The invariant holds in every state of every interleaving of a valid log |
| ReplayProof.FreeRunsAlone | memory_replay/main.cpp:117-138 | While a freeing action is pending every other worker is idle |
| ReplayProof.SlotsExclusive | memory_replay/Pointers.cpp:90-103 | No two workers own one slot of the table and none runs out of slots |
| ReplayTable.NoFreeSlot | memory_replay/Pointers.cpp:90-103 | If no slot is free there are more keys than slots, so a table with room always has one |
| ReplayEnds.NotStuck | memory_replay/main.cpp:85-141 | Some step is possible in every reachable state before the end |
| ReplayEnds.RunsAreFinite | memory_replay/Threads.cpp:33-46 | A run has at most as many steps as a number known at its start |
| ReplayEnds.RunsReachTheEnd | memory_replay/main.cpp:140-141 | A run that can go no further has replayed the whole log and has no action pending |
| ReplayEnds.ParallelIsSequential | memory_replay/main.cpp:85-141 | Whenever nothing is pending the table holds exactly what the sequential replay holds, and the same allocations were released in the same order |
| ReplayEnds.PlayConserves | memory_replay/Action.cpp:65-165 | In the sequential replay every allocation is either live or released, once |
| Replay.PlayMeans | memory_replay/Action.cpp:65-165 | In the sequential replay an allocation makes its key live with its line, a free releases the line of its key last, a reallocation does both, and ending a thread does neither |
| Replay.LiveTidsMeans | memory_replay/main.cpp:85-141 | The threads alive after some lines are those whose last line does not end them |
| ReplayEnds.FreeAllHolds | memory_replay/Pointers.cpp:109-115 | The final sweep releases exactly the pointers in the table, each once |
| ReplayEnds.AllReleasedOnce | memory_replay/main.cpp:140-149 | After a complete run and the final sweep every allocation of the log was released exactly once |
| ThreadTable.Threads.FindThread | memory_replay/Threads.cpp:96-111 | The probe ends and finds an id if and only if it is in the table |
| ThreadTable.Threads.FindEmptyEntry | memory_replay/Threads.cpp:127-138 | An empty entry is found if and only if the table is not full |
| ThreadTable.Threads.CreateThread | memory_replay/Threads.cpp:76-94 | The id is entered in a free entry and ids stay distinct and counted; it fails only when the table is full |
| ThreadTable.Threads.Finish | memory_replay/Threads.cpp:140-149 | One entry is cleared and the count stays that of the entries in use |
| ThreadTable.Threads.WaitForAllToQuiesce | memory_replay/Threads.cpp:113-121 | The scan stays in the table and waits for every live thread once |
| ThreadTable.MetAll | memory_replay/Threads.cpp:96-111 | A probe once around from any start meets each entry in use once |
| VerityLayout.VerityGetSize | libfec/fec_verity.cpp:90-116 | The level count is the least L with 128^L blocks or more, level k has ceil(n / 128^k) hashes, and the size is the total of the levels |
| VerityLayout.LevelsTile | libfec/fec_verity.cpp:225-249 | The levels fill the hash area without gap or overlap |
| VerityLayout.LevelsGrow | libfec/fec_verity.cpp:225-249 | Each level is larger than the one above it |
| VerityLayout.OnlyBottomLevelIsCopied | libfec/fec_verity.cpp:303-306 | The test on the number of blocks picks the bottom level only |
| VerityLayout.ParentInside | libfec/fec_verity.cpp:262-273 | The hash of every block lies inside the level that was verified just before |
| VeritySearch.FindVerityOffset | libfec/fec_open.cpp:44-97 | The binary search, in 64-bit arithmetic that wraps, ends and returns the only aligned offset whose tree fills the rest of the file, if and only if there is one and the file is at least twice its tree size |
| VeritySearch.InBracket | libfec/fec_open.cpp:58-60 | The start bracket contains every solution |
| VeritySearch.OffsetUnique | libfec/fec_open.cpp:44-97 | There is at most one solution |
| VeritySearch.SmallFileMissed | libfec/fec_open.cpp:44-97 | A file of eight blocks has a solution and is below twice its tree size |
| Verity.FecHandle.VerifyTree | libfec/fec_verity.cpp:185-322 | A tree is accepted without correction if and only if it fits, has more than one level and is chained by hashes from the root down; the level copied is then its lowest and the disk is unchanged; 128 data blocks or fewer are always rejected. In any case nothing outside the tree is written, nothing at all on a read-only handle, and after acceptance on a read-write one the disk holds the level that was copied |
| Verity.FecHandle.VerifyLevel | libfec/fec_verity.cpp:259-311 | On a read-write handle every block of a level that passes, corrected or not, has on disk the hash that the level above gives for it, and no other hash of that level was touched |
| Verity.DigestPlace | libfec/fec_verity.cpp:262-273 | Byte k of hash j of a level is byte 32 j + k of the level |
| Verity.ChainIsTree | libfec/fec_verity.cpp:262-311 | A chain that starts from the root hash of an image is the tree of that image, level by level |
| Verity.FecHandle.ReadBlock | libfec/fec_read.cpp:312-383 | A block is returned only if it hashes to its entry in the verified level, and if and only if it is intact, known to be zero, or decoded to what it should be; on a read-write handle a block that was corrected is then on the disk, and no other block changes |
| Verity.FecHandle.VerityRead | libfec/fec_read.cpp:285-401 | A successful read returns as many bytes as asked for, and all of them that lie in data blocks of the image are the bytes of the image at that offset; a read of intact blocks succeeds; only blocks of the range change, each to one with its hash, and after a successful read on a read-write handle every block of the range has its hash |
| Verity.FecHandle.VerifyAndRead | libfec/fec_verity.cpp:185-322 | End to end: after a tree is accepted without correction every successful read returns, as far as it lies in data blocks, the bytes of the image the root hash was built from, whatever the disk holds and the decoder returns; reads of an undamaged image always succeed |
| BlockGroups.BlockGroup.SetBit | ext4_utils/allocate.c:182-189 | One block goes from clear to set, or it was set and nothing changes |
| BlockGroups.BlockIsDigit | ext4_utils/allocate.c:182-189 | Block b of a group is the binary digit of weight 2^(b mod 8) of byte b / 8 of its bitmap |
| BlockGroups.BlockGroup.Set8Bits | ext4_utils/allocate.c:191-196 | Eight blocks are set, and the result says whether one was set before |
| BlockGroups.BlockGroup.ReserveBlocks | ext4_utils/allocate.c:200-229 | The loops over bits, bytes and bits set exactly the given blocks, and fail if and only if one of them was set |
| BlockGroups.BlockGroup.FreeBlocks | ext4_utils/allocate.c:231-253 | Exactly the given blocks are cleared and counted, and the last chunk that can hold them is trimmed |
| BlockGroups.BlockGroup.constructor | ext4_utils/allocate.c:286-332 | A new group has its headers and the blocks past the end taken, one hole between them, and chunks, bits and count that agree |
| BlockPool.TakeKeepsPool | ext4_utils/allocate.c:414-431 | Taking the start of a hole keeps chunks sorted and disjoint, holes clear, counts right and live regions apart, and the new region is apart from all of them |
| BlockPool.GiveBackKeepsPool | ext4_utils/allocate.c:258-284 | Giving back the end of a live region keeps all of that |
| BlockPool.LiveAvoidsHeaders | ext4_utils/allocate.c:286-332 | No live region reaches into the headers of its group or past its end |
| BlockChoice.ChoiceIsGreedy | ext4_utils/allocate.c:380-412 | The hole searched out holds the whole request, or is a largest one; there is none only if all holes are empty |
| BlockChoice.SmallestChosenIff | ext4_utils/allocate.c:380-407 | The smallest hole that is large enough is chosen if and only if it is a perfect fit, the first hole that is not empty is larger than the request, or a hole of that size follows a larger one or none is larger |
| BlockChoice.SmallestMissed | ext4_utils/allocate.c:380-407 | With holes of 3, 10 and 20 blocks a request of 5 goes to the 20 |
| BlockGreedy.StepSavesOne | ext4_utils/allocate.c:434-458 | After a greedy step, any choice of holes that could hold the request has one hole more than some choice that can hold the rest |
| BlockGreedy.FillingNeeds | ext4_utils/allocate.c:434-458 | Any way to fill a request needs at least as many regions as some choice of holes that is large enough |
| Allocators.Allocator.constructor | ext4_utils/allocate.c:286-332 | Every group is new, agrees with its bitmap, shares no memory with another, and nothing is live |
| Allocators.Allocator.FindHole | ext4_utils/allocate.c:380-413 | The nested scan, which stops at a perfect fit, settles on the hole that a pass over all holes in order settles on |
| Allocators.Allocator.BestFitPartial | ext4_utils/allocate.c:370-432 | One region is taken from that hole, or there is no hole; the error of a block already reserved cannot occur |
| Allocators.Allocator.AllocateBlocks | ext4_utils/allocate.c:434-482 | Succeeds if and only if 0 < len <= the total of all holes; then the lengths sum to len and do not increase, exactly these blocks go from clear to set, the free counts fall by len, all is apart from what was live, and nothing that fills the request has fewer regions; on failure every hole is used up |
| Allocators.Allocator.ReduceAllocation | ext4_utils/allocate.c:258-284 | The last len blocks and no others go free, the rest of the allocation and all others stay live, the groups end as freeing region after region from the back leaves them, and the holes grow by exactly the blocks that were next to a hole when they were freed |
| BlockReturn.AllocateThenFree | ext4_utils/allocate.c:258-284 | An allocation given back in full leaves bitmaps, counts and live regions as they were; the holes lose exactly the regions that started an empty first chunk of their group, so they are as large as before if and only if there is no such region |
| BlockReturn.FirstChunkLost | ext4_utils/allocate.c:240-252 | In a new group with one block to hand out, allocating and freeing it leaves it free in the bitmap and in no hole |
| BlockReturn.FoundAgainIff | ext4_utils/allocate.c:240-252 | Freed blocks lie in a hole again, and the holes grow by them, if and only if they end a chunk they do not start and that is not the last of its group, or start a chunk that is not the first |
| Extents.Allocation.DoSplit | ext4_utils/allocate.c:566-598 | Splitting after some blocks cuts a region in two and moves the iterator, or on a boundary changes nothing |
| Extents.Allocation.ReserveOob | ext4_utils/allocate.c:602-631 | The first blocks go to the other list; on a boundary everything after them goes instead |
| Extents.Allocation.WriteExtents | ext4_utils/extent.c:106-196 | The inode or the extent block describes the regions that stay with the file, up to 16-bit lengths, with the counts the code writes |
| Extents.RoomFits | ext4_utils/extent.c:161-162 | The room for entries is as many of 12 bytes as fit in a block after a header of 12 |
| ExtentTrip.GetBlockList | ext4_utils/ext4fixup.c:476-495 | The reader enters the extents of a tree of any depth in order, and refuses a wrong magic number |
| ExtentTrip.ReadsBackIff | ext4_utils/extent.c:106-180 | Whatever the list held before, the reader fills it with the blocks of the file in order if and only if the file has at most three regions or a first region of two blocks or more, and no region is longer than a 16-bit length |
| ExtentTrip.FourBlocksMisread | ext4_utils/allocate.c:566-598 | Four regions of one block each fit the extent block and do not read back |
| ExtentBacking.DataDistinct | ext4_utils/extent.c:113-116 | No block of the file occurs twice and none is the index block |
| ExtentBacking.AbsoluteApart | ext4_utils/allocate.c:424-430 | Regions that are apart in their groups are apart on the disk |
| ExtentBacking.CreateBackingFile | ext4_utils/extent.c:56-73 | The pieces queued follow each other from the start of the file to its end, one per region |
| ExtentBacking.ByteQueuedOnce | ext4_utils/extent.c:56-73 | Each byte of the file is in exactly one piece, at the place of its block that the list of blocks gives |
| FileExtents.FilledRuns | ext4_utils/allocate.c:424-430 | What the allocator hands out for a request is, counted from the start of the filesystem, never empty, never block 0, within 32 bits and apart |
| FileExtents.SameReduction | ext4_utils/extent.c:107-112 | Giving one block back takes it from the end of the last region |
| FileExtents.EnoughBlocks | ext4_utils/extent.c:78 | A file gets the least number of blocks that holds its bytes |
| FileExtents.TakeBlocks | ext4_utils/extent.c:75-117 | With room for the blocks of the file and one more, exactly the blocks of the file stay allocated, and one more if it has more than three regions, in the fewest regions; without room it fails |
| FileExtents.Describe | ext4_utils/extent.c:106-196 | The regions are described, or turned down, by their number alone; the list kept is what stays allocated; with blocks of up to 4096 bytes the file reads back if and only if it has at most three regions or a first one of two blocks or more |
| FileExtents.AllocateFile | ext4_utils/extent.c:226-255 | From a length in bytes: there is no space if and only if the holes have fewer blocks than the file and one more; otherwise the blocks are taken and described as above |
| FileExtents.WriteThenRead | ext4_utils/ext4fixup.c:476-495 | The reader gets from the extents of a file just allocated, if they can be read back, the list of its blocks, which are distinct and none of them the index block, and every byte x of the file is queued exactly once, for its place in block list[x / block size] |
| DirLayout.PassAgrees | ext4_utils/contents.c:48-82 | The pass that computes the size and the writer put every entry at the same place, within one block |
| DirLayout.BlockStarts | ext4_utils/contents.c:70-79 | Every block of a finished directory starts with an entry, so records tile each block |
| DirLayout.AddPacked | ext4_utils/contents.c:55-82 | Adding an entry keeps records aligned to 4 bytes and as short as their names allow, but for a last record of a block whose rest is too small for the next |
| Directory.DentrySize | ext4_utils/contents.c:48-62 | The loop computes the size that the layout needs |
| Directory.AddDentry | ext4_utils/contents.c:64-92 | The bytes of all entries, the new one included, are in place, each record starts where the one before ends, and the records stay packed |
| Directory.MakeDirectory | ext4_utils/contents.c:100-173 | The finished buffer holds the entries in order, fills whole blocks exactly, and the check for an entry past the end never fires; records start and end at multiples of 4, each as short as its name allows unless it reaches to the end of its block, and then only because the next one did not fit there; all other bytes are zero |
| Directory.Walk | ext4_utils/ext4fixup.c:580-669 | Following record lengths meets the entries in order up to the first without an inode |
| Directory.MakeAndWalk | ext4_utils/contents.c:100-173 | Once inodes are filled in, a walk of a new directory yields itself, its parent and its files in order, with inodes, names and types |
| RangeMaps.ProperIsRuns | perfprofd/map_utils.h:37-99 | Entries that keep the invariant are exactly the maximal runs of one symbol, each under its least offset |
| RangeMaps.RangeMap.GetLeq | perfprofd/map_utils.h:12-23 | The greatest key that is at most the value, or none |
| RangeMaps.RangeMap.ExtendLeft | perfprofd/map_utils.h:115-121 | The entry moves to the earlier key with one offset more and the invariant holds |
| RangeMaps.RangeMap.Insert | perfprofd/map_utils.h:37-99 | The offset gets the symbol unless it has one, and the entries are the maximal runs again |
| RangeMaps.Build | perfprofd/map_utils.h:37-99 | After any sequence of inserts the entries are the maximal runs of the map in which the first symbol wins |
| RangeMaps.OrderIrrelevant | perfprofd/map_utils.h:37-99 | Without conflicts the result does not depend on the order of the inserts |
| RangeMaps.RunsApart | perfprofd/map_utils.h:37-99 | Ranges of different entries do not overlap |
| Sha1Block.SwapBytes | ext4_utils/sha1.c:39-40 | Two rotations and masks turn a little-endian word into the big-endian one |
| Sha1Block.MixIsF | ext4_utils/sha1.c:50-54 | The functions of the four round macros are those of section 4.1.1 of FIPS 180-4 |
| Sha1Block.KIsRoot | ext4_utils/sha1.c:50-54 | The round constants of section 4.2.1 are the integer parts of 2^30 times the square roots of 2, 3, 5 and 10 |
| Sha1Block.LiteralIsK | ext4_utils/sha1.c:50-54 | The constants in the macros are these |
| Sha1Block.RolRotates | ext4_utils/sha1.c:32 | Two shifts and an or rotate a word |
| Sha1Block.LaterWords | ext4_utils/sha1.c:44-45 | The buffer of 16 words that is overwritten in turn holds the last 16 words of the 80-word schedule |
| Sha1Block.Step | ext4_utils/sha1.c:50-54 | A macro on five variables whose roles rotate is one round of section 6.1.2 |
| Sha1Block.Transform | ext4_utils/sha1.c:123-189 | The unrolled code computes the hash value of section 6.1.2 |
| Sha1.CountIff | ext4_utils/sha1.c:224-226 | The high word of the bit count is right after an update if and only if the update is below 2^29 bytes or carries out of the low word |
| Sha1.InitWords | ext4_utils/sha1.c:195-205 | The initial hash value is the words of the bytes 01 23 45 67 89 ab cd ef and back, then f0 e1 d2 c3, lowest byte first |
| Sha1.BytesOfNumber | ext4_utils/sha1.c:249-252 | The bytes that the length is written as are the ones that stand for it, the highest first |
| Sha1.LongUpdate | ext4_utils/sha1.c:224-226 | One update of 2^29 bytes to a new context leaves its high word wrong |
| Sha1.Context.Update | ext4_utils/sha1.c:214-238 | State and buffer are those of the whole message fed so far, for any split |
| Sha1.Context.Final | ext4_utils/sha1.c:244-268 | The digest is that of the message with the padding of section 5.1.1, and of its 64-bit length if the count is right |
| Sha1.HashParts | ext4_utils/sha1.c:195-268 | For any message below 2^61 bytes and any split into updates below 2^29 bytes the digest is that of FIPS 180-4 |
| F2fsScan.FindEntry | f2fs_utils/f2fs_sparseblock.c:505-521 | The first matching journal entry overrides the table |
| F2fsScan.TestBitIsDigit | f2fs_utils/f2fs_sparseblock.c:478-486 | Bit nr of a map is the binary digit of weight 2^(7 - nr mod 8) of its byte nr / 8 |
| F2fsScan.UsedMeans | f2fs_utils/f2fs_sparseblock.c:500-531 | Block o of segment s is used if and only if bit o is set in the map of the first journal entry for s or, without one, of entry s mod 55 of block s / 55 of the table |
| F2fsScan.RunOnUsedBlocks | f2fs_utils/f2fs_sparseblock.c:488-539 | With consistent counts the calls and the outcome are those of the scan of every block; in any case the calls are in order on exactly the used blocks that are not passed over, up to the first failure |
| F2fsScan.NaiveCalls | f2fs_utils/f2fs_sparseblock.c:488-539 | The scan of every block calls on exactly the used blocks from the start, in order, and stops at the first call that fails |
| F2fsScan.ExactIffConsistent | f2fs_utils/f2fs_sparseblock.c:525-528 | A scan without failures calls on exactly the used blocks if and only if no segment it passes over has a valid block |
| MmapSplit.SliceFits | ioshark/ioshark_bench_mmap.c:65-66 | Below 2^35 bytes the slice fits its int and seventeen slices are enough |
| MmapSplit.SliceMeans | ioshark/ioshark_bench_mmap.c:65-66 | The slice is a sixteenth of the mapping rounded down, at least 16 KB, and from 2^35 bytes on what a 32-bit int keeps of it, read as a 64-bit number |
| MmapSplit.IoState.Setup | ioshark/ioshark_bench_mmap.c:57-76 | The slices cover the mapping once and their lengths sum to the residual; it fails if and only if seventeen slices are too few |
| MmapSplit.IoState.GetNext | ioshark/ioshark_bench_mmap.c:78-103 | For any random numbers the I/O is the start of a slot, and what is issued and what is left still cover the mapping once |
| MmapSplit.HandleMmap | ioshark/ioshark_bench_mmap.c:164-200 | Below 2^35 bytes and for any random numbers the loop ends and the I/Os cover each byte of the mapping exactly once and none outside, at most 16 KB each; a mapping of at most 16 KB is one I/O |
| MmapSplit.Inside | ioshark/ioshark_bench_mmap.c:194-196 | No I/O reaches outside the mapping |

## Left out

- Fixup.FixWithRestarts: a directory is a list of entries in blocks and no two directories share a block; inode numbers and counts are unbounded but for the mark in the top bit; the repair of a short last record and the flag for a dry run are not modelled, and the places where the tool can be told to stop are power cuts.
- Verity.FecHandle.VerifyAndRead: says nothing of reads after a tree that was accepted only with corrections; assumes that no other block has the hash of a block of the image or its tree, and a tree below 4 GB.
- VeritySearch.FindVerityOffset: requires a file below 2^63 bytes, which is what an off64_t can hold.
- Allocators.Allocator.AllocateBlocks: lists are sequences and regions count blocks from the start of their group; a group has eight blocks per byte of its bitmap; counters are unbounded; the count of data blocks used is not modelled.
- FileExtents.AllocateFile: no preallocated regions and no list of them by file name; the number of blocks is not reduced to 32 bits; requires blocks of 60 to 16384 bytes, so that a region has fewer than 2^32 bytes; `Overruns` stands for the writes past the buffer that are named below.
- ExtentTrip.GetBlockList: requires an extent tree that ends within the list, since the code does not check it.
- FixupDisk.FixedKeepsPaths: says nothing of a path through a directory that only entries of another file type name, since the tool does not go into it.
- Extents.Allocation.WriteExtents: no preallocated regions; between (block size - 12) / 12 and the block size regions the code writes past its buffer, which is excluded; the size and sector fields of the inode are not modelled.
- Sha1.Context.Update: requires fewer than 2^32 - 64 bytes, so that the sum with the bytes in the buffer does not wrap.
- Directory.MakeAndWalk: names of 1 to 255 bytes and block sizes that a 16-bit record length can span.
- F2fsScan.RunOnUsedBlocks: reading the checkpoint, the table and the journal from the device is not modelled; the number of table entries per block, from a header that is not part of this repository, is a constant.
- ReplayEnds.ParallelIsSequential: requires a valid log and a table and thread table with room; each allocating call is one allocation, a condition variable is a wait for its flag, and times and memory reports are not modelled.
- The Reed-Solomon code, its interleaving and the worker threads of libfec.
- Indirect blocks, extended attributes, checksums, sparse-file output and the command lines of the ext4 tools.
- Everything else in the repository: benchmarks, other parsers, protocol buffers, boot and storage utilities.
