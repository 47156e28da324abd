# Verified model of five parts of libogc

This project models, in Dafny 4.11, the parts of the library whose correctness rests on invariants that no
single function shows, and proves those invariants and what follows from them. `dafny verify dfyconfig.toml`
checks the whole project.

**The general-purpose allocator** (`libc/malloc.c`, built with 32-byte alignment, footers, no mmap, 4-byte
sizes). Files, from the bottom up: `Words`, `Bitmaps`, `TreeIndex` (words, bit maps, the size classes of the
trees), `Rings`, `Tries` (the linked lists and bitwise tries of free chunks), `Layout`, `Bins`, `LargeBins`,
`Search` (what it means that the bins hold a set of chunks, what each way of linking and unlinking does to
that, and why the searches miss nothing), `BinOps` (the bins as they are updated in place), `Tiling`, `Heap`,
`HeapSteps`, `MallocSteps` (chunks tiling the segment, their boundary tags, the heap invariant, and what every
rewriting of chunks keeps), `Payload`, `Alignment` (a program's bytes; the arithmetic of aligned requests), and
`Malloc` (the allocator itself). The heap invariant `Heap.Sane`, with `Bins.BinsOK`, is what the debug checkers
of the source verify (`libc/malloc.c:3308-3571`): chunks tile the segment up to top, head and foot words agree
with their neighbours, no free chunk lies next to another or to top, every free chunk but the designated victim
is in exactly the one bin for its size, the tries are well formed and the two maps mark exactly the bins in
use. Every operation of `Malloc.MallocState` keeps it, for every sequence of calls, and states what becomes of
the live blocks (`Tiling.Live`) and of their contents (`Heap.KeptFor`). Memory is a total map of words: the
eight words of a 32-byte granule are its foot, head and link words, whoever uses them.

**The memory-card file system** (`libogc/card.c`): `Fat` (chain allocation and freeing, in place on the words
of the table's sector), `Commit` (the two copies of the table and of the directory, their checks, and commits
interrupted at any point), `Files` (create and delete as chains of commits), `Transfer` (seek, write and read
through the callbacks), `Cipher` (the shift-register cipher of the unlock sequence).

**The ARAM DMA queue** (`libogc/arqueue.c`): `DmaQueue`. A run is a log of posts, transfers, interrupts and
callbacks; `DmaQueue.Proper` says event by event what is allowed, without reference to the program's state, and
every operation of `ArQueue` keeps the log proper.

**The ISO 9660 read path** (`libiso9660/iso9660.c`): `Iso9660`. Logical sectors are those of ECMA-119, section 6.1.2.

**The MP3 output ring** (`libasnd/mp3player.c`): `OutputRing`.

## Where the code differs from its documentation or from what a caller would expect

* The loop that rounds an alignment up to a power of two never ends for alignments above 2^31
  (`Alignment.RoundingEnds`). The second candidate position of `internal_memalign` is never used
  with 32-byte alignment (`Alignment.AlignedSpot`).
* Update counters are compared as unsigned 16-bit numbers: a commit is found again by the next mount if and
  only if its counter did not wrap (`Commit.NewerRecovered`, `Commit.TwoCopies.WriteDone`). A formatted directory
  starts at 0xffff, so its first update is lost by a mount that follows it (`Commit.FirstUpdateLost`). A create
  whose directory counter wraps only leaks blocks, but a delete whose directory counter wraps brings the entry back
  with its chain freed, and a create whose table counter wraps leaves an entry without a chain; exactly when this
  happens is `Files.CardFiles.FoundAfter`.
* `CARD_Create` with a bad size leaves the card busy until it is unmounted: exactly then a refused create keeps later
  creates and deletes from working (`Files.CardFiles.Create`, `Files.CardFiles.Delete`).
* A card write of length 0 erases and writes one sector, so that its buffer must hold one (the precondition of
  `Transfer.CardTransfer.Write`); every other accepted write stores its length (`Transfer.CardTransfer.StoresItsLength`).
* A card read at an offset that is not sector-aligned returns, for the first block, the bytes at the beginning of that
  block. Reads return the file's bytes for all contents if and only if the offset is sector-aligned
  (`Transfer.CardTransfer.AlignedReads`).

## Model

| member | source | states |
|---|---|---|
| Layout.RequestFits | libc/malloc.c:2316-2325 | Every request below MAX_REQUEST is padded to a multiple of 32 that covers the request and its 8 bytes of overhead and leaves less than one minimum chunk over; the padded size does not wrap. |
| Layout.SmallRequest | libc/malloc.c:2667-2669 | The test against MAX_SMALL_REQUEST is exactly the test whether the padded size belongs in a small bin. |
| Words.ShiftRegister | libc/malloc.c:4532-4546 | Testing the sign bit of the size shifted left n times tests bit 31 - n of the size: the shift register of the trie walks. |
| TreeIndex.IndexRange | libc/malloc.c:2927-3001 | compute_tree_index and minsize_for_tree_index agree: a tree bin holds exactly the sizes from its minimum up to, not including, the next bin's. |
| TreeIndex.IndexMonotone | libc/malloc.c:2927-2938 | A larger size never falls into a lower tree bin. |
| TreeIndex.SameBinAgrees | libc/malloc.c:2994-2996 | The sizes of one tree bin agree on all bits above those the trie of the bin inspects. |
| Bitmaps.LeastMarked | libc/malloc.c:3019-3062 | least_bit and compute_bit2idx find the lowest marked bin of a non-zero map. |
| Bitmaps.NextMarked | libc/malloc.c:4550-4558 | left_bits, least_bit and compute_bit2idx find the first non-empty bin above a given one, or report that there is none. |
| Bitmaps.FirstTwoBins | libc/malloc.c:4668-4671 | The test on the two low bits of the shifted small map tells whether the exact bin or the next one is non-empty, and which. |
| Bitmaps.FirstBinAbove | libc/malloc.c:4687-4689 | The double masking of the small map finds the first non-empty small bin above the exact one. |
| Rings.InsertAfterHead | libc/malloc.c:3659-3675 | Linking a chunk in behind a bin header or trie node keeps all rings well linked, in both directions, with the chunk in second place. |
| Rings.RemoveMember | libc/malloc.c:3678-3700 | Unlinking a chunk through its two neighbours keeps all rings well linked and removes exactly that chunk. |
| Rings.RemoveHead | libc/malloc.c:3808-3814 | Unlinking the chunk a same-size ring hangs on makes its predecessor the chunk the ring hangs on, and keeps all rings. |
| Tries.RootExists | libc/malloc.c:3441-3449 | Every trie node lies below the root of the bin its size belongs to. |
| Tries.SubSplit | libc/malloc.c:3390-3438 | A proper descendant lies below the child that the next bit of its size selects. |
| Tries.PathEnd | libc/malloc.c:3751-3763 | Where the insertion walk runs out of children no node of the size exists, and the free slot is the size's own. |
| Tries.AddChild | libc/malloc.c:3755-3763 | Hanging a new leaf into that slot keeps the trie: parents, children, shared size bits, one node per size. |
| Tries.RemoveLeaf | libc/malloc.c:3835-3846 | Cutting a leaf off keeps the trie for the remaining nodes. |
| Tries.ReplaceNode | libc/malloc.c:3849-3873 | Putting a ring neighbour or a cut-off leaf in an inner node's place, with parent and children relinked, keeps the trie. |
| LargeBins.FirstLargeOK | libc/malloc.c:3742-3749 | A chunk inserted into an empty tree bin becomes its root; bins, rings and maps stay right. |
| LargeBins.LeafLargeOK | libc/malloc.c:3754-3763 | A chunk of a new size becomes a leaf; bins, rings and maps stay right. |
| LargeBins.ChainedLargeOK | libc/malloc.c:3770-3777 | A chunk of a size already present joins that size's ring and no trie link changes meaning. |
| LargeBins.SharedOutOK | libc/malloc.c:3808-3818 | Unlinking a trie node that shares its size hands its place to a chunk of the same ring. |
| LargeBins.InnerOutOK | libc/malloc.c:3819-3834 | Unlinking the only chunk of an inner node's size moves the rightmost leaf below it into its place. |
| Search.WrapRejects | libc/malloc.c:4534-4540 | A chunk smaller than the request is rejected by unsigned wrap-around alone: its wrapped excess is below the best so far exactly if it fits and is better. |
| Search.WalkEnds | libc/malloc.c:4541-4551 | When the walk along the request's own path ends, every better chunk of the bin lies in the deepest right subtree not taken. |
| Search.SearchDone | libc/malloc.c:4561-4568 | When no subtree is left the candidate is a smallest sufficient chunk over all tree bins, or none suffices. |
| BinOps.FreeBins.constructor | libc/malloc.c:4000-4007 | Every small bin header is linked to itself, no tree bin has a root, and the empty bins are valid whatever the memory held before. |
| BinOps.FreeBins.InsertSmallChunk | libc/malloc.c:3659-3675 | Adds exactly one chunk to the binned set, keeps all bins valid, and writes no link word outside bin headers, binned chunks and the new chunk. |
| BinOps.FreeBins.UnlinkFirstSmallChunk | libc/malloc.c:3704-3719 | Takes a chunk of the bin's size out of a marked small bin and nothing else. |
| BinOps.FreeBins.InsertLargeChunk | libc/malloc.c:3737-3786 | Adds exactly one chunk to the tries' set, keeps all bins valid, and writes no foreign link word. |
| BinOps.FreeBins.RightmostLeaf | libc/malloc.c:3821-3827 | The descent ends at a leaf below the node, and finds the slot that links to it. |
| BinOps.FreeBins.UnlinkLargeChunk | libc/malloc.c:3805-3874 | Removes exactly one chunk, in every case of the macro (same-size ring, inner node, leaf), keeps all bins valid, and writes no foreign link word. |
| BinOps.FreeBins.FindBestFit | libc/malloc.c:4523-4568 | The search of tmalloc_large returns a smallest chunk of sufficient size over all tree bins, or none if there is none, with its exact excess. |
| BinOps.FreeBins.FindSmallest | libc/malloc.c:4594-4611 | The search of tmalloc_small returns a smallest chunk of all tree bins. |
| BinOps.LinkedBothWays | libc/malloc.c:3366-3367 | fd and bk of every binned chunk lead back to it. |
| Tiling.LiveDisjoint | libc/malloc.c:3376-3387 | Two live blocks share no byte. |
| Heap.PayloadKept | libc/malloc.c:2146-2157 | What the operations keep, granule by granule, is every word of the block a program sees. |
| Malloc.MallocState.constructor | libc/malloc.c:3985-3997 | The first segment becomes one top chunk at an aligned address: the heap invariant holds and nothing is live. |
| Malloc.MallocState.TmallocLarge | libc/malloc.c:4523-4591 | Uses a best-fitting binned chunk, or leaves everything unchanged exactly when no binned chunk fits or the designated victim fits at least as tightly. |
| MallocSteps.VersusDv | libc/malloc.c:4570-4571 | The comparison of wrapped excesses prefers the binned chunk exactly if the designated victim is too small or larger than it. |
| Malloc.MallocState.TmallocSmall | libc/malloc.c:4594-4629 | With no small chunk that fits, uses a smallest sufficient binned chunk; the rest becomes the designated victim, and the old one, which is small, goes to its bin. |
| Malloc.MallocState.SplitSmall | libc/malloc.c:4684-4709 | Splits the first chunk of the next non-empty small bin without a test; the rest always is a whole chunk. |
| Malloc.MallocState.ReplaceDv | libc/malloc.c:3723-3732 | Exchanges the designated victim; it is only ever reached with a small old one. |
| Malloc.MallocState.SysAlloc | libc/malloc.c:4126-4342 | Fails, changing nothing, exactly if the system refuses or the request wraps around, needs half the address space or would pass its end; otherwise grows the segment in place and serves the request from top. |
| Malloc.MallocState.Malloc | libc/malloc.c:4633-4767 | Returns 0 and changes nothing exactly when nothing free fits and the space cannot grow; otherwise adds exactly one block of the padded size, chosen by the documented policy, keeps the heap invariant, and keeps every byte of every live block. |
| Malloc.MallocState.Dispose | libc/malloc.c:4452-4518 | Frees exactly one block, merging it with free neighbours, the designated victim or top; keeps the invariant and every other block's bytes. |
| Malloc.MallocState.SysTrim | libc/malloc.c:4384-4448 | Gives back whole pages, leaving top more than the segment overhead and at most a page more; live blocks and their bytes stay. |
| Malloc.MallocState.FootersDecode | libc/malloc.c:3159-3164 | The foot word behind every live block decodes to the owning malloc_state. |
| Words.XorTwice | libc/malloc.c:3159-3164 | Masking a word twice with the same magic gives the word back. |
| Malloc.MallocState.Free | libc/malloc.c:4771-4878 | Removes exactly the given block from the live ones, never reports a usage error for a live block, keeps the invariant and every other block's bytes; free of null does nothing. |
| Malloc.MallocState.TryRealloc | libc/malloc.c:4900-4977 | Resizes in place exactly when the block, or the block with the top, victim or free chunk behind it, has the room; then the block has exactly the padded size, and the common part of its contents and all other blocks stay. |
| Malloc.MallocState.Realloc | libc/malloc.c:5274-5317 | On every path the new block has the padded size and the first min(old usable, new) bytes of the old one, and all other blocks and their bytes stay. Returns 0 and changes nothing exactly when there is no room in place and malloc refuses the new size. |
| Malloc.MallocState.Copy | libc/malloc.c:5309-5310 | memcpy between two live blocks changes the destination's bytes and no word the allocator or another block relies on. |
| Payload.ReadByte | libc/malloc.c:5310 | A byte store changes its byte and no other byte of memory. |
| Alignment.PowerTest | libc/malloc.c:4983 | The test a & (a - 1) singles out the powers of two. |
| Alignment.RoundingEnds | libc/malloc.c:4983-4987 | The loop that rounds an alignment up ends exactly for alignments up to 2^31; beyond, its variable wraps to 0 and stays there. |
| Alignment.RoundUp | libc/malloc.c:4981-4987 | The rounded alignment is the least power of two that is at least the request and at least a minimum chunk. |
| Alignment.AlignedSpot | libc/malloc.c:5001-5017 | The over-allocated chunk contains an aligned position whose leader is a whole chunk, with more than the request and a chunk behind it; the second candidate position is never needed. |
| Alignment.AlignedForPower | libc/malloc.c:5045 | For an alignment that is a power of two the result is a multiple of it. |
| Malloc.MallocState.AlignedMalloc | libc/malloc.c:4979-5050 | Returns an aligned block of exactly the padded size, having given leader and tail back; nothing else changes among the live blocks. Returns 0 and changes nothing exactly when the request is too large for the rounded alignment or the over-allocation is refused. |
| Malloc.MallocState.Memalign | libc/malloc.c:5350-5355 | The exported form, with the same answers: small alignments go to malloc, which already aligns to 32. |
| Malloc.MallocState.TraverseAndCheck | libc/malloc.c:3512-3540 | The walk from the base reaches top, every check of it passes, the searches of the bins for each chunk among them, and the sizes add up to the segment. |
| BinOps.FreeBins.BinFind | libc/malloc.c:3476-3509 | bin_find finds a chunk, in its ring or down the trie of its size, exactly if it is in the bins. |
| Malloc.MallocState.LiveBlock | libc/malloc.c:3308-3311 | Every live block is 32-byte aligned, inside the segment, and apart from all others. |
| Malloc.MallocState.UsableSize | libc/malloc.c:3376-3387 | The usable bytes of a block cover the request and exceed it by less than a minimum chunk. |
| Cipher.ShiftRight | libogc/card.c:2092-2110 | exnor_1st turns the right-shifting register b times. |
| Cipher.ShiftLeft | libogc/card.c:2112-2130 | exnor turns the left-shifting register b times. |
| Cipher.Reverse | libogc/card.c:2132-2159 | bitrev's loop computes the mirror image of its argument. |
| Cipher.MirrorBit | libogc/card.c:2132-2159 | bitrev moves bit k to bit 31 - k. |
| Cipher.MirrorTwice | libogc/card.c:2132-2159 | bitrev is its own inverse. |
| Cipher.RegistersMirror | libogc/card.c:2092-2159 | bitrev(exnor_1st(a, n)) == exnor(bitrev(a), n) for all a and n. |
| Cipher.TurnLeftSum | libogc/card.c:2112-2130 | exnor by m and then by n is exnor by m + n. |
| Fat.AllocBlock | libogc/card.c:745-806 | Reports too little space, or a broken card exactly if the free count promises more than there is; otherwise threads exactly the first free blocks after the last allocation into one complete chain and lowers the free count by their number. With a right free count it never reports a broken card, and the count stays right. |
| Fat.AllocCounted | libogc/card.c:764-806 | Threading a chain keeps the free count right. |
| Fat.FreeBlock | libogc/card.c:808-836 | Ends for every table, cyclic ones included; succeeds exactly if a complete chain starts at the block, and then clears exactly its entries and raises the count by their number. |
| Fat.SameChain | libogc/card.c:808-836 | At most one complete chain starts at a block. |
| Fat.FreeUndoesAlloc | libogc/card.c:745-836 | Freeing what was just allocated restores every table entry and the free count. |
| Fat.FreeCounted | libogc/card.c:808-836 | Freeing a chain keeps a right free count right. |
| Commit.Checksum | libogc/card.c:274-289 | The loop computes the two 16-bit sums, of which neither is ever 0xffff. |
| Commit.ErasedFails | libogc/card.c:274-289 | An erased sector never passes the checks made at mount. |
| Commit.TwoCopies.Check | libogc/card.c:610-707 | checkdir and checkfat count the bad copies and leave both buffers with the version the two sectors stand for. |
| Commit.SealedPasses | libogc/card.c:1861-1898 | A version whose counter was stepped and whose checksums were set passes the checks. |
| Commit.TwoCopies.Update | libogc/card.c:1861-1898 | Starting a commit, with any counter and whatever a mount would find now, touches only the current copy, while the other sector holds the last committed version; the new version passes the checks and its counter is the next one. |
| Commit.TwoCopies.EraseDone | libogc/card.c:1772-1816 | The commit's erase affects only the current sector; a version from before a wrap-around, if one was still there, is gone with it. |
| Commit.TwoCopies.WriteDone | libogc/card.c:1549-1610 | After the write the new version is in both copies and the copies are flipped; the version before hides it from a mount if and only if the counter wrapped around. |
| Commit.TwoCopies.Remount | libogc/card.c:610-707 | Power loss at any point of any run of commits: the mount finds the last committed version, or the new one if and only if its sector was complete and its counter did not wrap around, or the one before if and only if the last counter did and that sector is still there. |
| Commit.TwoCopies.SurvivorIsRecovered | libogc/card.c:693-706 | Between commits, what a mount finds is what the comparison of the two counters and checksums chooses. |
| Commit.NewerRecovered | libogc/card.c:639-641 | A mount prefers the newer of two good copies if and only if the update counter did not wrap. |
| Commit.FormattedPasses | libogc/card.c:1706-1724 | The tables and directories written by formatting pass the checks. |
| Commit.FirstUpdateLost | libogc/card.c:1706-1712 | The first update of a freshly formatted directory is lost by a mount that follows it, because its counter wraps. |
| Files.AfterAlloc | libogc/card.c:745-806 | Allocating for a new file leaves the chains of all files complete and takes none of their blocks. |
| Files.AfterFree | libogc/card.c:808-836 | Freeing a deleted file's chain leaves the chains of all other files complete. |
| Files.CardFiles.Create | libogc/card.c:2681-2746 | Refuses exactly for a busy card, a bad size, a taken name, a full directory or too little space, in this order; otherwise starts to commit the table. A refused create leaves the card busy if and only if it was busy or the size is bad. |
| Files.CardFiles.CreateTableWritten | libogc/card.c:1818-1859 | Only after the table is committed is the entry filled and the directory's commit begun. |
| Files.CardFiles.CreateDirectoryWritten | libogc/card.c:1581-1610 | The committed directory then has the new file with its own complete chain. |
| Files.CardFiles.Delete | libogc/card.c:2904-2934 | Clears the entry found and starts to commit the directory before the table. |
| Files.CardFiles.DeleteDirectoryWritten | libogc/card.c:1300-1316 | Only after the directory is committed is the chain freed and the table's commit begun. |
| Files.CardFiles.PowerLoss | libogc/card.c:653-707 | Power loss at any point of any run of creates and deletes, with any counters: the directory and table found are consistent unless one of them is from before a wrap-around; for a create or delete that began with the committed versions in view, they are consistent if and only if the directory found does not list the file or the table found holds its chain. |
| Files.CardFiles.FoundAfter | libogc/card.c:695-706 | After a create, a mount finds a consistent pair if and only if the counter of the table did not wrap around or that of the directory did too; after a delete, if and only if the counter of the directory did not or that of the table did too. |
| Transfer.CardTransfer.Seek | libogc/card.c:551-608 | From wherever the file is positioned, the walk ends at the block of the new position; it refuses exactly the ranges outside the file. |
| Transfer.CardTransfer.Write | libogc/card.c:2648-2669 | For sector-aligned ranges the file holds the buffer's bytes from the position on and is otherwise as it was, and no block of another file changes; other ranges are refused and change nothing. |
| Transfer.CardTransfer.StoresItsLength | libogc/card.c:2656-2666 | A write that is not refused stores as many bytes as it was asked to if and only if that number is not 0; a write of length 0 stores one whole sector. |
| Transfer.CardTransfer.Read | libogc/card.c:2614-2636 | The callbacks end for every accepted range, with the file's bytes from the second block on and, for the first block, the bytes at its beginning: the file's bytes throughout when the position is sector-aligned. Nothing else of the buffer changes. |
| Transfer.CardTransfer.WriteThenRead | libogc/card.c:2614-2669 | Reading any part of what was written from a sector boundary on returns it. |
| Transfer.CardTransfer.AlignedReads | libogc/card.c:2614-2636 | A read returns the file's bytes at its position, whatever the blocks hold, if and only if the position is sector-aligned. |
| Transfer.CardTransfer.OnlyFirstBlock | libogc/card.c:1251-1297 | At any position, what comes from the blocks after the first is the file's, and what comes from the first block are the bytes at its beginning. |
| DmaQueue.OneAtATime | libogc/arqueue.c:52-66 | At most one transfer is outstanding in every run. |
| DmaQueue.SegmentsTile | libogc/arqueue.c:77-102 | The transfers of a request tile what has been transferred of it, in order and without gap, and at its callback all of it. |
| DmaQueue.FirstInFirstOut | libogc/arqueue.c:52-102 | A request begins only after all earlier ones of its priority have been called back. |
| DmaQueue.PiecesIs | libogc/arqueue.c:93-101 | The number of pieces of a request is its length divided by the chunk size, rounded up, and at least 1. |
| DmaQueue.ArQueue.SetChunkSize | libogc/arqueue.c:162-168 | The chunk size is rounded up to a multiple of 32; it becomes 0 exactly for 0 and where the sum wraps. |
| DmaQueue.ArQueue.Post | libogc/arqueue.c:188-211 | Posting, also from within a callback, keeps the run proper, adds exactly the request's interrupts to those left, and starts transfers by the queue's chunk size only. |
| DmaQueue.ArQueue.TransferDone | libogc/arqueue.c:104-119 | The interrupt credits the right request, keeps the run proper (one callback per request, after its last transfer; no low transfer while a high request waits; low transfers of at most the queue's chunk size), and leaves exactly one interrupt less. |
| DmaQueue.ArQueue.Drain | libogc/arqueue.c:104-119 | Without further posts the queue drains in exactly as many interrupts as counted, and every request has had its callback. |
| Iso9660.Mount.constructor | libiso9660/iso9660.c:942-963 | A mount begins with an empty cache, although the volume descriptors were read into its buffer. |
| Iso9660.Mount.ReadVolumeDescriptor | libiso9660/iso9660.c:858-877 | Finds the first sector from 16 on with the signature and the type asked for, unless a read fails or a terminator comes before it; says which of these ended the search; the cache stays empty. |
| Iso9660.Mount.ReadOnce | libiso9660/iso9660.c:116-140 | Hit or miss, the bytes returned are the disc's; the cache is true afterwards, also after a failure; a hit asks the drive for nothing. |
| Iso9660.Mount.ReadAll | libiso9660/iso9660.c:144-159 | Terminates with all the disc's bytes of the range, unless the drive fails. |
| Iso9660.OpenFile.Read | libiso9660/iso9660.c:491-528 | Returns exactly the file's bytes from the position to the end of the request or of the file, and advances by their number; a failure leaves the position. |
| OutputRing.UsedAndFree | libasnd/mp3player.c:116-124 | Wherever the positions are, used and free bytes add up to one less than the buffer's size. |
| OutputRing.PutOne | libasnd/mp3player.c:172-181 | A word put behind the unread ones is appended and overwrites none of them. |
| OutputRing.GetOne | libasnd/mp3player.c:141-150 | A word taken is the oldest unread one. |
| OutputRing.WrapAround | libasnd/mp3player.c:140-150 | A position one past the end means the same as one at the beginning. |
| OutputRing.OutBuffer.Get | libasnd/mp3player.c:126-160 | Takes the oldest min(asked, used) bytes in order, in one or two pieces. |
| OutputRing.OutBuffer.Put | libasnd/mp3player.c:162-200 | Waits while there is too little space, and then appends its data whatever the audio interrupt takes meanwhile, between any two words and at the end of the buffer: what was taken and what is unread is always what was put. It starts at once if there is space, and never if the data is larger than the buffer. |

## Left out

- Several segments (`add_segment`, `prepend_alloc`, non-contiguous system memory) and mmap: the allocator is modelled over one segment that grows and shrinks at its end.
- Malloc.MallocState.constructor: the overhead word that `init_top` writes behind top is not modelled, here and where top is resized; only a debug check reads it.
- Footprint statistics and limits, locks, mallopt, calloc, the mspace routines and the corruption-abort paths of the allocator.
- The addresses of the static `malloc_state` and of the first segment are a fixed layout with the state below the heap.
- Malloc.MallocState.SysAlloc: `granted` stands for the system's answer; a partial answer that a second request would complete is not modelled.
- Malloc.MallocState.AlignedMalloc: requires an alignment of at most 2^31, because the source terminates for no larger one.
- Corrupted heaps, double frees and frees of foreign addresses: operations are stated for live blocks.
- EXI transfers, DSP unlock, alarms, retries, reported I/O errors, attach and detach, and the SRAM of the memory card; a card command completes or power is lost.
- Commit.TwoCopies.Remount: a sector whose erasing or writing was cut short is assumed to fail the checks unless it holds the old or the new version in full.
- Fat.FreeBlock: requires the first block to lie in the data area, as every block of a consistent directory does; the source indexes outside the entries of its table otherwise.
- `__card_verify` accepts a card with up to two bad copies in all, also if both copies of the table are the bad ones; only the checks of the single copies are modelled.
- Files.CardFiles.PowerLoss: for a create or delete that begins while a version from before a wrap-around is still in view, the versions found are stated, but whether they are consistent only if neither is from before the wrap-around.
- Files.CardFiles.Create: names are compared as 32 bytes, for callers that set no game code; strncmp's stop at the end of the string is not modelled, nor are icon data and the other status fields.
- The directory update that stores the time at the end of a write; it changes no block and no chain.
- Transfer.CardTransfer.Seek: offsets and lengths are non-negative and their sum does not overflow 32 bits.
- DmaQueue.ArQueue.Post: a request block is a value with a ticket number, so posting one block twice while it is queued is not modelled; addresses do not wrap. ARQ_FlushQueue, ARQ_RemoveRequest and ARQ_RemoveOwnerRequest are left out.
- Iso9660.Mount.ReadOnce: requires sector numbers, with sixteen sectors to spare, below 2^32. Path tables, directories and names are left out.
- OutputRing.OutBuffer.Put: the decoder's sleep is the list of the interrupts that end it; lengths are whole words. MAD decoding, the equaliser and sound calls are left out.
- audio.c, cond.c, conf.c, console, gecko USB, the network and the module player of the library.
