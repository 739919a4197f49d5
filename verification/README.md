# OSFIX kernel: verified models

OSFIX is a small x86-64 kernel. This project models its hardest parts in Dafny and proves
what they are for:

- the TLSF heap (`Tlsf*.dfy`, over `Shifts`, `Bits`): in-band headers, two-level bitmaps,
  free lists, splitting and merging, down to the bytes that callers store;
- the buddy page allocator (`BuddyTree`, `PmmState`, `Pmm`, `PmmTheorems`): lists, bitmap,
  splitting and merging, and the start from the memory map;
- the page tables (`Vmm*.dfy`): four levels, tables taken from the page allocator, splitting
  of 2 MiB mappings;
- the terminal: the frame buffer with its queue of pending cells (`Term*.dfy`), the editing
  functions (`FlanEdit`), the UTF-8 decoder (`Utf8`) and the escape sequence machine
  (`FlanScreen`, `FlanSpec`, `Flanterm`, `FlanTheorems`), with what each sequence of bytes
  does told by the cursor, by cells and by the pen (`FlanCells`, `FlanBytes`, `FlanKeys`,
  `FlanStray`, `FlanColours`);
- the exFAT driver (`Exfat*.dfy`, over `RowMajor`, `Counting`): bitmap, FAT, directory
  entries, creating, appending, overwriting, reading, seeking and removing, on a disk of
  bytes;
- the loaders (`Cpio`, `CpioTree`, `ElfSegments`, `ElfModule`, over `LittleEndian`, `Wrappers`).

Code that changes state is a class with methods, each proved against a specification; what
the specification promises is proved as lemmas and over whole runs. `Flanterm.Context` is
proved against the functions of `FlanSpec`, which say what each byte means on a plain grid,
`FlanTheorems` says what whole streams mean, and `FlanBytes`, `FlanKeys`, `FlanStray` and
`FlanColours` say what the bytes do without those functions. Numbers are unbounded; where the C code
wraps around, the wrap is written out.

`dafny verify dfyconfig.toml` checks everything.

## Findings

Properties that the code does not have, each with the exact condition under which it does.

- A realloc of a live block to more than 2^32 - 8 bytes returns the block as if it were large
  enough, and damages it if it has 32 bytes or more: `TlsfTheorems.OversizeReallocInPlace`,
  `TlsfTheorems.OversizeReallocLosesBlock`.
- A malloc of more than 2^64 - 8 bytes returns 24: `TlsfMap.AdjustWordWraps`, and the last
  clause of `Tlsf.Heap.Malloc`.
- A pool of exactly 2^32 bytes passes the range test and maps to a row that the table does
  not have: `TlsfMap.MappingInsertRange`, `TlsfMap.LargestPool`.
- A memalign to 2^63 searches for 24 bytes: `TlsfMap.SizeWithGapEnough`.
- The counter of free pages drifts whenever a free merges buddies:
  `PmmTheorems.AllocThenFree`, `Pmm.Allocator.PfreeOrder`.
- The page bitmap can lack bits for the last pages: `PmmTheorems.BitmapCovers`,
  `PmmTheorems.BitmapShort`.
- Unmapping a page works exactly if it is not part of a 2 MiB mapping:
  `Vmm.PageTables.UnmapPage`. Inside one it does nothing or unmaps other pages, alone or with
  the one asked for: `Vmm.LargeStaysMapped`, `Vmm.LargeClears`, `VmmTheorems.SmallMissed`.
- Splitting a 2 MiB mapping keeps the attributes of the other 511 pages exactly if no bit
  above 51 was set and the user bit was set or is not asked for: `VmmTheorems.SplitKeeps`,
  `VmmTheorems.SmallSplit`.
- Mapping a page for the user inside a 2 MiB mapping opens the other 511 pages to the user,
  and mapping one without the user bit closes them: `Vmm.PageTables.MapPage`,
  `VmmTheorems.SmallUser`.
- The cursor that a full refresh draws stays on the screen after the next flush, unless the
  flush draws that cell for another reason or it looks the same inverted:
  `TermTheorems.FlushRefreshed`, `TermTheorems.StaleCursor`.
- A DEC private sequence that is cancelled makes the next control sequence private:
  `FlanTheorems.CancelRemembers`, `FlanTheorems.LostSequence`.
- A parameter above 2^32 - 1 is cut rather than held to the largest value:
  `FlanTheorems.KeptOverflow`.
- A four-byte sequence is shown as a box if it is malformed, except that one above 0x10FFFF
  shows nothing: `FlanStray.TooLarge`, beside `FlanStray.OverlongFour`.
- In reverse video a change of intensity puts the default colour of the wrong side on:
  `FlanTheorems.ReverseCommutes`.
- Creating a file is sound if there are three free directory slots in a row or no free slot;
  otherwise its entries are written over what follows: `ExfatCreate.CreateNew`,
  `ExfatCreate.CreateCrowded`.
- A seek to the end of a file that fills its last cluster stands outside the file, and a
  write from there goes astray: `ExfatFile.FileSystem.Seek`,
  `ExfatFile.FileSystem.SeekAndWrite`.
- A write inside a file replaces its bytes exactly if the file is chained or the bytes stay
  in one cluster; otherwise the file is cut: `ExfatOverwrite.Overwrite`,
  `ExfatOverwrite.OverwriteAcross`.
- An archive member whose name starts with TRAILER!!! ends the archive:
  `Cpio.UnpackExact`, `Cpio.VictimLost`.
- A segment is loaded whole exactly if the last segment on each of its pages has the same
  bytes there: `ElfSegments.IntactExact`, `ElfSegments.IntactByHeaders`,
  `ElfSegments.SharedPage`.
- A relocation whose value does not fit its field is cut without a word:
  `ElfModule.FieldExact`, `ElfModule.FieldCut`.

## Model

| member | source | states |
|---|---|---|
| TlsfTheorems.Session | kernel/main/mm/heapalloc/tlsf.c:940-1084 | for every run of malloc, memalign, free, realloc and stores by the callers on a new pool, in any order: the heap invariant holds after it, and the heap acts as a plain store of buffers - a new buffer is one nobody holds, a store changes just its word, a realloc carries the bytes over up to the smaller size, and every other buffer keeps every byte; nothing outside the pool is written |
| TlsfTheorems.Execute | kernel/main/mm/heapalloc/tlsf.c:958-1084 | the same for one command, as a step of the plain store |
| TlsfTheorems.WalkTiles | kernel/main/mm/heapalloc/tlsf.c:763-778 | the walk from a block on visits all later blocks once, in order, and their sizes and overheads add up to the rest of the pool |
| TlsfTheorems.PoolConserved | kernel/main/mm/heapalloc/tlsf.c:763-778 | in a valid heap the walk of the pool accounts for every byte between its ends |
| TlsfTheorems.PayloadsDisjoint | kernel/main/mm/heapalloc/tlsf.c:221-240 | two live payloads never overlap and lie inside the pool, including the word each shares with the next header |
| TlsfTheorems.ListsComplete | kernel/main/mm/heapalloc/tlsf.c:455-513 | the list in memory of each class holds exactly the free blocks whose size maps to it, each once |
| TlsfTheorems.Check | kernel/main/mm/heapalloc/tlsf.c:703-753 | in a valid heap the run-time checker reports no violation |
| TlsfTheorems.CheckPool | kernel/main/mm/heapalloc/tlsf.c:686-701 | in a valid heap the pool checker finds every previous-free bit true |
| TlsfTheorems.OversizeReallocInPlace | kernel/main/mm/heapalloc/tlsf.c:1030-1084 | the size that realloc compares with the block covers the request exactly for sizes up to 2^32 - 8; for every larger one the block passes the test and is too small |
| TlsfTheorems.OversizeReallocLosesBlock | kernel/main/mm/heapalloc/tlsf.c:591-603 | a size that adjusts to zero makes realloc cut a block of 32 bytes or more inside its own header: its size word is zero after the split, the merge and the insertion of the rest, and no consistent chain contains the block any more |
| Tlsf.Heap.constructor | kernel/main/mm/heapalloc/tlsf.c:940-945 | a fresh heap is valid, holds one free block of the whole pool, and nothing outside the pool is written |
| Tlsf.Heap.ControlConstruct | kernel/main/mm/heapalloc/tlsf.c:660-676 | all lists and bitmaps are empty and only the control block is written |
| Tlsf.Heap.AddPool | kernel/main/mm/heapalloc/tlsf.c:830-874 | after it the invariant holds with one free block and the sentinel |
| Tlsf.Heap.SearchSuitableBlock | kernel/main/mm/heapalloc/tlsf.c:425-453 | the head of the first non-empty list from the given one on; null exactly if all of them are empty |
| TlsfSound.BlockInsertSound | kernel/main/mm/heapalloc/tlsf.c:483-513 | filing a free block at the head of its list keeps the heap invariant: lists and both bitmap levels agree again, just that block is added, and no live byte and nothing outside the pool changes |
| TlsfSound.BlockRemoveSound | kernel/main/mm/heapalloc/tlsf.c:455-506 | taking a block off its list, wherever it is in it, keeps the heap invariant: just that block leaves, lists and both bitmap levels agree again, and no live byte changes |
| Tlsf.Heap.BlockInsert | kernel/main/mm/heapalloc/tlsf.c:508-513 | a held free block is filed under the class of its size and the heap stays sound |
| Tlsf.Heap.BlockRemove | kernel/main/mm/heapalloc/tlsf.c:501-506 | a listed block becomes a held one and the heap stays sound |
| Tlsf.Heap.BlockMergePrev | kernel/main/mm/heapalloc/tlsf.c:550-562 | a held block and a free one before it become one held block that no free block precedes; no live byte changes |
| Tlsf.Heap.BlockMergeNext | kernel/main/mm/heapalloc/tlsf.c:564-577 | the free block after it, if any, is absorbed and unlisted; live payloads are untouched |
| Tlsf.Heap.BlockTrimFree | kernel/main/mm/heapalloc/tlsf.c:579-589 | a held block with room for 32 bytes more than the request is cut right after it, and the rest is one free listed block; otherwise nothing changes, and in both cases the block ends up smaller than the request plus 32 bytes |
| Tlsf.Heap.BlockTrimUsed | kernel/main/mm/heapalloc/tlsf.c:591-603 | the tail of a used block is cut off exactly if it has 32 bytes or more, freed and merged with what follows, and the first bytes of the block stay; the block ends up smaller than the request plus 32 bytes |
| Tlsf.Heap.BlockTrimFreeLeading | kernel/main/mm/heapalloc/tlsf.c:605-619 | a held block is cut at the wanted address: the front is one free listed block, of the gap less its header word, and the rest is held |
| Tlsf.Heap.BlockLocateFree | kernel/main/mm/heapalloc/tlsf.c:621-645 | a block at least as large as the request leaves its list, from the lowest non-empty list of the searched classes; failure exactly if no listed block is in them |
| Tlsf.Heap.BlockPrepareUsed | kernel/main/mm/heapalloc/tlsf.c:647-658 | the held block, cut as by BlockTrimFree, becomes a used one with at least the bytes asked for and less than 32 more |
| Tlsf.Heap.Malloc | kernel/main/mm/heapalloc/tlsf.c:958-964 | null exactly if the size is refused or all lists from the searched one on are empty, and then nothing changed; otherwise a block that was not in use, cut from one of the lowest list that serves, with what is left over of 32 bytes or more free and listed right behind it; its payload covers the size exactly if the size is at most 2^64 - 8 |
| Tlsf.Heap.Free | kernel/main/mm/heapalloc/tlsf.c:1015-1028 | the block is no longer in use, all other live blocks keep size and bytes, and no two free blocks are neighbours |
| Tlsf.Heap.Resize | kernel/main/mm/heapalloc/tlsf.c:1030-1084 | on all three paths - shrink, grow in place, move - the first min(old, new) bytes are kept, and every other live block is untouched; null exactly if the block must move and no list serves the new size |
| Tlsf.Heap.MoveBlock | kernel/main/mm/heapalloc/tlsf.c:1058-1067 | the move: null exactly if no list serves the size; otherwise a block that was not in use with the old bytes, and the old one is free |
| Tlsf.Heap.FitInPlace | kernel/main/mm/heapalloc/tlsf.c:1068-1080 | staying in place: the block after is absorbed exactly if the size needs it, and the tail beyond the request is cut off exactly if it has 32 bytes or more |
| Tlsf.Heap.Realloc | kernel/main/mm/heapalloc/tlsf.c:1030-1084 | the cases of a null pointer and of size zero, and otherwise as Resize, null for the same reasons only |
| Tlsf.Heap.Memalign | kernel/main/mm/heapalloc/tlsf.c:966-1013 | null exactly if the size is refused or all lists from the one searched for size, alignment and gap on are empty, and then nothing changed; otherwise an aligned payload of at least the size in a block that was not in use, inside one of the lowest list that serves; the invariant is kept for every alignment up to 2^62 |
| Tlsf.Heap.PrepareAligned | kernel/main/mm/heapalloc/tlsf.c:980-1012 | the block that was found is cut at the aligned address, the front going back to the lists exactly if there is one, and the payload there becomes used |
| Tlsf.Heap.Store | kernel/main/mm/heapalloc/tlsf.c:221-240 | a caller may write any word of its payload, the one shared with the next header included, and the invariant stays |
| TlsfMap.MappingInsertInClass | kernel/main/mm/heapalloc/tlsf.c:396-413 | every size lies in the interval of the class it is filed under |
| TlsfMap.ClassesOrdered | kernel/main/mm/heapalloc/tlsf.c:396-413 | later classes hold strictly larger sizes |
| TlsfMap.MappingInsertUnique | kernel/main/mm/heapalloc/tlsf.c:396-413 | the class of a size is the only one whose interval contains it |
| TlsfMap.MappingInsertMonotone | kernel/main/mm/heapalloc/tlsf.c:396-413 | larger sizes are filed no earlier |
| TlsfMap.MappingInsertRange | kernel/main/mm/heapalloc/tlsf.c:396-413 | the indices are inside the table exactly for sizes below 2^32; 2^32 itself gives the row after the last |
| TlsfMap.LargestPool | kernel/main/mm/heapalloc/tlsf.c:841-850 | the largest pool that the range test lets through has no row in the table |
| TlsfMap.GoodFit | kernel/main/mm/heapalloc/tlsf.c:415-453 | a block filed at or after the list that the search starts at is large enough for the request |
| TlsfMap.SearchClassLow | kernel/main/mm/heapalloc/tlsf.c:415-423 | already the smallest size of that list serves the request |
| TlsfMap.SearchClassFirst | kernel/main/mm/heapalloc/tlsf.c:415-423 | the list that the search starts at is the first all of whose sizes serve the request |
| TlsfMap.AlignUpLeast | kernel/main/mm/heapalloc/tlsf.c:360-364 | without wrap-around the result is the least multiple of the alignment that is not smaller |
| TlsfMap.AdjustWord | kernel/main/mm/heapalloc/tlsf.c:380-394 | the adjusted size is the least multiple of eight from 24 on that covers the request, and zero exactly for refused requests |
| TlsfMap.AdjustWordWraps | kernel/main/mm/heapalloc/tlsf.c:380-394 | a request within seven bytes of 2^64 is adjusted to 24 bytes |
| TlsfMap.SizeWithGapEnough | kernel/main/mm/heapalloc/tlsf.c:969-978 | the size searched for by memalign covers payload, alignment step and a free block in front exactly for alignments up to 2^62 |
| TlsfMap.SizeWithGapLeast | kernel/main/mm/heapalloc/tlsf.c:969-978 | the size searched for is the least multiple of the alignment with that room, and zero exactly if there is none that the heap could serve |
| TlsfMap.LeadingGapSpec | kernel/main/mm/heapalloc/tlsf.c:987-1003 | the gap in front is nothing or 32 up to alignment + 24 bytes, and it ends at an aligned address |
| TlsfMap.LeadingGapLeast | kernel/main/mm/heapalloc/tlsf.c:987-1003 | no smaller gap of nothing or 32 bytes or more ends at an aligned address |
| TlsfBytes.MemcpySpec | kernel/main/mm/heapalloc/tlsf.c:1063-1064 | the copy moves exactly the first n bytes and touches only the words that hold them |
| Bits.LowestBitSpec | kernel/main/mm/heapalloc/tlsf.c:35-38 | the lowest set bit, and -1 exactly for a word without one |
| PmmTheorems.Session | kernel/main/mm/pmm.c:81-133 | for every run of allocations and frees: live blocks are apart from each other and from the free ones, no page is lost, and once all are freed, in any order, the lists as sets and the bitmap are those of the start |
| PmmTheorems.ListsDetermined | kernel/main/mm/pmm.c:48-133 | two states with the same free pages have the same blocks on the same lists |
| PmmTheorems.FreesCommute | kernel/main/mm/pmm.c:110-133 | tidy lists that gain the pages of two blocks are the same in either order |
| PmmTheorems.FreeEitherOrder | kernel/main/mm/pmm.c:110-133 | two calls of pfree_order on live blocks, in one order and in the other, leave the same lists as sets and the same bitmap |
| PmmTheorems.AllocThenFree | kernel/main/mm/pmm.c:81-133 | allocating and freeing restores lists and bitmap; the free page counter is restored exactly if nothing was split |
| PmmTheorems.BitmapCovers | kernel/main/mm/pmm.c:165-166 | the bitmap has a bit for every page exactly unless the byte count is a multiple of the page size and pages are left over |
| PmmTheorems.BitmapShort | kernel/main/mm/pmm.c:165-166 | 32769 pages get 32768 bits |
| PmmTheorems.TopPage | kernel/main/mm/pmm.c:159-165 | the highest page number that any entry reaches |
| PmmTheorems.PlaceBitmap | kernel/main/mm/pmm.c:168-183 | the first usable entry that is large enough gives up its front; failure exactly if there is none |
| PmmTheorems.Init | kernel/main/mm/pmm.c:140-222 | the free pages are exactly the whole pages of the usable entries less those of the bitmap, and both counters are their number |
| PmmTheorems.TileAll | kernel/main/mm/pmm.c:190-216 | all usable ranges are tiled, each exactly |
| Pmm.Allocator.AddRegion | kernel/main/mm/pmm.c:195-215 | the greedy loop covers one range exactly with aligned blocks and leaves no pair of free buddies |
| Pmm.GreedyOrder | kernel/main/mm/pmm.c:199-205 | the largest order whose block is aligned and fits |
| Pmm.PushSorted | kernel/main/mm/pmm.c:48-54 | pushing a held block keeps the lists: it is on the list of its order and nowhere else, and the lists are those of the larger set of free blocks |
| Pmm.Allocator.ListRemove | kernel/main/mm/pmm.c:56-68 | exactly that block leaves its list |
| Pmm.Allocator.ListContains | kernel/main/mm/pmm.c:70-79 | true exactly if the page is on the list |
| Pmm.Allocator.SplitDown | kernel/main/mm/pmm.c:90-93 | halving down to the order keeps the same pages covered and leaves no pair of free buddies |
| Pmm.Allocator.PallocOrder | kernel/main/mm/pmm.c:81-103 | zero exactly if all lists from the order on are empty; otherwise the address is the first entry of the first of them that is not, the pages handed out are one aligned block that was free, and exactly its bits are set |
| Pmm.Allocator.PfreeOrder | kernel/main/mm/pmm.c:110-133 | exactly the block's pages become free and their bits clear, buddies are merged as far as they go, and the counter grows by the size of the merged block |
| BuddyTree.Canonical | kernel/main/mm/pmm.c:110-133 | sets of aligned, disjoint blocks without free buddy pairs that cover the same pages are equal |
| BuddyTree.TidyMember | kernel/main/mm/pmm.c:110-133 | a block is in such a set exactly if all its pages are covered and not all of its parent's |
| BuddyTree.FlipIsSibling | kernel/main/mm/pmm.c:118-128 | flipping one bit of the page number gives the buddy, and the lower of the two starts the parent |
| BuddyTree.SplitHeld | kernel/main/mm/pmm.c:90-93 | a split keeps the covered pages and the absence of buddy pairs |
| BuddyTree.MergeHeld | kernel/main/mm/pmm.c:117-129 | so does a merge |
| PmmState.SetPageSpec | kernel/main/mm/pmm.c:33-36 | just the bit of that page is set |
| PmmState.ClearPageSpec | kernel/main/mm/pmm.c:38-41 | just the bit of that page is cleared |
| VmmTheorems.Run | kernel/main/mm/vmm.c:47-84 | any run of mappings and unmappings refines a flat table from pages to frames: mapping a page of a 2 MiB mapping splits it, its pieces can then be unmapped one by one, and unmapping a page of one that is still whole does nothing or, if the memory it maps starts with a table, unmaps all that hangs below one entry of that table |
| VmmTheorems.HarmlessSteps | kernel/main/mm/vmm.c:71-84 | a run in which no 2 MiB mapping that is unmapped through starts with a table, or with a page that was free, does the same whatever the tables are |
| VmmTheorems.ClearStep | kernel/main/mm/vmm.c:71-84 | clearing an entry of a table of any level removes from the flat table exactly the pages and ranges below that entry |
| Vmm.LargeStaysMapped | kernel/main/mm/vmm.c:71-84 | unmapping a page of a 2 MiB mapping changes no translation, if the page its entry points to is no table |
| Vmm.LargeClears | kernel/main/mm/vmm.c:71-84 | if that page is a table of any level, exactly the walks through the cleared word end: the page asked for goes exactly if the word is an entry on its own walk, which needs a table of level two to four |
| Vmm.Misses | kernel/main/mm/vmm.c:71-84 | unmapping inside a 2 MiB mapping never removes just the page asked for: that page keeps its mapping, or the page beside it goes too |
| VmmTheorems.LargeUnmapsOther | kernel/main/mm/vmm.c:71-84 | if that page is a last-level table, a different page loses its mapping and the one asked for keeps it |
| Vmm.PageTables.constructor | kernel/main/mm/vmm.c:133-141 | takes over a sound tree of tables |
| Vmm.PageTables.AllocTable | kernel/main/mm/vmm.c:23-33 | a zeroed page that was free and is no table; failure exactly if no page is free |
| Vmm.PageTables.WalkOrAlloc | kernel/main/mm/vmm.c:35-45 | the table for the next part of the address, reached through an entry that allows writing if it is new and user access if asked for; no translation changes, and access only grows as asked for |
| Vmm.PageTables.HangTable | kernel/main/mm/vmm.c:35-45 | a new empty table behind an entry that is writable, and open to the user if asked for, changes no translation |
| Vmm.PageTables.MapPage | kernel/main/mm/vmm.c:47-69 | the page maps to the frame with the flags, and every other page to the frame it mapped to; over all entries of its walk, the page has user access exactly as the flags say and can be written as far as they and the tables above say; no other page loses access, except that the rest of a split 2 MiB mapping has user access exactly if the new page has; when no table is to be had, no translation changes |
| Vmm.PageTables.SplitTable | kernel/main/mm/vmm.c:53-60 | the table of pieces maps all 512 pages to the frames of the 2 MiB mapping, behind an entry that is writable, and open to the user if asked for |
| Vmm.PageTables.SplitAndSet | kernel/main/mm/vmm.c:53-64 | mapping a page inside a 2 MiB mapping |
| Vmm.PageTables.WalkAndSet | kernel/main/mm/vmm.c:66-69 | mapping a page elsewhere |
| Vmm.PageTables.FillPieces | kernel/main/mm/vmm.c:57-58 | the loop fills the table of pieces |
| Vmm.PageTables.UnmapPage | kernel/main/mm/vmm.c:71-84 | the page goes and no other changes, in its frame or in its access, exactly if it is not part of a 2 MiB mapping; inside one, a word of the mapped memory is cleared, and the tables that still hang are a tree |
| Vmm.PageTables.VirtToPhys | kernel/main/mm/vmm.c:86-101 | the byte address that the walk gives, zero if there is none |
| VmmState.PageIsBits | kernel/main/mm/vmm.c:86-101 | the four indices together are bits 12 to 47 of the address |
| VmmSteps.Pieces | kernel/main/mm/vmm.c:54-58 | the pieces keep the frames of the 2 MiB mapping exactly if its frame is 2 MiB aligned |
| VmmSteps.HangEmpty | kernel/main/mm/vmm.c:35-45 | an empty table at an empty entry keeps the tree and every walk |
| VmmSteps.SplitLarge | kernel/main/mm/vmm.c:53-60 | after the split each page walks to the frame it had, with the user bit added and the bits above 51 lost |
| VmmTheorems.SplitKeeps | kernel/main/mm/vmm.c:53-64 | the other pages of a split mapping keep their frames, and their attributes exactly if no bit above 51 was set and the user bit was set or is not asked for |
| VmmTheorems.SmallSplit | kernel/main/mm/vmm.c:53-64 | one mapping for which that fails: mapping address 0 makes the page beside it executable |
| VmmTheorems.SmallUser | kernel/main/mm/vmm.c:53-64 | there, mapping address 0 for the user opens the page beside it to the user as well |
| VmmTheorems.SmallMissed | kernel/main/mm/vmm.c:71-84 | one mapping for which unmapping address 0 changes no translation |
| VmmClear.Clears | kernel/main/mm/vmm.c:71-84 | clearing an entry of a table of any level ends exactly the walks through it |
| VmmClear.LeftTree | kernel/main/mm/vmm.c:71-84 | the tables that do not hang below a cleared entry are a tree again |
| VmmSteps.SetLeaf | kernel/main/mm/vmm.c:66-67 | a last-level write changes the walk of exactly one page |
| VmmRights.RightsPass | kernel/main/mm/vmm.c:35-45 | access to a page is access to the table its walk passes through together with access from there on |
| VmmRights.LeafRights | kernel/main/mm/vmm.c:66-67 | a last-level write decides the access to exactly one page, as far as the tables above allow it |
| VmmRights.SplitRights | kernel/main/mm/vmm.c:53-60 | after a split every piece can be written as before, and is open to the user exactly if its own entry and those above are |
| TermTheorems.Run | kernel/main/terminal/src/flanterm_backends/fb.c:760-1083 | any run of the drawing calls refines a grid that is drawn at once, and after a flush the screen shows that grid with the cursor cell inverted |
| TermTheorems.Step | kernel/main/terminal/src/flanterm_backends/fb.c:760-1083 | the same for one call |
| TermQueue.RoomLeft | kernel/main/terminal/src/flanterm_backends/fb.c:776-801 | a position with nothing pending leaves room in the queue: its full exit is never taken |
| TermGrid.LikeDraws | kernel/main/terminal/src/flanterm_backends/fb.c:760-774 | cells that compare equal give the same pixels, as cursor cells too |
| Term.Terminal.constructor | kernel/main/terminal/src/flanterm_backends/fb.c:1192-1605 | a blank grid with nothing pending and everything drawn |
| Term.Terminal.PushToQueue | kernel/main/terminal/src/flanterm_backends/fb.c:776-801 | the view changes at that position only, to a cell that compares equal to the given one |
| Term.Terminal.RevScroll | kernel/main/terminal/src/flanterm_backends/fb.c:803-829 | moving cells one by one is the simultaneous shift of the region down by a row |
| Term.Terminal.Scroll | kernel/main/terminal/src/flanterm_backends/fb.c:831-855 | moving cells one by one is the simultaneous shift of the region up by a row |
| Term.Terminal.Clear | kernel/main/terminal/src/flanterm_backends/fb.c:857-874 | all cells of the view are blank |
| Term.Terminal.SetCursorPos | kernel/main/terminal/src/flanterm_backends/fb.c:876-895 | coordinates off the screen go to the last row or column, those that wrapped below zero to the first |
| RowMajor.Arithmetic | kernel/main/terminal/src/flanterm_backends/fb.c:1148-1153 | the products, rows and columns that all models of grids and clusters use are those of integer multiplication and division |
| Term.Terminal.MoveCharacter | kernel/main/terminal/src/flanterm_backends/fb.c:904-923 | the view gets a copy of one cell at another place, if both are on the screen |
| Term.Terminal.DrawCursor | kernel/main/terminal/src/flanterm_backends/fb.c:994-1021 | the cursor cell is drawn inverted and is no longer pending |
| Term.Terminal.Flush | kernel/main/terminal/src/flanterm_backends/fb.c:1023-1055 | afterwards the grid is what the view was and nothing is pending; the cursor cell, the pending cells and the old cursor cell are drawn and nothing else, so a screen that was right but for the old cursor shows the grid with the cursor cell inverted |
| Term.Terminal.RawPutchar | kernel/main/terminal/src/flanterm_backends/fb.c:1057-1083 | the character lands at the cursor, or in the next line, scrolling if that is below the region |
| Term.Terminal.FullRefresh | kernel/main/terminal/src/flanterm_backends/fb.c:1085-1163 | the screen shows the grid with the cursor cell inverted; the screen is right but for the old cursor cell exactly if the cursor drawn here is off, is there, or cannot be seen |
| TermTheorems.FlushRefreshed | kernel/main/terminal/src/flanterm_backends/fb.c:1023-1163 | the flush after a refresh that drew a cursor shows the grid with the new cursor exactly if the refresh drew none, or drew it where the cursor is now or the old one was, or a cell is pending there, or inverting that cell changes nothing |
| TermTheorems.RefreshMoveFlush | kernel/main/terminal/src/flanterm_backends/fb.c:876-1163 | the same for a refresh, a movement of the cursor and a flush |
| TermTheorems.StaleCursor | kernel/main/terminal/src/flanterm_backends/fb.c:876-1163 | on a screen of two cells a refresh, a movement and a flush leave both cells inverted |
| Term.Terminal.SetPen | kernel/main/terminal/src/flanterm_backends/fb.c:925-992 | only the pen changes |
| Term.Terminal.RestoreState | kernel/main/terminal/src/flanterm_backends/fb.c:515-523 | cursor and pen are those given, and the view stays |
| FlanEdit.EraseLine | kernel/main/terminal/src/flanterm.c:953-977 | exactly the region of section 8.3.41 of ECMA-48 is blank and the cursor is where it was |
| FlanEdit.EraseDisplay | kernel/main/terminal/src/flanterm.c:870-907 | exactly the region of section 8.3.39 of ECMA-48 is blank and the cursor is where it was |
| FlanEdit.InsertChars | kernel/main/terminal/src/flanterm.c:908-925 | the row is its start, the blanks and the rest, cut at the edge |
| FlanEdit.DeleteChars | kernel/main/terminal/src/flanterm.c:926-943 | the row is its start, the rest and blanks |
| FlanEdit.EraseChars | kernel/main/terminal/src/flanterm.c:933-943 | exactly the cells from the cursor on are blank |
| FlanEdit.ScrollTimes | kernel/main/terminal/src/flanterm.c:999-1006 | n scrolls are one deletion of n lines |
| FlanEdit.RevScrollTimes | kernel/main/terminal/src/flanterm.c:1007-1014 | n reverse scrolls are one insertion of n lines |
| FlanEdit.ShiftRight | kernel/main/terminal/src/flanterm.c:1875-1886 | the rest of the row moves right at once |
| FlanEdit.DeletedTwice | kernel/main/terminal/src/flanterm.c:999-1006 | deleting twice is deleting the sum |
| FlanEdit.InsertedTwice | kernel/main/terminal/src/flanterm.c:1007-1014 | inserting twice is inserting the sum |
| FlanEdit.ScrollIsDelete | kernel/main/terminal/src/flanterm.c:821-848 | scrolling by a line is deleting or inserting one |
| Utf8.LookupsDecode | kernel/main/terminal/src/flanterm.c:1901-1975 | for every byte stream: a code point is looked up only if it is a Unicode scalar value, and then it is what the last bytes encode by section 3 of RFC 3629 |
| Utf8.TextDecodes | kernel/main/terminal/src/flanterm.c:1901-1975 | well-formed text decodes to its code points in order and leaves the decoder as it was |
| Utf8.StepSound | kernel/main/terminal/src/flanterm.c:1901-1975 | after every byte the decoder is in step with the bytes of the open sequence |
| Utf8.RunEncode | kernel/main/terminal/src/flanterm.c:1901-1975 | each code point decodes from its encoding |
| Utf8.DecodeEncode | kernel/main/terminal/src/flanterm.c:1901-1975 | decoding inverts encoding |
| Utf8.EncodeDecode | kernel/main/terminal/src/flanterm.c:1901-1975 | a well-formed sequence is the only encoding of its code point, which is a scalar value |
| Utf8.KnownEncodings | kernel/main/terminal/src/flanterm.c:1901-1975 | the examples of section 7 of RFC 3629 and the last scalar value |
| Flanterm.Context.constructor | kernel/main/terminal/src/flanterm.c:56-99 | the ground state over a blank screen |
| Flanterm.Context.Write | kernel/main/terminal/src/flanterm.c:103-111 | whatever the bytes: every index stays in range, the state is the one that the stream means, the lookups are those of the stream, and after the flush the screen shows the plain grid with its cursor |
| Flanterm.Context.Putchar | kernel/main/terminal/src/flanterm.c:1888-2038 | one byte takes the terminal from the state before to the one it means, in every parser state |
| Flanterm.Context.Cancel | kernel/main/terminal/src/flanterm.c:1889-1899 | CAN and SUB: back to the ground state |
| Flanterm.Context.Text | kernel/main/terminal/src/flanterm.c:1901-2038 | outside escape sequences: one step of the decoder and the effect of what it yields |
| Flanterm.Context.Continue | kernel/main/terminal/src/flanterm.c:1913-1958 | a byte inside a UTF-8 sequence |
| Flanterm.Context.Begin | kernel/main/terminal/src/flanterm.c:1901-1975 | a byte that starts afresh, after the replacement for a sequence that was cut off |
| Flanterm.Context.PlainByte | kernel/main/terminal/src/flanterm.c:1982-2038 | control characters, characters of the current set and the choice of a set |
| Flanterm.Context.PrintCode | kernel/main/terminal/src/flanterm.c:1937-1957 | the glyph of the code point or a box in its width, and the code point is noted as looked up |
| Flanterm.Context.PrintPlain | kernel/main/terminal/src/flanterm.c:2018-2037 | a character of the current set is typed and kept for repetition |
| Flanterm.Context.InsertShift | kernel/main/terminal/src/flanterm.c:1875-1886 | in insert mode the rest of the row moves right, and otherwise nothing happens |
| Flanterm.Context.EscapeParse | kernel/main/terminal/src/flanterm.c:1083-1175 | one byte of an escape sequence |
| Flanterm.Context.SecondByte | kernel/main/terminal/src/flanterm.c:1101-1174 | the byte after ESC |
| Flanterm.Context.ShortEscape | kernel/main/terminal/src/flanterm.c:1120-1162 | save, restore, index, next line and reverse index |
| Flanterm.Context.Reset | kernel/main/terminal/src/flanterm.c:1126-1135 | a blank screen in the default colours, and the initial modes, margins and saved state |
| Flanterm.Context.OscParse | kernel/main/terminal/src/flanterm.c:536-570 | the string is collected up to 256 bytes and ends at BEL or at ESC and backslash |
| Flanterm.Context.ControlSequence | kernel/main/terminal/src/flanterm.c:620-720 | one byte after ESC and bracket |
| Flanterm.Context.Digit | kernel/main/terminal/src/flanterm.c:637-653 | one more decimal digit, as far as 32 bits go |
| Flanterm.Context.Separator | kernel/main/terminal/src/flanterm.c:655-667 | the end of a value; more than sixteen are dropped |
| Flanterm.Context.Defaults | kernel/main/terminal/src/flanterm.c:669-687 | missing values, and zeros where one is the least, become the default |
| Flanterm.Context.FinalByte | kernel/main/terminal/src/flanterm.c:689-1053 | the sequence is performed, skipped or taken for a private one, and is over |
| Flanterm.Context.DecFinal | kernel/main/terminal/src/flanterm.c:427-472 | the private modes named by the values are set or reset in order |
| Flanterm.Context.Dispatch | kernel/main/terminal/src/flanterm.c:714-1048 | the sequence has its effect although scrolling and wrapping are switched meanwhile, and they are restored |
| Flanterm.Context.MoveCursor | kernel/main/terminal/src/flanterm.c:729-820 | the cursor goes where FlanBytes says, on the backend as on the plain screen |
| Flanterm.Context.SetMargins | kernel/main/terminal/src/flanterm.c:978-994 | the margins asked for if they hold two lines or more on the screen, otherwise the whole screen; the cursor goes home |
| Flanterm.Context.Lines | kernel/main/terminal/src/flanterm.c:821-848 | lines are deleted or inserted between the cursor and the bottom margin, and nothing happens outside the margins |
| Flanterm.Context.Edit | kernel/main/terminal/src/flanterm.c:870-977 | erasing, inserting and deleting at the cursor as list operations |
| Flanterm.Context.Repeat | kernel/main/terminal/src/flanterm.c:1015-1033 | the last character again, at most one row of it |
| Flanterm.Context.Sgr | kernel/main/terminal/src/flanterm.c:113-422 | all attributes of the list in order, an unfinished one ending it |
| Flanterm.Context.Intensity | kernel/main/terminal/src/flanterm.c:137-228 | the colour in force is set again in its other shade |
| Flanterm.Context.DefaultColour | kernel/main/terminal/src/flanterm.c:292-330 | the default colour of the text or the background on its side |
| Flanterm.Context.DecMode | kernel/main/terminal/src/flanterm.c:444-467 | origin, wrap, cursor and alternate screen modes |
| Flanterm.Context.ExecuteC0 | kernel/main/terminal/src/flanterm.c:572-618 | backspace, tabulator, line feeds, return and shifts |
| Flanterm.Context.SaveState | kernel/main/terminal/src/flanterm.c:1069-1081 | cursor, pen and attributes are kept |
| Flanterm.Context.RestoreState | kernel/main/terminal/src/flanterm.c:1055-1067 | what was kept is back |
| Flanterm.PerformedQuiet | kernel/main/terminal/src/flanterm.c:714-719 | no control sequence but the repetition depends on the scroll and wrap modes or changes them |
| FlanSpec.FedAll | kernel/main/terminal/src/flanterm.c:103-111 | any stream of bytes keeps cursor, margins, values, string length, colours and character sets in range |
| FlanTheorems.EveryLookup | kernel/main/terminal/src/flanterm.c:1888-2038 | for every stream, escape sequences included: a code point is looked up only if it is a scalar value, and then the last bytes of the stream encode it |
| FlanTheorems.TextFed | kernel/main/terminal/src/flanterm.c:1888-2038 | bytes without escape sequences show what the decoder yields, in order, and leave the parser alone |
| FlanTheorems.EncodedFed | kernel/main/terminal/src/flanterm.c:1901-2038 | well-formed text comes out as its characters and ends in the ground state |
| FlanTheorems.EncodedLookups | kernel/main/terminal/src/flanterm.c:1937-1957 | writing well-formed text looks up its code points outside ASCII, in order |
| FlanTheorems.ListRead | kernel/main/terminal/src/flanterm.c:637-667 | any list of numbers is read as its first sixteen, each as far as it is kept |
| FlanTheorems.DecimalRead | kernel/main/terminal/src/flanterm.c:637-653 | a decimal number is read as the value kept of it |
| FlanTheorems.GivenExact | kernel/main/terminal/src/flanterm.c:637-687 | at most sixteen numbers below 2^32 arrive as they are, but for zeros where one is the least |
| FlanTheorems.KeptOverflow | kernel/main/terminal/src/flanterm.c:637-653 | a larger number never arrives as it is: with one digit too many it loses that digit, or becomes the largest value exactly if the digits before are 429496729, so a larger number can count less |
| FlanTheorems.SequenceFed | kernel/main/terminal/src/flanterm.c:620-1053 | any parameters and any final byte, from the ground state: the effect is that of the values counted, and the parser is back in the ground state |
| FlanTheorems.ControlRead | kernel/main/terminal/src/flanterm.c:620-1053 | parsing undoes writing: a control sequence with any list of numbers is performed with their values |
| FlanTheorems.StreamFed | kernel/main/terminal/src/flanterm.c:1888-2038 | a stream of characters and control sequences means what its pieces mean, one after the other |
| FlanTheorems.WriteStream | kernel/main/terminal/src/flanterm.c:103-111 | a stream written to a new terminal leaves on the screen what its pieces mean |
| FlanTheorems.CancelRemembers | kernel/main/terminal/src/flanterm.c:1889-1899 | cancelling a private sequence returns to the ground state with the private flag still set |
| FlanTheorems.LostSequence | kernel/main/terminal/src/flanterm.c:689-698 | a control sequence from the ground state is performed exactly if that flag is clear; after a cancelled private sequence it is lost |
| FlanTheorems.CommandFed | kernel/main/terminal/src/flanterm.c:536-570 | an operating system command collects the first 256 bytes and does nothing to the screen |
| FlanTheorems.SaveRestore | kernel/main/terminal/src/flanterm.c:1055-1081 | whatever characters and sequences come between saving and restoring, cursor, pen and attributes are back |
| FlanTheorems.ReverseCommutes | kernel/main/terminal/src/flanterm.c:113-422 | reverse video exchanges the colours and nothing else, exactly unless the intensity of a default colour changes |
| FlanTheorems.ResetForgets | kernel/main/terminal/src/flanterm.c:121-135 | attribute 0 gives the same look whatever colours were set before |
| FlanBytes.CursorPosition | kernel/main/terminal/src/flanterm.c:798-820 | CSI r ; c H puts the cursor in row r and column c counted from 1, in origin mode in row r between the margins, and what is too far in the last one; nothing else changes |
| FlanBytes.CursorAt | kernel/main/terminal/src/flanterm.c:798-820 | the same for the written bytes of a place on the screen |
| FlanBytes.CursorUp | kernel/main/terminal/src/flanterm.c:729-742 | CSI n A goes up by n lines as far as the first that may be reached, F to the start of that line |
| FlanBytes.CursorDown | kernel/main/terminal/src/flanterm.c:743-757 | CSI n B and e go down by n lines as far as the last, E to the start of that line |
| FlanBytes.CursorRight | kernel/main/terminal/src/flanterm.c:758-763 | CSI n C and a go right by n columns as far as the last |
| FlanBytes.CursorLeft | kernel/main/terminal/src/flanterm.c:764-768 | CSI n D goes left by n columns as far as the first |
| FlanBytes.CursorLine | kernel/main/terminal/src/flanterm.c:774-788 | CSI n d goes to line n in the same column |
| FlanBytes.CursorColumn | kernel/main/terminal/src/flanterm.c:789-797 | CSI n G and the grave accent go to column n of the same line |
| FlanBytes.CursorNoted | kernel/main/terminal/src/flanterm.c:947-949 | CSI s notes the place of the cursor |
| FlanBytes.CursorRecalled | kernel/main/terminal/src/flanterm.c:950-952 | CSI u goes to the noted place |
| FlanBytes.NoteRecall | kernel/main/terminal/src/flanterm.c:947-952 | whatever characters and sequences come between the two, the cursor is back |
| FlanBytes.LinesAtCursor | kernel/main/terminal/src/flanterm.c:821-848 | cell by cell: CSI n L and M insert and delete n lines at the cursor, the lines below moving as far as the bottom margin, and do nothing outside the margins |
| FlanBytes.RegionScrolls | kernel/main/terminal/src/flanterm.c:999-1014 | cell by cell: CSI n S and T move the lines between the margins up and down by n |
| FlanBytes.CellsAtCursor | kernel/main/terminal/src/flanterm.c:908-943 | cell by cell: CSI n @, P and X insert, delete and erase n cells of the line from the cursor on |
| FlanBytes.EraseInLine | kernel/main/terminal/src/flanterm.c:953-977 | cell by cell: CSI n K blanks the line from the cursor on, up to it, or all of it |
| FlanBytes.EraseInPage | kernel/main/terminal/src/flanterm.c:870-907 | cell by cell: CSI n J blanks the screen from the cursor on, up to it, or all of it |
| FlanBytes.EraseOther | kernel/main/terminal/src/flanterm.c:870-977 | other choices of the two do nothing |
| FlanBytes.MarginsSet | kernel/main/terminal/src/flanterm.c:978-994 | CSI t ; b r makes lines t to b the region if there are two at least and they are on the screen, and otherwise all lines, and the cursor goes home |
| FlanBytes.InsertSet | kernel/main/terminal/src/flanterm.c:995-998 | CSI 4 h and l switch insert mode, and other numbers nothing |
| FlanBytes.PrivateMode | kernel/main/terminal/src/flanterm.c:427-472 | CSI ? v h and l: origin mode with the cursor going home, wrapping, the visible cursor, and for 1049 an empty screen with cursor, pen and attributes saved or restored; other numbers do nothing |
| FlanBytes.PrivateModes | kernel/main/terminal/src/flanterm.c:427-472 | several modes in one sequence are set one after the other |
| FlanKeys.Backspace | kernel/main/terminal/src/flanterm.c:580-585 | one column left, if there is one |
| FlanKeys.Tab | kernel/main/terminal/src/flanterm.c:586-593 | to the next multiple of eight, or to the last column if that is nearer |
| FlanKeys.LineFeed | kernel/main/terminal/src/flanterm.c:594-604 | one line down; at the bottom margin the lines of the region move up by one, cell by cell, and on the last line below it nothing happens |
| FlanKeys.CarriageReturn | kernel/main/terminal/src/flanterm.c:605-608 | to the first column |
| FlanKeys.ShiftSets | kernel/main/terminal/src/flanterm.c:609-614 | the second or the first character set is in use |
| FlanKeys.OtherControl | kernel/main/terminal/src/flanterm.c:1998-2015 | all other control characters do nothing |
| FlanKeys.Index | kernel/main/terminal/src/flanterm.c:1136-1143 | ESC D: as a line feed |
| FlanKeys.NextLine | kernel/main/terminal/src/flanterm.c:1144-1153 | ESC E: the same to the first column |
| FlanKeys.ReverseIndex | kernel/main/terminal/src/flanterm.c:1154-1162 | ESC M: one line up; at the top margin the lines of the region move down by one, cell by cell |
| FlanKeys.SaveAndRestore | kernel/main/terminal/src/flanterm.c:1055-1081 | ESC 7 and ESC 8: the cursor, the pen and the attributes are saved and restored, and nothing else |
| FlanKeys.OtherEscape | kernel/main/terminal/src/flanterm.c:1163-1174 | other escapes of two bytes do nothing |
| FlanKeys.Reset | kernel/main/terminal/src/flanterm.c:1126-1135 | ESC c: an empty screen in the default colours, the cursor at home, no margins, modes, attributes or saved state |
| FlanKeys.ChooseSet | kernel/main/terminal/src/flanterm.c:1982-1996 | ESC ( and ESC ) make the first or the second set ASCII or the DEC special graphics |
| FlanKeys.LetterShown | kernel/main/terminal/src/flanterm.c:2017-2038 | a printable byte is drawn at the cursor with the glyph of the set in use, the cursor moves on, in insert mode the rest of the line has moved right, and no other cell changes |
| FlanKeys.LetterWraps | kernel/main/terminal/src/flanterm.c:2017-2038 | on a full line it is drawn at the start of the next line, after the region has scrolled if there is none below in it |
| FlanKeys.GlyphShown | kernel/main/terminal/src/flanterm.c:1937-1957 | a code point that the font has is drawn in the same way |
| FlanKeys.BoxShown | kernel/main/terminal/src/flanterm.c:1937-1957 | one that it does not have is a box and spaces as wide as the character |
| FlanKeys.RepeatShown | kernel/main/terminal/src/flanterm.c:1015-1033 | CSI n b draws the last character n more times, if it was the last thing written |
| FlanStray.StrayByte | kernel/main/terminal/src/flanterm.c:2017-2038 | a byte that no character starts with or goes on with is a box |
| FlanStray.CutShort | kernel/main/terminal/src/flanterm.c:1901-1911 | a character cut off anywhere by a byte of ASCII is a box that is not kept for repetition, and the byte has its effect as if it had come alone |
| FlanStray.OverlongThree | kernel/main/terminal/src/flanterm.c:1913-1933 | three bytes for a code point below 0x800 are one box |
| FlanStray.OverlongFour | kernel/main/terminal/src/flanterm.c:1913-1933 | four bytes for a code point below 0x10000 are one box |
| FlanStray.Surrogate | kernel/main/terminal/src/flanterm.c:1935-1937 | a surrogate is one box |
| FlanStray.TooLarge | kernel/main/terminal/src/flanterm.c:1913-1933 | four bytes for a number above 0x10FFFF show nothing |
| FlanStray.CancelAnywhere | kernel/main/terminal/src/flanterm.c:1889-1899 | CAN and SUB end whatever is under way, after any stream, and do nothing to the screen |
| FlanStray.ControlInside | kernel/main/terminal/src/flanterm.c:620-636 | a control character inside a sequence acts at once, and the sequence goes on as if it had come before |
| FlanStray.FunctionKey | kernel/main/terminal/src/flanterm.c:620-636 | ESC [ [ and one more byte do nothing |
| FlanStray.OtherFinal | kernel/main/terminal/src/flanterm.c:714-1048 | final bytes without a meaning on the screen do nothing |
| FlanStray.CommandEnds | kernel/main/terminal/src/flanterm.c:536-570 | an operating system command that ends with ESC and a backslash does nothing to the screen and leaves the ground state |
| FlanColours.TextColour | kernel/main/terminal/src/flanterm.c:230-278 | 30 to 37 and 90 to 97 colour the text, bright if asked for or bold; in reverse video that is the background of the pen |
| FlanColours.BackColour | kernel/main/terminal/src/flanterm.c:248-291 | 40 to 47 and 100 to 107 colour the background likewise |
| FlanColours.TextDefault | kernel/main/terminal/src/flanterm.c:292-311 | 39: the default colour of text, bright if bold |
| FlanColours.BackDefault | kernel/main/terminal/src/flanterm.c:312-331 | 49: the default background, or the bright one |
| FlanColours.Bold | kernel/main/terminal/src/flanterm.c:137-203 | 1 and 22: bold on and off, with the colour in force set again in its other shade |
| FlanColours.Blink | kernel/main/terminal/src/flanterm.c:164-229 | 5 and 25: the same for the background |
| FlanColours.Reverse | kernel/main/terminal/src/flanterm.c:332-347 | 7 and 27: the sides of the pen change places once |
| FlanColours.Plainly | kernel/main/terminal/src/flanterm.c:113-136 | 0 or no number: no attributes, the default text colour on the default background |
| FlanColours.NoAttribute | kernel/main/terminal/src/flanterm.c:157-209 | other numbers do nothing |
| FlanColours.ColourOf256 | kernel/main/terminal/src/flanterm.c:381-414 | 38 or 48 ; 5 ; k: the eight colours, the eight bright ones or those of the table, on the side that is in use |
| FlanColours.NoColour | kernel/main/terminal/src/flanterm.c:381-414 | a larger index does nothing |
| FlanColours.DirectColour | kernel/main/terminal/src/flanterm.c:358-380 | 38 or 48 ; 2 ; r ; g ; b: red in the high byte, green in the middle, blue in the low one |
| FlanColours.OneByOne | kernel/main/terminal/src/flanterm.c:113-422 | several attributes in one sequence are the same as one sequence each |
| FlanColours.CutOff | kernel/main/terminal/src/flanterm.c:348-385 | an attribute that is cut off does nothing |
| ExfatTheorems.Session | fs/exfat/exfat.c:317-600 | any run of creating, appending and removing on an empty volume refines a map from files to bytes unless the volume fills up; the set bits are always those of the reserved clusters and of the files' disjoint chains, every entry set carries its types, lengths and checksum, and the directory slots in use are exactly those of the files and of the volume itself |
| ExfatTheorems.Step | fs/exfat/exfat.c:317-600 | the same for one command; a short append means that every cluster is in use |
| ExfatTheorems.ReadBack | fs/exfat/exfat.c:307-315 | reopening and reading gives all bytes of a file, contiguous or chained |
| ExfatTheorems.ReadAt | fs/exfat/exfat.c:511-528 | seeking to any place before the end and reading gives the bytes from there on |
| ExfatDisk.ReadModifyWrite | fs/exfat/exfat.c:21-29 | reading sectors, patching bytes and writing them back changes just those bytes |
| ExfatDisk.FatPlace | fs/exfat/exfat.c:213-230 | a FAT entry lies within one sector |
| ExfatDisk.ClustersApart | fs/exfat/exfat.c:232-235 | different clusters do not overlap |
| ExfatDisk.HeapOrder | fs/exfat/exfat.c:232-235 | cluster 2 is the first of the heap, and each cluster follows the one before it |
| Exfat.Volume.GetFatEntry | fs/exfat/exfat.c:213-220 | the entry of the cluster |
| Exfat.Volume.SetFatEntry | fs/exfat/exfat.c:222-230 | just that entry changes |
| Exfat.Volume.FindClear | fs/exfat/exfat.c:44-70 | the lowest clear bit |
| Exfat.Volume.AllocateCluster | fs/exfat/exfat.c:44-70 | the lowest free cluster, with just its bit set and its FAT entry the end mark; failure exactly if all clusters are in use |
| Exfat.Volume.ReadDirEntry | fs/exfat/exfat.c:237-251 | the entry at an index of the directory's chain; failure exactly past its end |
| Exfat.Volume.WriteDirEntry | fs/exfat/exfat.c:253-270 | just the 32 bytes of that entry change |
| Exfat.Volume.UpdateChecksum | fs/exfat/exfat.c:145-159 | the entry set carries the SetChecksum of section 6.3.3 of the exFAT specification, and no other slot changes |
| ExfatVolume.RotatedBits | fs/exfat/exfat.c:145-159 | one step of the sum moves every bit down by one and the lowest to the top |
| ExfatChecksum.TurnedIs | fs/exfat/exfat.c:145-159 | k steps over zero bytes exchange the lower k bits and the others |
| ExfatChecksum.KnownSum | fs/exfat/exfat.c:145-159 | the entry set of a new file named A has the sum 0x0D66 |
| Exfat.Volume.ClearMark | fs/exfat/exfat.c:532-555 | just the bit of the cluster is cleared |
| Exfat.Volume.FreeChain | fs/exfat/exfat.c:557-580 | exactly the clusters of the file become free, chained or contiguous |
| ExfatFile.FileSystem.Create | fs/exfat/exfat.c:317-361 | a new empty file in three free slots, with the entries of that name, their type bytes and their checksum; no other file changes |
| ExfatCreate.FindSlots | fs/exfat/exfat.c:317-341 | the first three free slots in a row among the first 1024; without any, a free slot of a stretch that is too short, and none exactly if no slot is free |
| ExfatCreate.CreateNew | fs/exfat/exfat.c:317-361 | with three free slots in a row the new file gets the first of them; with no free slot nothing changes and creating fails |
| ExfatCreate.CreateCrowded | fs/exfat/exfat.c:317-361 | with free slots but no three in a row the entries are written all the same, and a file right behind the free slots loses its entries |
| ExfatVolume.EntriesAreFiles | fs/exfat/exfat.c:272-305 | the file entries of the directory are exactly those of the files, and the slots in use those of their sets |
| ExfatFile.FileSystem.Open | fs/exfat/exfat.c:307-315 | a handle at the start of the file that the entry describes |
| ExfatFile.FileSystem.Read | fs/exfat/exfat.c:423-448 | the next bytes of the file up to its end |
| ExfatFile.FileSystem.Write | fs/exfat/exfat.c:450-509 | the bytes are appended, over any allocation pattern and the switch from contiguous to chained; fewer are written only when no cluster is left |
| ExfatFile.FileSystem.FirstCluster | fs/exfat/exfat.c:464-473 | the first cluster of an empty file, recorded in its stream entry |
| ExfatFile.FileSystem.NextCluster | fs/exfat/exfat.c:474-495 | a next cluster linked to the last, or nothing changed because all are in use |
| ExfatFile.FileSystem.Convert | fs/exfat/exfat.c:478-485 | a contiguous run and one cluster elsewhere become a chain with the same bytes |
| ExfatFile.FileSystem.WriteRound | fs/exfat/exfat.c:463-503 | one round: the bytes that fit go to the end of the file |
| ExfatFile.FileSystem.Seek | fs/exfat/exfat.c:511-528 | the handle stands in the right cluster exactly unless the position is the end of a file that fills its last cluster; then it stands past it |
| ExfatFile.FileSystem.SeekAndWrite | fs/exfat/exfat.c:450-528 | a write after such a seek goes to a cluster that is not the file's, leaves the file's own clusters as they were, and breaks the file that owns that cluster unless the byte there was the same |
| ExfatOverwrite.Overwrite | fs/exfat/exfat.c:450-509 | a write inside a chained file, or inside one cluster of a contiguous file, replaces exactly the bytes at the position |
| ExfatOverwrite.OverwriteAcross | fs/exfat/exfat.c:450-509 | a write inside a contiguous file over the end of a cluster cuts the file: its chain goes on in a new cluster, and its later clusters are on no chain |
| ExfatOverwrite.Round | fs/exfat/exfat.c:463-503 | one round inside the file: the bytes that fit the cluster are replaced |
| ExfatOverwrite.CrossRun | fs/exfat/exfat.c:474-495 | at the end of a cluster of a contiguous file the code links the run so far to a new cluster, although the file goes on |
| ExfatFile.FileSystem.Remove | fs/exfat/exfat.c:582-600 | the file is gone, exactly its clusters are free, its entries have just the in-use bit cleared, and no other file changes |
| Cpio.UnpackInverts | kernel/main/fsm/initramfs/initramfs-unpacker.c:111-193 | unpacking inverts newc encoding: for any list of members, the trailer and anything after it, the calls are those of the members before the first whose name starts like the trailer |
| Cpio.UnpackExact | kernel/main/fsm/initramfs/initramfs-unpacker.c:111-193 | the whole list is unpacked exactly if no file or directory comes at or after such a member |
| CpioTree.TreeUnpacked | kernel/main/fsm/initramfs/initramfs-unpacker.c:111-193 | an archive becomes the tree of its members: at every path that can be made there is the regular file, with its data, or the directory that the last member with that path is, and nothing else, up to the first member whose name starts like the trailer |
| CpioTree.MemberMakes | kernel/main/fsm/initramfs/initramfs-unpacker.c:166-192 | a regular file makes a file with its data at its own path, a directory makes a directory, anything else and the root make nothing |
| Cpio.VictimLost | kernel/main/fsm/initramfs/initramfs-unpacker.c:151-152 | a file with the name TRAILER!!!x is in the archive and is not made |
| Cpio.Unpack | kernel/main/fsm/initramfs/initramfs-unpacker.c:111-193 | on any bytes the loop ends, and the calls are those of the entries from the start on |
| Cpio.MemberReads | kernel/main/fsm/initramfs/initramfs-unpacker.c:111-193 | an encoded member of an aligned archive is read whole and reading goes on right after it |
| Cpio.EndingStops | kernel/main/fsm/initramfs/initramfs-unpacker.c:151-152 | a name that starts like the trailer ends the archive |
| Cpio.Hex8 | kernel/main/fsm/initramfs/initramfs-unpacker.c:68-79 | the value of eight hexadecimal digits, other bytes counting as zero |
| Cpio.HexRoundTrip | kernel/main/fsm/initramfs/initramfs-unpacker.c:68-79 | reading inverts writing in hexadecimal |
| CpioTree.HexPlaces | kernel/main/fsm/initramfs/initramfs-unpacker.c:68-79 | the first digit counts most |
| CpioTree.NibbleIs | kernel/main/fsm/initramfs/initramfs-unpacker.c:68-79 | the digits, small and capital |
| Cpio.NormalizePath | kernel/main/fsm/initramfs/initramfs-unpacker.c:97-109 | the name without leading slashes, cut to the buffer, or a dot |
| CpioTree.PathIs | kernel/main/fsm/initramfs/initramfs-unpacker.c:97-109 | however many slashes lead, what follows them is the path, cut to 255 bytes, and nothing is the root |
| ElfSegments.SegmentsRead | kernel/main/util/elf/elf_loader.c:85-126 | with no two segments on one page, every byte of every segment is the file's or zero, for any start inside a page |
| ElfSegments.LastShown | kernel/main/util/elf/elf_loader.c:85-126 | in general a byte is what the last segment on its page has there |
| ElfSegments.IntactExact | kernel/main/util/elf/elf_loader.c:85-126 | a segment is loaded whole exactly if on each of its pages the last segment there has the same bytes in its range |
| ElfSegments.IntactByHeaders | kernel/main/util/elf/elf_loader.c:85-126 | the same from the program headers and the bytes of the file alone |
| ElfSegments.SharedPage | kernel/main/util/elf/elf_loader.c:85-126 | two segments of one byte on one page: the first is zero after loading |
| ElfSegments.PagesCover | kernel/main/util/elf/elf_loader.c:19-26 | every byte of a segment lies in a page that is loaded |
| ElfSegments.PagesExact | kernel/main/util/elf/elf_loader.c:19-26 | the pages loaded are those from the first byte of a segment to its last |
| ElfSegments.AddressSpace.LoadPage | kernel/main/util/elf/elf_loader.c:28-52 | one page is the flat image of the segment there, for files that end early too |
| ElfSegments.AddressSpace.LoadSegment | kernel/main/util/elf/elf_loader.c:19-53 | exactly the pages of the segment are replaced, each by its flat image |
| ElfSegments.AddressSpace.LoadAll | kernel/main/util/elf/elf_loader.c:85-126 | every page shows the last segment that covers it |
| ElfSegments.LowestAddress | kernel/main/util/elf/elf_loader.c:74-78 | the lowest address among the segments |
| ElfSegments.LoadBase | kernel/main/util/elf/elf_loader.c:70-83 | no segment ends up below 0x400000, and executables above it stay where they are |
| ElfModule.LoadModule | kernel/main/util/elf/elf_loader.c:603-675 | the loaded image is the laid out sections with all relocations applied in order, and no larger than the sections need; failure exactly if there is nothing to load or a symbol is missing |
| ElfModule.Layout | kernel/main/util/elf/elf_loader.c:605-612 | allocated sections get ordered, disjoint offsets, each the first aligned one after the section before; the image ends with the last, and only addresses change |
| ElfModule.AlignUpLeast | kernel/main/util/elf/elf_loader.c:471-475 | the least multiple of the alignment that is not smaller |
| ElfModule.CopySections | kernel/main/util/elf/elf_loader.c:620-635 | every byte of the image is what the sections put there, zero where none does |
| ElfModule.SectionBytes | kernel/main/util/elf/elf_loader.c:620-635 | in such a layout each byte of a section is its own: the file's, or zero |
| ElfModule.ApplyRela | kernel/main/util/elf/elf_loader.c:512-538 | just the bytes of the site change |
| ElfModule.SiteByte | kernel/main/util/elf/elf_loader.c:637-675 | after all relocations with disjoint sites each site holds its own value |
| ElfModule.SiteHolds | kernel/main/util/elf/elf_loader.c:477-538 | in the loaded module every site holds the address of its symbol plus the addend, relative fields less the address of the site; a symbol of a section is at the image's address plus the section's offset plus its value |
| ElfModule.NothingMissing | kernel/main/util/elf/elf_loader.c:637-675 | relocation succeeds exactly if no symbol that an applied entry names is undefined without a kernel address or in a section that is not there |
| ElfModule.OtherByte | kernel/main/util/elf/elf_loader.c:637-675 | bytes outside all sites are untouched |
| ElfModule.AnyOrder | kernel/main/util/elf/elf_loader.c:637-675 | the order of relocations with disjoint sites does not matter |
| ElfModule.FieldReads | kernel/main/util/elf/elf_loader.c:512-538 | a site reads back as the value of section 4.4 of the System V AMD64 ABI |
| ElfModule.FieldExact | kernel/main/util/elf/elf_loader.c:512-538 | the processor sees the full value exactly if it is in the range of the field, which the code does not check |
| ElfModule.FieldCut | kernel/main/util/elf/elf_loader.c:512-538 | a 32-bit field for a symbol at 4 GiB reads as zero |
| ElfModule.Relocate | kernel/main/util/elf/elf_loader.c:637-675 | all relocations are applied in order unless a symbol is missing |

## Left out

Assumptions of the models:

- TLSF: memory is addressed in words of eight bytes, and copying is by words with a partial
  last one. Pools have between 24 bytes and just under 2^32, the sizes that `tlsf_add_pool`
  accepts less the one that it should refuse; there is one pool.
- Tlsf.Heap.Memalign: alignments up to 2^62 and sizes up to 2^64 - 8, for pools that end
  2^32 bytes before the end of the address space; what happens beyond is in the findings.
- Tlsf.Heap.constructor: without the pool of exactly 2^32 bytes, which is in the findings.
- Tlsf.Heap.AddPool: without the pool of exactly 2^32 bytes, which is in the findings.
- Tlsf.Heap.Resize: sizes up to 2^32 - 8; what happens beyond is in the findings.
- Tlsf.Heap.Realloc: sizes up to 2^32 - 8 for a live block; what happens beyond is in the
  findings.
- PMM: page 0 is in no usable entry, usable entries do not touch, and the bitmap covers all
  pages. The link words of free pages and the bitmap are kept apart from the pages' contents.
- VMM: no 1 GiB entries, no shared tables, intermediate entries without bits above 51, and
  2 MiB mappings on 2 MiB boundaries. The table memory and the lists of free pages do not
  overlap. Invalidation of cached translations is not part of this model.
- Terminal: what plotting a cell draws is one function of the cell; fonts, colour
  conversion, glyph and width tables are uninterpreted. Callbacks do nothing. The copies of
  parameter values that the code clamps in place are not written back.
- Term.Terminal.FullRefresh: with nothing pending.
- exFAT: reads and writes succeed, clusters have 64 to 4096 bytes, the bitmap's clusters are
  contiguous, and a name has 1 to 15 characters, so that it fits one entry. That the name is
  new is given, and so is the directory index of a file that is opened or removed. The set
  of directory slots that the volume itself uses is given.
- ExfatFile.FileSystem.Write: at the end of the file, through the handle that created it or
  one in the same state; writes inside the file are `ExfatOverwrite.Overwrite`, and one that
  starts inside and goes on past the end is not covered.
- ElfModule.LoadModule: for files that hold what their headers say, and relocation entries
  inside their section.
- Modules: section alignments are powers of two, and relocation entries lie inside the
  section they are for; the symbols' kernel addresses are given.
- Archive: bytes past its end read as zero, and which paths can be created is given.

Parts of the kernel without a model:

- `tlsf_remove_pool`, heaps of several pools and the self-test of the bit functions.
- Formatting and mounting of exFAT volumes, directories below the root, and the search of
  directories by name.
- The virtual file system, the symbol tables, the RAM file system and the frame database:
  linear lookups.
- Scheduling, interrupts, device drivers, ports, timers, serial output and strings.
- The 32-bit ELF loader, program stacks and module entry points.
- The device status and attribute reports of the terminal.
- Colours and cursor calls of `flanterm.c` that bypass the byte stream.
