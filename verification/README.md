# Verified models of gridstore, posting lists and quantization

This project models four parts of the qdrant libraries and proves what they are for.

**Gridstore** keeps values of any size in pages cut into blocks, without a log. A put writes the bytes
into free blocks, marks the blocks and sets a pointer in memory; a separately created flusher later
persists a snapshot of the pending pointers and only then frees the blocks of the replaced values.
`GridMachine` is this as a state machine that holds, for every file, what memory shows and what is on
disk. Puts and deletes are cut into the steps between which a flusher may run, a flusher into its
phases, the kernel may write back any part of any file at any time, and the process may crash at any
time. `GridRefinement` proves that every run refines a plain map that survives crashes (`CrashMap`),
that the tracker on disk is never wrong, and that blocks are never shared. Below it:

- `PointerTracker`: the pending updates of the tracker, and why writing an old snapshot is invisible
- `BitScan`, `GapIndex`, `BlockBitmask`: the two-level block allocator, from words of bits to the index
- `PagedStore`: values that cross pages, and batch reads that complete in any order
- `Allocation`, `Gridstore`: the store as an object whose every call is a run of the machine
  (`GridTrace`), so that what holds of all runs holds of the object

**Posting lists** (`PostingValues`, `PostingList`, `PostingSearch`): sorted ids compressed in chunks of
128 with values beside them, built from unsorted elements, searched through a cached decompressed
chunk, and iterated with skips. All of it agrees with a plain sorted sequence of elements.

**Rotation** (`ShufflePermutation`, `WalshHadamard`, `VectorRotation`): a shuffle without an index map,
undone by running its random number generator backwards, and a chunked Walsh-Hadamard transform. The
rotation is undone by its inverse and keeps all dot products; what each part computes is proved element
by element, the shuffle as successive picks and the transform as signed sums.

**Quantization** (`PqProtocol`, `BinaryScore`, `BinaryEncoding`, `BinaryMeaning`): the protocol by which
several tasks push encoded vectors in data order, the score of bit vectors against queries whose bits
are transposed, and what bits, entries and scores say of the vectors.

Where the code asks something of its callers, so do the contracts: encoded values are not empty, the
size of a region is a multiple of 64, the bits of a query fit into a word, tracker entries are written
atomically, and at most one flusher is outstanding.

Five properties that one might expect do not hold, and the project says exactly when they do:

- Space is not conserved exactly: `GridTrace.SomeRunStrands` gives a run that loses blocks on every
  configuration, and `GridRefinement.OnlyTheseStepsLoseSpace` says which steps do.
- The index of gaps adds two 16-bit numbers and misses runs in very large regions:
  `GapIndex.OverflowHidesRun`, and `GapIndex.CompleteIffNoOverflow` for regions of at most 0x7FFF blocks.
- A put finds space once pages are created for it, and the code panics otherwise: `NewStoreFails` and
  `ExpectIffNoOverflow` in `Allocation` draw the same border. `Gridstore.Gridstore.PutValue` reports
  the panic as a result, so the store is proved for larger regions too.
- The search in a posting list is documented to return the first offset. What it always returns is an
  offset of the least id. `PostingSearch.FirstIffNotRepeated` says when every answer is the first one,
  whatever the library's binary search picks among equal elements: if and only if the start chunk begins
  with an id that is large enough, or the target is not repeated from the start chunk on.
  `PostingSearch.FirstIsMissed` is a list on which none is, and `PostingSearch.RepeatIsMissed` a family.
- After an advance of a posting iterator, `next` does not always move on:
  `PostingSearch.PostingIterator.AdvanceThenNext` proves that it returns the same element once more
  unless the advance returned the current element at once and that one came from `next`.

## Model

| member | source | states |
|---|---|---|
| `PointerTracker.SetKeepsSlot` | assets/source/qdrant/lib/gridstore/src/tracker.rs:134-154 | Setting a fresh pointer makes it the one that is read, keeps the lists free of duplicates, and keeps every snapshot taken earlier a history of the entry |
| `PointerTracker.UnsetKeepsSlot` | assets/source/qdrant/lib/gridstore/src/tracker.rs:160-181 | Unsetting makes the point read as absent, loses no pointer that was mentioned, and keeps every earlier snapshot a history of the entry |
| `PointerTracker.DrainLeavesTheRest` | assets/source/qdrant/lib/gridstore/src/tracker.rs:196-225 | Draining a snapshot leaves exactly what happened after it: the later current pointer and the later list of pointers to free |
| `PointerTracker.WriteKeepsSlot` | assets/source/qdrant/lib/gridstore/src/tracker.rs:506-549 | Writing any earlier snapshot of a point persists its pointer, leaves what the point reads as unchanged, and leaves no empty pending entry |
| `PointerTracker.WriteSplitsPointers` | assets/source/qdrant/lib/gridstore/src/tracker.rs:512-543 | Each pointer mentioned before the write is afterwards either still mentioned or released, never both; the only exception is the persisted pointer of a point whose updates end in nothing |
| `PointerTracker.HistoryKeeps` | assets/source/qdrant/lib/gridstore/src/tracker.rs:605-625 | Any sequence of sets and unsets keeps the tracker consistent, changes nothing persisted, and keeps a snapshot taken before it a history |
| `PointerTracker.FlushIsInvisibleAndExact` | assets/source/qdrant/lib/gridstore/src/tracker.rs:506-549 | For a snapshot taken before any number of later sets and unsets: writing it changes no read, leaves no empty pending entry, and makes the persisted mapping equal to the logical mapping at the moment of the snapshot |
| `PointerTracker.WriteIsInvisible` | assets/source/qdrant/lib/gridstore/src/tracker.rs:506-549 | Writing a snapshot changes no read, persists exactly the pointers of the snapshot, and leaves every other entry of the file alone |
| `PointerTracker.Tracker.constructor` | assets/source/qdrant/lib/gridstore/src/tracker.rs:474-494 | A new tracker maps nothing and counts no points |
| `PointerTracker.Tracker.GetRaw` | assets/source/qdrant/lib/gridstore/src/tracker.rs:340-352 | The persisted pointer, and nothing past the end of the file |
| `PointerTracker.Tracker.Get` | assets/source/qdrant/lib/gridstore/src/tracker.rs:355-367 | The pending pointer if there is a non-empty pending update, else the persisted one |
| `PointerTracker.Tracker.GetBatch` | assets/source/qdrant/lib/gridstore/src/tracker.rs:375-414 | For every slot the same pointer that a single read gives, although persisted entries are read afterwards in one go |
| `PointerTracker.Tracker.PersistPointer` | assets/source/qdrant/lib/gridstore/src/tracker.rs:572-597 | Changes exactly one persisted entry, growing the file when needed and only then; an absent entry past the end is not written and still reads as absent |
| `PointerTracker.NextPowerIsLeast` | assets/source/qdrant/lib/gridstore/src/tracker.rs:587-592 | A file that must grow does so to the least power of two that is enough |
| `PointerTracker.Tracker.Set` | assets/source/qdrant/lib/gridstore/src/tracker.rs:605-611 | The new view is the old one with the pointer set for that point only, and the point count covers the point |
| `PointerTracker.Tracker.Unset` | assets/source/qdrant/lib/gridstore/src/tracker.rs:614-625 | Returns what the point read as and unsets that point only |
| `PointerTracker.Tracker.WriteOne` | assets/source/qdrant/lib/gridstore/src/tracker.rs:513-542 | One round of the write: persists and drains one point, and returns the persisted pointer it replaced with the pointers to free |
| `PointerTracker.Tracker.WritePending` | assets/source/qdrant/lib/gridstore/src/tracker.rs:506-549 | In any order of the hash map: the new view is the snapshot written over the old one, no read changes, the returned pointers are exactly the released ones, and the header counts all points |
| `Layout.PageIsWholeRegions` | assets/source/qdrant/lib/gridstore/src/config.rs:80-107 | An accepted configuration has pages of whole blocks and whole regions |
| `Layout.AcceptedIsValid` | assets/source/qdrant/lib/gridstore/src/config.rs:68-110 | Exactly the valid configurations are accepted, and so are the defaults |
| `Layout.BlocksAreLeast` | assets/source/qdrant/lib/gridstore/src/gridstore/mod.rs:439-441 | A value takes the least number of blocks that hold it |
| `Layout.ApartInBytes` | assets/source/qdrant/lib/gridstore/src/pages.rs:127-186 | Values in separate blocks have separate bytes |
| `CrashMap.LiveIsReplay` | assets/source/qdrant/lib/gridstore/src/gridstore/mod.rs:226-321 | The live map of the specification is the plain map that its puts, removes and recoveries produce |
| `CrashMap.CompletedFlushSurvivesCrash` | assets/source/qdrant/lib/gridstore/src/gridstore/mod.rs:444-483 | A crash after a completed flush and before another one writes the tracker recovers exactly the map as it was when the flusher was created |
| `GridSteps.WriteValueIsGood` | assets/source/qdrant/lib/gridstore/src/gridstore/mod.rs:209-221 | Writing a value into free blocks keeps the invariant and shows nothing to any reader, although its bytes may reach the disk at once |
| `GridSteps.MarkUsedIsGood` | assets/source/qdrant/lib/gridstore/src/gridstore/mod.rs:292-294 | Marking the written blocks keeps the invariant: the new pointer is apart from every owned one |
| `GridSteps.SetPointerIsGood` | assets/source/qdrant/lib/gridstore/src/gridstore/mod.rs:296-303 | Setting the pointer is the moment of the put: the map gains the value and the result says whether the point existed |
| `GridFlush.CreateFlusherIsGood` | assets/source/qdrant/lib/gridstore/src/gridstore/mod.rs:444-452 | Creating a flusher captures the map that its completion will have saved |
| `GridFlush.FlushFilesIsGood` | assets/source/qdrant/lib/gridstore/src/gridstore/mod.rs:465-469 | Beginning and ending the flushes of the bitmask and of the pages keeps the invariant; at the end every pointer of the snapshot is durable |
| `GridFlush.WriteBackFileIsGood` | assets/source/qdrant/lib/gridstore/src/gridstore/mod.rs:232-278 | Whatever part of the bitmask or of the pages the kernel writes back at whatever time, the invariant holds and nothing shows |
| `GridFlush.WritePendingIsGood` | assets/source/qdrant/lib/gridstore/src/gridstore/mod.rs:486-498 | Writing the snapshot into the tracker keeps the invariant and changes no read; from here on a crash may find either state of each point |
| `GridFlush.EndFlushTrackerIsGood` | assets/source/qdrant/lib/gridstore/src/gridstore/mod.rs:496-498 | Once the tracker is flushed the snapshot is what a crash recovers |
| `GridFlush.FreeBlocksIsGood` | assets/source/qdrant/lib/gridstore/src/gridstore/mod.rs:501-523 | Freeing the released blocks keeps the invariant: no pointer that is read, pending, persisted or being written lies in them |
| `GridFlush.CrashIsGood` | assets/source/qdrant/lib/gridstore/src/gridstore/mod.rs:276-278 | A crash at any moment leaves a store that satisfies the invariant, with more blocks used than needed at worst |
| `GridRefinement.StepIsGood` | assets/source/qdrant/lib/gridstore/src/gridstore/mod.rs:226-321 | Every step of the store is a step of the crash-tolerant map with the same visible result |
| `GridRefinement.RunKeepsInvariant` | assets/source/qdrant/lib/gridstore/src/gridstore/mod.rs:226-523 | The invariant holds in every state of every run of a new store |
| `GridRefinement.StoreRefinesMap` | assets/source/qdrant/lib/gridstore/src/gridstore/mod.rs:226-523 | For every interleaving of puts, deletes, flusher phases, kernel write-backs and crashes, what the store shows is what the crash-tolerant map shows |
| `GridRefinement.FlushedValuesSurviveCrash` | assets/source/qdrant/lib/gridstore/src/gridstore/mod.rs:444-483 | In every run of the store: a crash after a flusher has flushed the tracker, and before another one writes it, makes every point read as when the flusher was created |
| `GridRefinement.GetAgreesWithPlainMap` | assets/source/qdrant/lib/gridstore/src/gridstore/view.rs:94-110 | After every run a read returns what a plain map holds after the same puts, removes and recoveries |
| `GridRefinement.CrashIsSafe` | assets/source/qdrant/lib/gridstore/src/gridstore/mod.rs:226-304 | At every moment, whatever has been written back: each pointer in the tracker on disk lies in blocks marked used on disk, apart from the others, and a restart reads for each point the last saved value or the one being saved |
| `GridRefinement.BlocksAreIsolated` | assets/source/qdrant/lib/gridstore/src/tracker.rs:506-549 | In every reachable state the pointers held anywhere cover separate blocks, all marked used, and a block is used exactly when a held or stranded pointer or a crash accounts for it |
| `GridRefinement.PointersAreUnshared` | assets/source/qdrant/lib/gridstore/src/gridstore/mod.rs:501-523 | No pointer is mentioned for two points, and none that is mentioned is about to be freed |
| `GridRefinement.OnlyTheseStepsLoseSpace` | assets/source/qdrant/lib/gridstore/src/tracker.rs:523-528 | Only a crash leaks blocks, and a pointer is newly stranded exactly when an empty pointer is written over it where it is persisted and not listed |
| `GridRefinement.OverwriteThenDeleteStrands` | assets/source/qdrant/lib/gridstore/src/tracker.rs:523-528 | The history of one entry that breaks exact conservation: overwriting a persisted point and deleting it before the next flush |
| `GridTrace.SomeRunStrands` | assets/source/qdrant/lib/gridstore/src/tracker.rs:523-528 | In every configuration a run of the store leads there: put, flush, put and delete the same point, and flush again |
| `GridTrace.PutSteps` | assets/source/qdrant/lib/gridstore/src/gridstore/mod.rs:287-303 | A put into free blocks is four steps of the machine, with exactly the change of bits, bytes and tracker that the program makes |
| `GridTrace.DeleteSteps` | assets/source/qdrant/lib/gridstore/src/gridstore/mod.rs:310-321 | A delete is steps of the machine that leave bits and bytes alone and show the value that was there |
| `GridTrace.FlushTrackerSteps` | assets/source/qdrant/lib/gridstore/src/gridstore/mod.rs:486-498 | Writing and flushing the tracker is steps of the machine after which the snapshot is saved |
| `GridTrace.FreeSteps` | assets/source/qdrant/lib/gridstore/src/gridstore/mod.rs:501-523 | Freeing blocks and flushing the bitmask is steps of the machine that no reader sees |
| `Allocation.PagesSuffice` | assets/source/qdrant/lib/gridstore/src/gridstore/mod.rs:192-204 | The number of pages computed from the missing blocks always yields a run that is long enough, even if blocks were freed in between |
| `Allocation.CreateNewPage` | assets/source/qdrant/lib/gridstore/src/gridstore/mod.rs:167-176 | Adds one page of zeros and one page of free blocks |
| `Allocation.FindOrCreateAvailableBlocks` | assets/source/qdrant/lib/gridstore/src/gridstore/mod.rs:178-207 | A free run of the requested length, whatever a flusher frees whenever the bitmask is not locked, adding only free blocks and zero bytes. With regions of at most 0x7FFF blocks: the first place there is, no page if one was there already, and no page more than needed; with larger ones the last `expect` may fail |
| `Allocation.FewerPagesFail` | assets/source/qdrant/lib/gridstore/src/gridstore/mod.rs:189-196 | With one page less than are created there would be no run |
| `Allocation.ExpectIffNoOverflow` | assets/source/qdrant/lib/gridstore/src/gridstore/mod.rs:178-207 | The last `expect` is safe for every state and request if and only if a region has at most 0x7FFF blocks |
| `Allocation.NewStoreFails` | assets/source/qdrant/lib/gridstore/src/gridstore/mod.rs:200-204 | The input on which it fails: with larger regions, a new store asked for one region more than a page |
| `Gridstore.Gridstore.constructor` | assets/source/qdrant/lib/gridstore/src/gridstore/mod.rs:109-134 | A new store has one empty page and no values |
| `Gridstore.Gridstore.PutValue` | assets/source/qdrant/lib/gridstore/src/gridstore/mod.rs:226-304 | The map gains the compressed value and nothing else changes, and what is saved or being saved is untouched; the value takes blocks that were free, the first place there is, and creates pages only without one and none too many; where the code panics for want of space nothing changes, and that takes regions above 0x7FFF blocks |
| `Gridstore.Gridstore.StoreValue` | assets/source/qdrant/lib/gridstore/src/gridstore/mod.rs:290-303 | Writing, marking and setting the pointer: the map of encoded values gains the value and nothing else that a user, a flusher or a crash sees changes |
| `Gridstore.Gridstore.KernelWritesBack` | assets/source/qdrant/lib/gridstore/src/gridstore/mod.rs:232-236 | Write-backs that nobody asked for are steps of the machine and change nothing that can be read or that the specification promises |
| `Gridstore.Gridstore.CrashRecoversSaved` | assets/source/qdrant/lib/gridstore/src/gridstore/mod.rs:232-278 | Between calls, whatever the kernel has written back, a crash recovers exactly the values that the last completed flush saved |
| `Gridstore.Gridstore.DeleteValue` | assets/source/qdrant/lib/gridstore/src/gridstore/mod.rs:310-321 | The map loses the point, the result is the value it had, and an outstanding flusher is left alone |
| `Gridstore.Gridstore.GetValue` | assets/source/qdrant/lib/gridstore/src/gridstore/view.rs:94-110 | What the map has for the point, decoded |
| `Gridstore.Gridstore.ForEachInBatch` | assets/source/qdrant/lib/gridstore/src/gridstore/view.rs:112-139 | One callback for every slot with what the map has for its point, whatever the order in which reads arrive |
| `Gridstore.Gridstore.IterSome` | assets/source/qdrant/lib/gridstore/src/gridstore/view.rs:157-193 | Visits the values from a point on in order, stopping at the limit, at the end or when told to by a callback that may depend on all its calls, and says where to go on; if never told to stop and without more to come, exactly the values up to the last point asked for |
| `Gridstore.Gridstore.Iter` | assets/source/qdrant/lib/gridstore/src/gridstore/mod.rs:403-430 | In batches of 128: every value in order, up to and including the first call at which the callback stops, on whatever part of its calls that depends; if it never stops, exactly the values of the map, except at the largest point offset |
| `Gridstore.Gridstore.CreateFlusher` | assets/source/qdrant/lib/gridstore/src/gridstore/mod.rs:444-452 | The snapshot is the pending updates, and the map at this moment becomes the one to be saved |
| `Gridstore.Gridstore.FlushFiles` | assets/source/qdrant/lib/gridstore/src/gridstore/mod.rs:465-469 | Flushing bitmask and pages changes nothing that can be read |
| `Gridstore.Gridstore.FlushTracker` | assets/source/qdrant/lib/gridstore/src/gridstore/mod.rs:486-498 | The map captured by the flusher is now the saved one, reads are unchanged, and the returned pointers are those to free |
| `Gridstore.Gridstore.FlushFreeBlocks` | assets/source/qdrant/lib/gridstore/src/gridstore/mod.rs:501-523 | The blocks of the old pointers become free and nothing else changes |
| `Gridstore.Gridstore.Flush` | assets/source/qdrant/lib/gridstore/src/gridstore/mod.rs:454-482 | A flusher that runs to its end saves the map as it was when it was created and changes no value |
| `Gridstore.Gridstore.FlushAcross` | assets/source/qdrant/lib/gridstore/src/gridstore/mod.rs:444-483 | Whatever is put and deleted between the creation of a flusher and its run, the flush saves the map as it was at the creation, and the map is that of the puts and deletes alone |
| `Gridstore.FreePointers` | assets/source/qdrant/lib/gridstore/src/gridstore/mod.rs:506-518 | Grouped by page or not, exactly the blocks of the old pointers are cleared |
| `Gridstore.PointsAreAll` | assets/source/qdrant/lib/gridstore/src/gridstore/view.rs:157-193 | The points listed up to a bound are in order and are exactly those of the map, except for the largest point offset |
| `Gridstore.Gridstore.EndHoldsAll` | assets/source/qdrant/lib/gridstore/src/tracker.rs:418-425 | No value is at or past the count of the tracker, so that stopping there misses none |
| `BitRuns.SkipWordRight` | assets/source/qdrant/lib/gridstore/src/bitmask/mod.rs:327-343 | A word whose middle cannot hold the run can be skipped: no run starts inside it before its trailing zeros |
| `BitScan.FindAvailableBlocksInSlice` | assets/source/qdrant/lib/gridstore/src/bitmask/mod.rs:284-381 | The least start of a run of that many zeros, or nothing when there is none |
| `BitScan.SumFromStartIsPrefix` | assets/source/qdrant/lib/gridstore/src/bitmask/mod.rs:530-534 | Adding up the trailing zeros of words up to the first that is not zero gives the zeros the region begins with |
| `BitScan.SumFromEndIsSuffix` | assets/source/qdrant/lib/gridstore/src/bitmask/mod.rs:535-540 | The same for the zeros the region ends with |
| `BitScan.CalculateGaps` | assets/source/qdrant/lib/gridstore/src/bitmask/mod.rs:444-557 | Exactly the leading, trailing and longest runs of zeros of a region, although words that cannot improve the longest are skipped |
| `GapIndex.FoundIsRun` | assets/source/qdrant/lib/gridstore/src/bitmask/gaps.rs:205-241 | A window found in the index holds a run of free blocks that is long enough |
| `GapIndex.RunIsFound` | assets/source/qdrant/lib/gridstore/src/bitmask/gaps.rs:205-288 | If there is such a run anywhere, within a region or across regions, the index finds a window |
| `GapIndex.FoundIsFirst` | assets/source/qdrant/lib/gridstore/src/bitmask/gaps.rs:205-288 | The window found is the first, in terms of the bits alone, of as many regions as the blocks need, or of one more when no such window has a run |
| `GapIndex.ChosenIsUnique` | assets/source/qdrant/lib/gridstore/src/bitmask/gaps.rs:205-288 | That leaves one place only |
| `GapIndex.OverflowHidesRun` | assets/source/qdrant/lib/gridstore/src/bitmask/gaps.rs:257-288 | The input on which the sum of two 16-bit gaps wraps: two free regions of more than 0x7FFF blocks hide the run they form |
| `GapIndex.CompleteIffNoOverflow` | assets/source/qdrant/lib/gridstore/src/bitmask/gaps.rs:257-288 | The index finds every run if and only if a region has at most 0x7FFF blocks |
| `GapIndex.TrailingFreeIsSuffix` | assets/source/qdrant/lib/gridstore/src/bitmask/gaps.rs:173-181 | The trailing free blocks of the index are the zeros that the whole bitmask ends with |
| `BlockBitmask.Bitmask.constructor` | assets/source/qdrant/lib/gridstore/src/bitmask/mod.rs:83-112 | A new bitmask is one page of free blocks, and its index agrees with it |
| `BlockBitmask.Bitmask.UpdateRegionGaps` | assets/source/qdrant/lib/gridstore/src/bitmask/mod.rs:429-442 | If the index agrees with the bits outside the dirty regions it agrees everywhere afterwards, in any order of the regions |
| `BlockBitmask.Bitmask.MarkBlocksBatch` | assets/source/qdrant/lib/gridstore/src/bitmask/mod.rs:400-427 | Sets exactly the blocks of the ranges, overlapping or crossing pages and regions as they may, and the index agrees again |
| `BlockBitmask.Bitmask.MarkBlocks` | assets/source/qdrant/lib/gridstore/src/bitmask/mod.rs:383-392 | Sets exactly one run of blocks, and the index agrees |
| `BlockBitmask.Bitmask.CoverNewPage` | assets/source/qdrant/lib/gridstore/src/bitmask/mod.rs:200-235 | Appends a page of free blocks, and the index agrees with the longer bitmask |
| `BlockBitmask.Bitmask.FindAvailableBlocks` | assets/source/qdrant/lib/gridstore/src/bitmask/mod.rs:252-282 | A page and block where that many blocks are free, possibly across borders: the first place in the first window of as few regions as possible; or nothing exactly when there is no such run |
| `BlockBitmask.Bitmask.GetTrailingFreeBlocks` | assets/source/qdrant/lib/gridstore/src/bitmask/mod.rs:55-65 | The number of zeros that the bitmask ends with |
| `PagedStore.GetPageValueRanges` | assets/source/qdrant/lib/gridstore/src/pages.rs:127-186 | The sections that tile the value in order, each inside one page |
| `PagedStore.EndOfSections` | assets/source/qdrant/lib/gridstore/src/pages.rs:127-206 | The generator goes on exactly while bytes are missing, and each section ends where the next begins |
| `PagedStore.SectionAddress` | assets/source/qdrant/lib/gridstore/src/pages.rs:127-186 | Each section lies in one existing page, at the flat address that its place in the value says |
| `PagedStore.Pages.WriteToPages` | assets/source/qdrant/lib/gridstore/src/pages.rs:399-415 | Writes the value at its flat address and changes no byte outside it |
| `PagedStore.Pages.ReadFromPages` | assets/source/qdrant/lib/gridstore/src/pages.rs:208-237 | For every arrival order of the sections, the bytes at the flat address |
| `PagedStore.Pages.ReadBatchFromPages` | assets/source/qdrant/lib/gridstore/src/pages.rs:247-343 | For every interleaving of the sections of a batch: each slot is called back exactly once, with the bytes that a single read gives |
| `PagedStore.AllDelivered` | assets/source/qdrant/lib/gridstore/src/pages.rs:247-343 | When all sections have arrived no partial buffer is left and every slot has been called back |
| `PostingValues.ProcessValues` | assets/source/qdrant/lib/posting_list/src/value_handler.rs:82-109 | Sized values are kept; others are laid out one after the other with their starts, unless they outgrow 32-bit offsets |
| `PostingValues.WriteValues` | assets/source/qdrant/lib/posting_list/src/value_handler.rs:96-106 | Every value is written where its offset says, over no other value |
| `PostingValues.CutIsValue` | assets/source/qdrant/lib/posting_list/src/value_handler.rs:111-121 | The bytes between a start and the next start, or the end, decode to the value |
| `PostingList.WrittenIsStored` | assets/source/qdrant/lib/posting_list/src/view.rs:96-115 | A compressed chunk decompresses to its ids: the width computed back from its byte size is the one it was packed with |
| `PostingList.SomePackerPacks` | assets/source/qdrant/lib/posting_list/src/builder.rs:51-100 | The promises assumed of the block compressor can be kept |
| `PostingList.MakeChunks` | assets/source/qdrant/lib/posting_list/src/builder.rs:55-76 | One chunk for every 128 ids with its first id, its values and where its bytes start |
| `PostingList.MakeRemainders` | assets/source/qdrant/lib/posting_list/src/builder.rs:78-85 | The ids and values past the last full chunk |
| `PostingList.CompressIds` | assets/source/qdrant/lib/posting_list/src/builder.rs:87-100 | Every chunk is written into its own slice, whose size is that of the packed ids |
| `PostingList.BuiltIsPacked` | assets/source/qdrant/lib/posting_list/src/builder.rs:55-100 | Every block is compressed with the bits the compressor asks for, and the blocks fill the bytes without gaps |
| `PostingList.PostingBuilder.Build` | assets/source/qdrant/lib/posting_list/src/builder.rs:36-112 | For any outcome of the unstable sort the list represents exactly the added elements in id order, packed without gaps; it fails exactly when an offset outgrows 32 bits |
| `PostingSearch.IdsRangeIsRange` | assets/source/qdrant/lib/posting_list/src/view.rs:137-148 | The range from a chunk on is from the first id there to the last id of the list |
| `PostingSearch.FindChunk` | assets/source/qdrant/lib/posting_list/src/view.rs:154-199 | The chunk found begins with the id or is the only one that can hold it, whichever equal first id the binary search picks; none is found only when the remainders may hold it |
| `PostingSearch.AnswerIsLeast` | assets/source/qdrant/lib/posting_list/src/visitor.rs:50-110 | Every answer is an offset of the least id from the start chunk on that is at least the target, and there is none exactly when no id is |
| `PostingSearch.FirstIffNotRepeated` | assets/source/qdrant/lib/posting_list/src/visitor.rs:50-110 | The documented promise of the first offset holds for every binary search that keeps its contract if and only if the start chunk begins with an id that is large enough or the target is not repeated from there on |
| `PostingSearch.RepeatIsMissed` | assets/source/qdrant/lib/posting_list/src/visitor.rs:50-110 | For every list in which the target is repeated from within one chunk into the next, no answer that any binary search leads to is the first offset |
| `PostingSearch.FirstIsMissed` | assets/source/qdrant/lib/posting_list/src/visitor.rs:50-110 | A sorted list on which the documented promise fails: the first offset is 1 and the answer is 128 |
| `PostingSearch.PostingVisitor.DecompressedChunk` | assets/source/qdrant/lib/posting_list/src/visitor.rs:40-48 | The cache afterwards holds the ids of the chunk, whether it did before or not |
| `PostingSearch.PostingVisitor.SearchGreaterOrEqual` | assets/source/qdrant/lib/posting_list/src/visitor.rs:53-110 | An answer that a conforming binary search leads to: an offset of the least id from the start chunk on that is at least the target, the first one when the target is not repeated, and nothing exactly when there is none |
| `PostingSearch.PostingVisitor.Contains` | assets/source/qdrant/lib/posting_list/src/visitor.rs:112-134 | Whether the id is in the list, for every id and every list |
| `PostingSearch.PostingVisitor.GetByOffset` | assets/source/qdrant/lib/posting_list/src/visitor.rs:136-181 | The element at the offset with its value, across chunk and remainder borders, and nothing past the end |
| `PostingSearch.PostingIterator.Next` | assets/source/qdrant/lib/posting_list/src/iterator.rs:66-74 | The element at the offset, which moves on by one |
| `PostingSearch.PostingIterator.AdvanceUntilGreaterOrEqual` | assets/source/qdrant/lib/posting_list/src/iterator.rs:30-60 | Under any mix of calls the iterator never moves back and returns an element of the least id not before it that is at least the target, the first one when the target is not repeated, or nothing exactly when there is none; its offset is on that element unless the current one was returned at once |
| `PostingSearch.AdvanceFirstIff` | assets/source/qdrant/lib/posting_list/src/iterator.rs:30-60 | The element searched for is the first one not before the iterator if and only if the chunk of the offset begins with an id that is large enough or the target is not repeated |
| `PostingSearch.PostingIterator.AdvanceThenNext` | assets/source/qdrant/lib/posting_list/src/iterator.rs:30-74 | The next element after an advance is the same element once more if and only if the advance did not return at once an element that came from the same method |
| `ShufflePermutation.StepBackUndoesStep` | assets/source/qdrant/lib/quantization/src/turboquant/permutation.rs:26-43 | Stepping the generator back undoes a step, for all 64-bit states |
| `ShufflePermutation.DrawIs` | assets/source/qdrant/lib/quantization/src/turboquant/permutation.rs:30-33 | The n-th draw in closed form, modulo 2^64 |
| `ShufflePermutation.BoundedRandIs` | assets/source/qdrant/lib/quantization/src/turboquant/permutation.rs:138-140 | A bounded draw is the remainder of the upper 32 bits |
| `ShufflePermutation.UnshuffleUndoesShuffle` | assets/source/qdrant/lib/quantization/src/turboquant/permutation.rs:97-131 | Replaying the draws backwards undoes the swaps |
| `ShufflePermutation.PermutedIsPicked` | assets/source/qdrant/lib/quantization/src/turboquant/permutation.rs:97-104 | The shuffle picks, from the last place to the first, one of the elements that are left, by the remainder of the upper half of each draw |
| `ShufflePermutation.PicksAreTold` | assets/source/qdrant/lib/quantization/src/turboquant/permutation.rs:97-104 | Different picks give different orders |
| `ShufflePermutation.EveryOrderIsPicked` | assets/source/qdrant/lib/quantization/src/turboquant/permutation.rs:97-104 | Every order of the elements is that of some picks |
| `ShufflePermutation.PermutationIsReversible` | assets/source/qdrant/lib/quantization/src/turboquant/permutation.rs:97-131 | For every seed and sequence the inverse permutation restores it, on either side, and the permutation keeps the multiset of elements |
| `ShufflePermutation.Permutation.CalculateEndState` | assets/source/qdrant/lib/quantization/src/turboquant/permutation.rs:73-81 | The state after as many draws as the shuffle makes |
| `ShufflePermutation.Permutation.Permute` | assets/source/qdrant/lib/quantization/src/turboquant/permutation.rs:97-104 | The array is shuffled in place |
| `ShufflePermutation.Permutation.Unpermute` | assets/source/qdrant/lib/quantization/src/turboquant/permutation.rs:111-131 | Walking the generator back from the end state undoes the shuffle in place |
| `WalshHadamard.WhtTwice` | assets/source/qdrant/lib/quantization/src/turboquant/rotation.rs:46-61 | The transform applied twice multiplies every element by the length, for every power of two |
| `WalshHadamard.WhtIs` | assets/source/qdrant/lib/quantization/src/turboquant/rotation.rs:46-61 | Element i of the transform is the sum of all elements, with a minus where the two numbers have an odd count of common ones |
| `WalshHadamard.ButterflyDoublesStage` | assets/source/qdrant/lib/quantization/src/turboquant/rotation.rs:48-60 | A pass of butterflies turns transformed blocks of one size into transformed blocks of twice the size |
| `WalshHadamard.InPlaceWalshHadamard` | assets/source/qdrant/lib/quantization/src/turboquant/rotation.rs:46-61 | The nested loops over the array compute the recursive transform |
| `VectorRotation.ChunksTile` | assets/source/qdrant/lib/quantization/src/turboquant/rotation.rs:102-115 | The chunk sizes are strictly decreasing powers of two that add up to the dimension |
| `VectorRotation.ComputeChunkSizes` | assets/source/qdrant/lib/quantization/src/turboquant/rotation.rs:102-115 | Taking the highest power of two each time gives those sizes |
| `VectorRotation.ChunkEntry` | assets/source/qdrant/lib/quantization/src/turboquant/rotation.rs:145-161 | Each element of the normalized transform is the factor of its chunk times such a sum over the chunk |
| `VectorRotation.NormalizedTwice` | assets/source/qdrant/lib/quantization/src/turboquant/rotation.rs:145-161 | The normalized chunked transform is its own inverse, for every dimension |
| `VectorRotation.SomeNormNormalizes` | assets/source/qdrant/lib/quantization/src/turboquant/rotation.rs:145-161 | A square root of two is enough to normalize chunks of every size, so that what is asked of the normalizer can be met |
| `VectorRotation.WhtNormalizedChunks` | assets/source/qdrant/lib/quantization/src/turboquant/rotation.rs:145-161 | The loop over chunks computes it in place |
| `VectorRotation.RotationIsReversible` | assets/source/qdrant/lib/quantization/src/turboquant/rotation.rs:118-142 | The inverse rotation undoes the rotation, for every dimension, vector and list of seeds |
| `VectorRotation.ApplyRotation` | assets/source/qdrant/lib/quantization/src/turboquant/rotation.rs:118-127 | The array is rotated in place |
| `VectorRotation.ApplyInverseRotation` | assets/source/qdrant/lib/quantization/src/turboquant/rotation.rs:130-142 | The array is rotated back in place |
| `VectorRotation.RotatedByEach` | assets/source/qdrant/lib/quantization/src/turboquant/rotation.rs:118-127 | Each permutation given adds a shuffle by its own seed and a transform, in their order |
| `VectorRotation.InverseRotatedByEach` | assets/source/qdrant/lib/quantization/src/turboquant/rotation.rs:130-142 | The inverse undoes each by its own seed, the last one first |
| `VectorRotation.RandomVectorRotation` | assets/source/qdrant/lib/quantization/src/turboquant/rotation.rs:65-73 | The array is rotated by one-way permutations of the three seeds |
| `VectorRotation.RandomVectorRotationInverse` | assets/source/qdrant/lib/quantization/src/turboquant/rotation.rs:77-86 | The array is rotated back by reversible permutations of the same seeds |
| `VectorRotation.TwoElements` | assets/source/qdrant/lib/quantization/src/turboquant/rotation.rs:10-10 | Two elements are left in place by the first seed and swapped by each of the others |
| `VectorRotation.RotateAndBack` | assets/source/qdrant/lib/quantization/src/turboquant/rotation.rs:65-86 | Rotating an array in place and back, with permutations built anew each time, leaves it as it was |
| `VectorRotation.RotationPreservesDot` | assets/source/qdrant/lib/quantization/src/turboquant/rotation.rs:118-127 | Rotating two vectors changes no dot product, hence no length and no angle |
| `PqProtocol.PassingIsInTurn` | assets/source/qdrant/lib/quantization/src/lib.rs:58-66 | A task leaves the wait only in its turn: when the handle count lets it go, its permission is set as well |
| `PqProtocol.HandlesAreCounted` | assets/source/qdrant/lib/quantization/src/encoded_vectors_pq.rs:230-276 | The handle count of a condition variable goes up by one for each clone and down by one for each handle that is dropped, and no other step changes it |
| `PqProtocol.StepKeeps` | assets/source/qdrant/lib/quantization/src/encoded_vectors_pq.rs:221-279 | Every step of every task and of the spawning thread keeps the invariant |
| `PqProtocol.PushedInOrder` | assets/source/qdrant/lib/quantization/src/encoded_vectors_pq.rs:221-279 | For every number of tasks and every interleaving the vectors reach the storage in data order, each once, and all of them once every task is done |
| `PqProtocol.SomeStepIsEnabled` | assets/source/qdrant/lib/quantization/src/encoded_vectors_pq.rs:221-279 | Until every task is done some step other than a spurious wake-up is possible: no wake-up is lost |
| `PqProtocol.RunsEnd` | assets/source/qdrant/lib/quantization/src/encoded_vectors_pq.rs:221-279 | Apart from spurious wake-ups no run is longer than a bound fixed at its start |
| `BinaryScore.BitsAreNumber` | assets/source/qdrant/lib/quantization/src/encoded_vectors_binary.rs:738-742 | The bits of a number, each shifted to its place, add up to it |
| `BinaryScore.ChunkIsTerms` | assets/source/qdrant/lib/quantization/src/encoded_vectors_binary.rs:257-263 | The planes of one word add up, lane by lane, to the terms of its entries, and padding adds nothing |
| `BinaryScore.ScoreIsTermSum` | assets/source/qdrant/lib/quantization/src/encoded_vectors_binary.rs:257-263 | The transposed score of any packed bits and any transposed entries is the sum of (all ones minus the entry) where the bit is set and of the entry where it is not |
| `BinaryScore.XorPopcntScalar` | assets/source/qdrant/lib/quantization/src/encoded_vectors_binary.rs:402-408 | The nested loops compute that score |
| `BinaryScore.XorPopcnt` | assets/source/qdrant/lib/quantization/src/encoded_vectors_binary.rs:205-209 | The loop computes the score of a query stored like a vector |
| `BinaryScore.PopcntIsHamming` | assets/source/qdrant/lib/quantization/src/encoded_vectors_binary.rs:140-144 | That score is the number of differing bits of the two vectors |
| `BinaryEncoding.StorageFits` | assets/source/qdrant/lib/quantization/src/encoded_vectors_binary.rs:266-283 | The words hold all bits in whole groups with less than a group to spare, for both word types |
| `BinaryEncoding.StorageIsGrouped` | assets/source/qdrant/lib/quantization/src/encoded_vectors_binary.rs:266-283 | A group is 16 bytes for more than 128 bits and for wide words, 8 for more than 64, 4 for more than 32, and 1 below |
| `BinaryEncoding.TwoBitsGrow` | assets/source/qdrant/lib/quantization/src/encoded_vectors_binary.rs:616-663 | A greater value never loses a bit, and the second bit is only set with the first |
| `BinaryMeaning.TwoBitsAre` | assets/source/qdrant/lib/quantization/src/encoded_vectors_binary.rs:616-663 | The thresholds as products of the deviation, and the branches without statistics and with hardly any deviation |
| `BinaryMeaning.SignBits` | assets/source/qdrant/lib/quantization/src/encoded_vectors_binary.rs:550-560 | The single bits are the signs |
| `BinaryMeaning.BothBits` | assets/source/qdrant/lib/quantization/src/encoded_vectors_binary.rs:562-581 | Where the two bits of each element are, by its own statistics |
| `BinaryMeaning.SharedBits` | assets/source/qdrant/lib/quantization/src/encoded_vectors_binary.rs:583-614 | A shared bit is set exactly when the second bit of one of its two elements is |
| `BinaryMeaning.BitsGrow` | assets/source/qdrant/lib/quantization/src/encoded_vectors_binary.rs:527-548 | In all encodings, raising an element never clears a bit |
| `BinaryEncoding.EncodeOneBitVector` | assets/source/qdrant/lib/quantization/src/encoded_vectors_binary.rs:550-560 | The words are the packed signs |
| `BinaryEncoding.EncodeTwoBitsVector` | assets/source/qdrant/lib/quantization/src/encoded_vectors_binary.rs:562-581 | The words are the packed first bits followed by the second bits |
| `BinaryEncoding.EncodeOneAndHalfBitsVector` | assets/source/qdrant/lib/quantization/src/encoded_vectors_binary.rs:583-614 | The words are the packed first bits followed by one second bit for every two elements |
| `BinaryEncoding.EncodeVector` | assets/source/qdrant/lib/quantization/src/encoded_vectors_binary.rs:527-548 | The right number of words, holding the bits of the chosen encoding |
| `BinaryEncoding.QuantizedIsNear` | assets/source/qdrant/lib/quantization/src/encoded_vectors_binary.rs:721-738 | Unless the query is nearly zero no entry wraps or outgrows its word, and each is within half a step of its value |
| `BinaryMeaning.UpperHalfIsSign` | assets/source/qdrant/lib/quantization/src/encoded_vectors_binary.rs:721-738 | Unless the query is nearly zero, an entry is in the upper half of the numbers exactly when it is not negative |
| `BinaryMeaning.NearlyZeroIsZero` | assets/source/qdrant/lib/quantization/src/encoded_vectors_binary.rs:731-735 | A query that is nearly zero has no entries but zeros |
| `BinaryMeaning.ExtendedIs` | assets/source/qdrant/lib/quantization/src/encoded_vectors_binary.rs:684-712 | The query stands once or twice, and followed by one entry for every two |
| `BinaryMeaning.SharedEntry` | assets/source/qdrant/lib/quantization/src/encoded_vectors_binary.rs:697-710 | An entry for two is at least both of them and equals one |
| `BinaryEncoding.EncodeScalarQueryVector` | assets/source/qdrant/lib/quantization/src/encoded_vectors_binary.rs:714-749 | The nested loops transpose the quantized entries, word by word, for all entries that have at most the bits of a word |
| `BinaryEncoding.ScoreEncoded` | assets/source/qdrant/lib/quantization/src/encoded_vectors_binary.rs:684-712 | Encoding a vector and a query in any of the three encodings and scoring them gives the sum over the extended entries |
| `BinaryMeaning.MatchIsLeast` | assets/source/qdrant/lib/quantization/src/encoded_vectors_binary.rs:257-263 | Bits that tell which entries are in the upper half score less than all others |
| `BinaryMeaning.SameSignsScoreLeast` | assets/source/qdrant/lib/quantization/src/encoded_vectors_binary.rs:550-560 | With one bit an element no vector scores less against a query than one with its signs, and none with other signs as little |

## Left out

- Files, memory maps, JSON, paths, opening an existing store, hardware counters, `clear` and `wipe`: input and output. A file is what memory shows and what is on disk; flushing is every address written back at least once between its begin and its end, unless it was clean.
- Several flushers at once, and readers that reload a store written by another process: outside the discipline that the code's own tests follow.
- The index of gaps after a crash: it is stored apart from the bitmask and their agreement is not promised, so it is proved for running stores only.
- The flush of the bitmask file and its reopening inside `cover_new_page`: a new page and its blocks appear in one step, in memory and on disk.
- Input and output errors and stop flags, in the store and in the encoding of vectors: results are discarded there.
- lz4, the encoding of values, the block compressor of ids, sorting and binary search: their contracts are assumed, or in the case of binary search reimplemented under the same contract. `PostingList.SomePackerPacks` shows that what is assumed of the compressor can be kept.
- The vector instructions in C and in intrinsics: the scalar loops are modelled.
- Floating-point rounding: the rotation and the quantization of queries compute on reals, with a normalizer `norm` for which `norm(n) * norm(n) * n == 1` for powers of two. `VectorRotation.SomeNormNormalizes` makes one from a square root of two, whose existence is not derivable here because the reals come without completeness.
- Widths of machine integers other than the 64-bit generator, the 16-bit sum of gaps, the 32-bit offsets of a posting list and the 8-bit width of a chunk: counters are unbounded.
- `get_storage_size_bytes`, `infer_num_pages`, `calculate_metric` and the statistics of vectors: they would only add easy members.
- The k-means and scoring parts of product quantization, the other quantizers, the approximate quantiles of `p_square.rs`, sparse vectors, and the Python package.
- GridMachine: a put or delete runs alone among puts and deletes, as `&mut self` demands; only the flusher, the kernel and crashes come between its steps.
- Gridstore.Gridstore.PutValue: as a method it runs between the phases of a flusher, not inside them; the finer interleavings are runs of the machine, and the frees of a flusher during allocation are in `Allocation.FindOrCreateAvailableBlocks`.
- PointerTracker.Tracker.Set: the updates of a point are values, so updating them in place through a reference into the hash map is not captured.
- BitScan.FindAvailableBlocksInSlice: a machine word is the sequence of its 64 bits, least significant first, and its counting and shifting instructions are functions on that sequence.
- BlockBitmask.Bitmask.constructor: asks that a region is a multiple of 64 blocks, and with it `Gridstore.Gridstore.constructor`. The configuration does not check this; the code asserts it whenever it scans regions (bitmask/mod.rs:296-300 and 448-454), and already the first region of another size ends inside a word.
- PostingList.PostingBuilder.Build: the order in which the unstable sort leaves elements with equal ids is a parameter.
- PostingSearch.PostingVisitor.SearchGreaterOrEqual: its answers are described for every start chunk; what they mean is proved for those up to the remainders, and no caller passes another.
- PqProtocol.SomeStepIsEnabled: the mutex of a condition variable is not a separate step; testing the flag and the handle count, and then sleeping, is one.
- BinaryEncoding.EncodeScalarQueryVector: rounding is to the nearest integer of a real quotient, and the test for a nearly zero query uses the machine epsilon of 32-bit floats as a real.
