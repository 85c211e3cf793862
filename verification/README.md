# A verified model of the zmalloc allocator and the fn-log ring

This project models, in Dafny 4.11, the parts of the profiler's bundled libraries whose correctness is hardest to
see from the code, and proves what they promise.

**zmalloc** (`Bits`, `SizeClasses`, `Tiling`, `IntrusiveLists`, `Bins`, `Roles`, `Core`, `SlotBlocks`, `BlockLists`,
`HeldBlocks`, `Accounting`, `Books`, `ZmallocState`, `Zmalloc`, `Guarantees`, `RuntimeChecks`) is a boundary-tag
allocator with 8 MiB blocks, two levels of 64 bins with a bitmap each, a designated victim per level, direct blocks,
a bounded reserve, colour counters and a slot allocator. `Zmalloc.Zmalloc` is a class whose fields are those of the
source and of the headers in its blocks, and whose methods update them step by step. Chunk headers are addressed by
chunk address. The ghost field `model` says which addresses are chunks and whether each is live, in a list, the
victim, or in hand inside an operation. `Valid()` is kept by the constructor and by every public method, so it holds
after every sequence of calls; `Guarantees` and `RuntimeChecks` say what it means in terms of headers, lists, bitmaps
and counters alone.

**The fn-log ring** (`RingState`, `RingInvariant`, `RingDelivery`, `RingProgress`, `RingRuns`, `RingCalls`,
`RingAlone`, `RingRecovery`, `RingLap`) is a lock-free queue of four indices and a mark per slot. It is modelled as a machine that
makes one load, store or compare-exchange of one thread at a time, for any number of threads, any ring length above
one, and synchronous and asynchronous channels. Indices are kept as unbounded tickets, but every comparison is made
on the stored index, the ticket modulo the ring length, as in the code; that a thread does not sleep for whole laps
of the ring between its load and its compare-exchange is therefore a stated assumption (`UnlappedRun`). What is
needed exactly is that the checks behind a successful compare-exchange still hold (`StepInv` and
`UnguardedStepBreaksInv`); an unlapped run guarantees it, and `LappedRun` shows what happens without.

**Smaller parts**: the pool with its free list inside the chunks (`Zpool`), the decimal and hexadecimal writers
(`NumberWriters`), and the bit-list parser (`BitArrays`).

**The configuration** (`ConfigLines`, `ConfigLexer`, `ConfigWritten`, `ConfigShapes`, `ConfigDefines`, `ConfigPass`,
`ConfigResults`, `ConfigRows`, `ConfigDocuments`, `ConfigTexts`, `ConfigParser`): the lexer, the `define` and `var` lines, which rewrite the text behind them in place, and the parser
of three levels, each of which goes back to the start of a line that is not its own. `Parser` is a class that updates
the text, the position and the line number as the source does; it is proved to come to the same result as a single
pass that never goes back, and the guarantees are proved of that pass. Lines, rows and whole documents are written
down as data, and reading what was written gives the data back.

Some of what the proofs brought out differs from what the code's own checks, messages and comments suggest; the code
is followed.

- With the run-time checks compiled in, `check_chunk` rejects every object chunk of a slot below 1040 bytes, since
  such chunks carry the big flag, and `check_free_chunk` rejects freed chunks that carry the number of a slot from 64
  on (`ChunkCheck` and `FreeChunkCheck` have the exact conditions).
- An undefined configuration key is reported with the number of the line behind it, other errors with that of their
  own line (`UndefinedIs`, `FailureLine`).
- A text that defines no channel is rejected unless it is empty or its last line has no key (`TextsWithoutChannel`).
- The blanks before the value of a variable count towards its length, since the loop that is to skip them tests the
  name (`BlanksCount`), and a name defined as itself hangs the parser if it is used (`MacroForever`, `TextsEnd`).

`dafny verify dfyconfig.toml` checks the whole project.

## Model

| member | source | states |
|---|---|---|
| RingState.SlotIsModulo | example/common/include/fn-log/fn_log.h:4067-4068 | the index kept for a ticket is the ticket modulo the ring length |
| RingState.SlotSuccessor | example/common/include/fn-log/fn_log.h:4068 | stepping the stored index modulo the ring length is stepping the ticket |
| RingState.SlotInjective | example/common/include/fn-log/fn_log.h:4413-4418 | two tickets fewer than a ring length apart never share a slot |
| RingState.Step | example/common/include/fn-log/fn_log.h:4057-4481 | one load, store or compare-exchange of one thread, over the code of HoldChannel, PushChannel and EnterProcChannel; it keeps the ring length, the kind of channel and the number of threads |
| RingInvariant.StepInv | example/common/include/fn-log/fn_log.h:4388-4481 | every step keeps the invariant (order of the four indices, mark and owner of every slot in the window, what every thread may still rely on after its loads), provided a compare-exchange that succeeds was made with checks that still hold |
| RingInvariant.UnguardedStepBreaksInv | example/common/include/fn-log/fn_log.h:4413-4424 | the other half: a compare-exchange that succeeds with checks that no longer hold always breaks the invariant |
| RingInvariant.NotLappedIsGuarded | example/common/include/fn-log/fn_log.h:4413-4424 | a thread that has not slept for whole laps of the ring makes every successful compare-exchange with checks that still hold, however old its loads are |
| RingDelivery.StepDelivery | example/common/include/fn-log/fn_log.h:4065-4083 | every step keeps: a ticket is in the log once it is past its dispatch and only once, with the text its producer published; on an asynchronous channel the log is in ticket order |
| RingProgress.StepDuties | example/common/include/fn-log/fn_log.h:4113-4127 | every step keeps: whenever the write, claim or read index could advance, some thread is in the loop that advances it and reloads the index or already holds its current value |
| RingRuns.RunGood | example/common/include/fn-log/fn_log.h:4065-4142 | all of these hold after every guarded run of any number of threads |
| RingRuns.UnlappedRunIsGuarded | example/common/include/fn-log/fn_log.h:4388-4481 | a run in which no thread sleeps for a whole lap is guarded at every step |
| RingRuns.ReachableGood | example/common/include/fn-log/fn_log.h:4388-4481 | so they hold in every state that any such run reaches from an empty channel |
| RingRuns.OneOwnerPerSlot | example/common/include/fn-log/fn_log.h:4413-4476 | two threads are never inside the same slot: neither two producers, nor a producer and a dispatcher, nor two dispatchers |
| RingRuns.DispatchUndisturbed | example/common/include/fn-log/fn_log.h:4081-4083 | while a thread dispatches a slot no step of another thread changes its text or mark |
| RingRuns.AtMostOnce | example/common/include/fn-log/fn_log.h:4075-4083 | a dispatched ticket is dispatched once, with the published text, and was claimed |
| RingRuns.AsyncOrder | example/common/include/fn-log/fn_log.h:4057-4083 | on an asynchronous channel the dispatched sequence is a prefix of the order tickets were taken in |
| RingRuns.QuiescentIndices | example/common/include/fn-log/fn_log.h:4457-4478 | when all threads have returned, what was taken is published and what was claimed is retired; on a synchronous channel all four indices agree |
| RingRuns.QuiescentSyncDelivered | example/common/include/fn-log/fn_log.h:4474-4478 | then every ticket of a synchronous channel is in the log exactly once |
| RingRuns.RunSafety | example/common/include/fn-log/fn_log.h:4065-4142 | after every unlapped run from start-up: `read <= proc <= write <= hold < read + N`; free slots are invalid, published ones ready and intact, claimed ones ready until their claimer clears them; no slot has two owners |
| RingRuns.RunDelivery | example/common/include/fn-log/fn_log.h:4065-4083 | after every such run: at most once, the published text, and ticket order on an asynchronous channel |
| RingRuns.RunQuiescence | example/common/include/fn-log/fn_log.h:4457-4478 | after every such run that leaves all threads idle: nothing taken is unpublished, nothing claimed unretired, and a synchronous channel has dispatched every ticket |
| RingAlone.ProcessAlone | example/common/include/fn-log/fn_log.h:4067-4127 | a thread in the claim loop that runs alone claims, dispatches, clears and retires the next published ticket |
| RingAlone.DrainAlone | example/common/include/fn-log/fn_log.h:4065-4142 | run alone it processes everything published and then leaves |
| RingRecovery.Recover | example/common/include/fn-log/fn_log.h:3122-3144 | the recovery loop runs once for each ticket taken and not published; afterwards `write == hold` and `proc == read`, the repaired slots are ready with the recovery text appended, and the others are as before |
| RingRecovery.RecoveredGood | example/common/include/fn-log/fn_log.h:3122-3144 | from any reachable state of an asynchronous channel the repaired ring satisfies everything a reachable state does |
| RingRecovery.ConsumerDrains | example/common/include/fn-log/fn_log.h:4065-4127 | from any good state with its consumer idle there is a run of the consumer alone that empties an asynchronous channel |
| RingRecovery.CrashRecovery | example/common/include/fn-log/fn_log.h:3116-3144 | the repaired ring can be drained, and then every ticket from the read index on has been dispatched, in order |
| RingRecovery.DeliveredDespiteCrash | example/common/include/fn-log/fn_log.h:3116-3144 | every ticket is delivered at least once, before or after the crash, published ones with their text and the others with the text found, cut to 9980 characters, and the recovery text; only tickets from the read index to the old claim index can be delivered twice |
| RingCalls.HoldStep | example/common/include/fn-log/fn_log.h:4398-4431 | a thread in the loop of HoldChannel stays in it or takes the next ticket, and never gives up: a full ring or a lost exchange sends it back to the start of the loop |
| RingCalls.EveryCallCounts | example/common/include/fn-log/fn_log.h:4388-4434 | after every run from start-up the calls of HoldChannel are as many as the tickets taken and the threads still in the loop |
| RingCalls.EveryCallDelivered | example/common/include/fn-log/fn_log.h:4388-4481 | when all threads have returned, a synchronous channel has dispatched exactly one message for each call |
| RingCalls.PublishStep | example/common/include/fn-log/fn_log.h:4460-4480 | the publishing loop moves the write index exactly by its successful exchanges, and is left exactly where nothing is held or the next slot is not ready, to the processing loop on a synchronous channel and for good on an asynchronous one |
| RingCalls.ClaimStep | example/common/include/fn-log/fn_log.h:4067-4082 | the claiming loop is left exactly where nothing is published or another thread was faster; otherwise the thread dispatches the ticket it claimed |
| RingCalls.RetireStep | example/common/include/fn-log/fn_log.h:4113-4127 | the retiring loop moves the read index exactly by its successful exchanges, and is left, for the claiming loop, exactly where nothing is claimed or the next slot is in use |
| RingCalls.FillSteps | example/common/include/fn-log/fn_log.h:4452-4457 | a thread that writes a text and finishes publishes this text, cut to LOG_SIZE - 2 characters and closed with a line end |
| RingCalls.DispatchedAsWritten | example/common/include/fn-log/fn_log.h:4081-4082 | in every unlapped run each dispatched text is so made of the draft of its ticket |
| RingCalls.LastWrite | example/common/include/fn-log/fn_log.h:4452-4457 | the draft of a ticket is what its owner wrote last, whatever the other threads do meanwhile |
| RingLap.LogAlone | example/common/include/fn-log/fn_log.h:4388-4481 | on an empty synchronous channel a thread that runs alone delivers the text it writes, cut to fit and closed with a line end, and leaves all indices equal |
| RingLap.LappedRun | example/common/include/fn-log/fn_log.h:4413-4424 | for every ring length a run whose last compare-exchange is made by a thread that slept for one lap: `hold` passes `read` by a whole ring, and the full ring looks empty |
| Bits.LowBitTrick | example/common/include/zbase/zmalloc.h:144 | `bitmap & -bitmap` is the lowest set bit |
| Bits.LeastBitIndex | example/common/include/zbase/zmalloc.h:863 | the index of that bit is the least set bit |
| Bits.LowBitTests | example/common/include/zbase/zmalloc.h:839-842 | the tests of the two lowest bits, and the choice between them by the inverted word |
| Bits.FillRightValue | example/common/include/zbase/zmalloc.h:129-139 | fill_right sets every bit below the highest set one |
| Bits.BitOfSetBit | example/common/include/zbase/zmalloc.h:433 | setting a bit of the bitmap changes that bit only |
| Bits.BitOfUnsetBit | example/common/include/zbase/zmalloc.h:432 | clearing a bit of the bitmap changes that bit only |
| SizeClasses.CeilPowerOf2Is | example/common/include/zbase/zmalloc.h:142 | for 1 <= n <= 2^31 the least power of two not below n |
| SizeClasses.Align256Is | example/common/include/zbase/zmalloc.h:907 | the least multiple of 256 not below the request |
| SizeClasses.AlignUpIs | example/common/include/zbase/zmalloc.h:151-165 | the least multiple of the size of std::max_align_t, any power of two, not below the value; a multiple of 16 if that size is |
| SizeClasses.BigRounding | example/common/include/zbase/zmalloc.h:907-913 | for every big request: the rounded size is the least value {4,5,6,7} * 2^t not below the request rounded to 256, less than 5/4 of it, and its class number is in range and resolves to it |
| SizeClasses.ResolveInverts | example/common/include/zbase/zmalloc.h:177-189 | resolve_order_size inverts the class number exactly |
| SizeClasses.ResolveStep | example/common/include/zbase/zmalloc.h:189 | the sizes of the classes grow with the class number |
| SizeClasses.BigBinExact | example/common/include/zbase/zmalloc.h:727-734 | push_big_chunk files payload s in the one bin b with resolve(b) <= s < resolve(b + 1) |
| SizeClasses.BigBinInRange | example/common/include/zbase/zmalloc.h:727-734 | that bin exists for every chunk of a divided block |
| SizeClasses.SmallBinIs | example/common/include/zbase/zmalloc.h:718-726 | push_small_chunk files payload s in bin s / 16, the last bin being open-ended |
| SizeClasses.SmallIdIs | example/common/include/zbase/zmalloc.h:835-837 | the small class is at least the request and wastes less than 16 bytes, the least class apart |
| SizeClasses.DirectClassInRange | example/common/include/zbase/zmalloc.h:992-998 | the class a direct allocation is counted under is at most 62 |
| SizeClasses.DirectClassIs | example/common/include/zbase/zmalloc.h:992-998 | it is the class of the least class value that holds the request rounded to 256, up to class 62, and 62 beyond |
| Tiling.SplitTiled | example/common/include/zbase/zmalloc.h:754-766 | cutting a chunk keeps every block tiled and all boundary tags in agreement |
| Tiling.MergeTiled | example/common/include/zbase/zmalloc.h:1094-1113 | so does joining a chunk with the one behind it |
| Tiling.AddBlockTiled | example/common/include/zbase/zmalloc.h:603-647 | so does laying out a new block |
| Tiling.DropBlockTiled | example/common/include/zbase/zmalloc.h:650-703 | so does giving up a block that is all one chunk |
| Tiling.BlockIsTiled | example/common/include/zbase/zmalloc.h:445-446 | from the tags alone: walking a block by chunk sizes meets exactly its chunks, from head sentinel to tail sentinel, without a gap |
| IntrusiveLists.PushLinked | example/common/include/zbase/zmalloc.h:709-712 | linking a chunk in at the front keeps all lists well formed |
| IntrusiveLists.UnlinkLinked | example/common/include/zbase/zmalloc.h:744-745 | unlinking a chunk keeps all lists well formed |
| IntrusiveLists.ListIsExact | example/common/include/zbase/zmalloc.h:1543-1613 | walking a list visits exactly its chunks, each once: lists have no cycle |
| BlockLists.BlockListIsExact | example/common/include/zbase/zmalloc.h:1432-1478 | walking a block list visits exactly its blocks, each once |
| HeldBlocks.UnlinkUsed | example/common/include/zbase/zmalloc.h:652-669 | taking a block off the used list keeps both block lists |
| Bins.BinPickOk | example/common/include/zbase/zmalloc.h:739-752 | picking a chunk keeps the lists and clears the bit exactly when its bin became empty |
| Bins.LeastBin | example/common/include/zbase/zmalloc.h:861-866 | the search finds the least non-empty bin at or above the wanted one, the same as a scan would |
| Zmalloc.Zmalloc.constructor | example/common/include/zbase/zmalloc.h:773-811 | a fresh allocator is valid, and holds no block and no allocation, whatever the size of std::max_align_t, a power of two of at least 16 |
| Zmalloc.Zmalloc.AllocBlock | example/common/include/zbase/zmalloc.h:548-647 | a block comes from the reserve, or from the callback if that is empty or the block is a direct one; it becomes one chunk between two sentinels; if the callback refuses, only the counters change |
| Zmalloc.Zmalloc.LayOut | example/common/include/zbase/zmalloc.h:615-646 | writes the three headers of a new block; nothing else changes |
| Zmalloc.Zmalloc.FreeBlock | example/common/include/zbase/zmalloc.h:650-703 | the block leaves the used list; it goes to the reserve if it is not direct and the reserve is not full |
| Zmalloc.Zmalloc.PushChunk | example/common/include/zbase/zmalloc.h:705-716 | the chunk becomes the first of its bin, free, and the bit is set |
| Zmalloc.Zmalloc.PickChunk | example/common/include/zbase/zmalloc.h:739-752 | the chunk leaves its bin, and the bit is cleared if the bin is empty |
| Zmalloc.Zmalloc.ExploitNewChunk | example/common/include/zbase/zmalloc.h:754-766 | the high end of a chunk becomes a new chunk of the wanted size |
| Zmalloc.Zmalloc.MergeAndRelease | example/common/include/zbase/zmalloc.h:1085-1142 | a freed chunk is joined with free neighbours on either side, the victim among them; its block is released, or it is the victim, or it is filed; live allocations are untouched |
| Zmalloc.Zmalloc.MergeFront | example/common/include/zbase/zmalloc.h:1087-1100 | joins with the chunk in front, which may be the victim, exactly if that is free; the chunk returned is the one in front then and the chunk itself otherwise, and no other header changes its size |
| Zmalloc.Zmalloc.MergeNext | example/common/include/zbase/zmalloc.h:1102-1117 | joins with the chunk behind exactly if that is free; if that is the victim the joined chunk becomes the victim |
| Zmalloc.Zmalloc.Release | example/common/include/zbase/zmalloc.h:1123-1140 | the size test sends exactly the chunks that span their block to free_block; every other chunk goes to the bin of its size |
| Zmalloc.Zmalloc.TakeSmall | example/common/include/zbase/zmalloc.h:838-886 | the small path finds a chunk of at least the wanted size, with the stated bound; the first chunk of the wanted or the next bin if there is one, else the victim or its high end if it is large enough, else the least larger bin or a new block |
| Zmalloc.Zmalloc.CutSmall | example/common/include/zbase/zmalloc.h:877-886 | the unguarded division of the small path leaves two legal chunks; the old victim is filed |
| Zmalloc.Zmalloc.TakeBig | example/common/include/zbase/zmalloc.h:914-967 | the same for the big path, which looks at the wanted bin only before it turns to the victim |
| Zmalloc.Zmalloc.CutBig | example/common/include/zbase/zmalloc.h:953-966 | the big path divides only if the rest is a legal big chunk |
| Zmalloc.Zmalloc.BigSize | example/common/include/zbase/zmalloc.h:907-913 | computes the class and the payload of a big request |
| Zmalloc.Zmalloc.HandOut | example/common/include/zbase/zmalloc.h:888-901 | marks the chunk with colour and class and counts it, in all counters |
| Zmalloc.Zmalloc.AllocDirect | example/common/include/zbase/zmalloc.h:985-1012 | a direct request gets a block of its own, of exactly the rounded size, and fails exactly when the callback refuses |
| Zmalloc.Zmalloc.AllocMemory | example/common/include/zbase/zmalloc.h:813-1013 | keeps the allocator valid; returns one new allocation at a 16-byte aligned address with the colour and size asked for and leaves all others alone, or nothing; takes a new block exactly if no free chunk of the level is large enough, and fails only if there is none to take; a direct request fails exactly when the callback refuses |
| Zmalloc.Zmalloc.FreeMemory | example/common/include/zbase/zmalloc.h:1018-1082 | keeps the allocator valid; removes exactly this allocation and returns its payload size, which is at least the request; NULL does nothing, a chunk not in use only counts an error; a direct block is given up |
| Zmalloc.Zmalloc.ClearCache | example/common/include/zbase/zmalloc.h:1168-1195 | frees both victims and the whole reserve; live allocations are untouched |
| Zmalloc.Zmalloc.AllocSlot | example/common/include/zbase/zmalloc.h:1622-1724 | keeps the allocator valid; serves a request exactly if it names a slot, is positive and fits the size of the slot (for a slot without one, if a multiple of the alignment that holds it fits the block size with its headers), and an object of the slot is free or the callback grants a block; the object is aligned and less than two objects large; the slot has its sizes fixed and exactly this object counted |
| ZmallocState.SlotSizesAre | example/common/include/zbase/zmalloc.h:1641-1678 | the sizes a slot gets are the least multiples of the alignment that hold the request and the block size, and the least power of two that holds the block with its headers; a slot that has its sizes keeps them |
| ZmallocState.BlockBytesAre | example/common/include/zbase/zmalloc.h:550-573 | a block is 8 MiB, or for a direct or slot block the least power of two, or the least multiple of 16, that holds the request with its headers |
| Zmalloc.Zmalloc.SlotTake | example/common/include/zbase/zmalloc.h:1692-1711 | the first chunk of a slot list always holds an object |
| Zmalloc.Zmalloc.FreeSlot | example/common/include/zbase/zmalloc.h:1727-1818 | keeps the allocator valid; removes exactly this object; afterwards its block is held if and only if it still has a live object; exactly this object is counted as freed |
| Zmalloc.Zmalloc.SlotRelease | example/common/include/zbase/zmalloc.h:1804-1815 | the size test of free_slot fires exactly when the block has no live object left |
| SlotBlocks.SlotSizeTest | example/common/include/zbase/zmalloc.h:1804 | `this_size > max_chunk_size - user_size` holds exactly for a chunk that spans its block |
| SlotBlocks.BlockSizeTest | example/common/include/zbase/zmalloc.h:1123 | `this_size >= DEFAULT_BLOCK_SIZE - ...` holds exactly for a chunk that spans its block |
| SlotBlocks.WholeMeansUnused | example/common/include/zbase/zmalloc.h:1804-1809 | a free chunk of a coalesced block spans it exactly when the block has no live allocation |
| ZmallocState.ServesWhatFits | example/common/include/zbase/zmalloc.h:838-866 | the search by bitmap and victim finds a chunk if and only if some free chunk of the level is large enough |
| Guarantees.Payloads | example/common/include/zbase/zmalloc.h:813-1013 | in every valid state live payloads are aligned, at least as large as requested, inside one used block, and pairwise disjoint |
| Guarantees.LiveHeaders | example/common/include/zbase/zmalloc.h:1047-1081 | in every valid state the header of a live chunk has the size, colour, class and level it was handed out with |
| Guarantees.LegalSizes | example/common/include/zbase/zmalloc.h:1355-1378 | no chunk is ever smaller than the least of its level (32 and 1040 bytes), a direct block is one chunk, and every chunk of a slot has room for an object |
| Guarantees.BlocksAreTiled | example/common/include/zbase/zmalloc.h:1355-1378 | in every valid state every used block is tiled exactly by its chunks |
| Guarantees.NoFreeNeighbours | example/common/include/zbase/zmalloc.h:1380-1387 | in every valid state, of two physical neighbours at least one is in use, and their tags agree |
| Guarantees.ChunkPlaces | example/common/include/zbase/zmalloc.h:1389-1431 | a live chunk is in no list; a free chunk is the victim of its level and in no list, or in exactly the list its size or slot computes to, once |
| Guarantees.Victims | example/common/include/zbase/zmalloc.h:846-859 | a victim is a free chunk of a divided block of its level |
| Guarantees.BitmapIsExact | example/common/include/zbase/zmalloc.h:1543-1613 | a bit is set if and only if the walk through its bin visits a chunk |
| Guarantees.BlockListsAreExact | example/common/include/zbase/zmalloc.h:1432-1541 | the two block lists hold the used blocks and the reserve, each once and none in both; the counts are their lengths; the reserve keeps its limit; all blocks are disjoint regions |
| Guarantees.BlockCounters | example/common/include/zbase/zmalloc.h:554-601 | allocated less freed blocks, in number and in bytes, are the used ones if and only if the callback has refused none |
| Guarantees.Counters | example/common/include/zbase/zmalloc.h:889-901 | allocated less freed bytes are the bytes of the live chunks; allocated less freed chunks of a colour, level and bin below 63 are the live ones |
| Guarantees.LastCounters | example/common/include/zbase/zmalloc.h:889-901 | for bin 63 the difference is the number of live chunks of that bin and the bytes of the direct blocks of bin 62 |
| Guarantees.SlotCounters | example/common/include/zbase/zmalloc.h:1719-1721 | the same for the objects of each slot |
| Guarantees.BoundedWaste | example/common/include/zbase/zmalloc.h:835-858 | a live big chunk of class b has a payload below max(resolve(b + 1), resolve(b) + 1040); a small request of at most 976 bytes gets at most 16 * (id + 1) bytes |
| Guarantees.EmptyBlocksAreVictims | example/common/include/zbase/zmalloc.h:1119-1128 | a used divided block without a live allocation is all one chunk, the victim of its level |
| RuntimeChecks.ChunkCheck | example/common/include/zbase/zmalloc.h:1355-1378 | check_chunk passes for a chunk if and only if it is not a slot chunk smaller than 1040 bytes |
| RuntimeChecks.SmallObjectFailsCheck | example/common/include/zbase/zmalloc.h:1374-1377 | the first object of a slot for 32 bytes fails check_chunk |
| RuntimeChecks.FreeChunkCheck | example/common/include/zbase/zmalloc.h:1380-1387 | check_free_chunk passes for a free chunk between two used ones if and only if check_chunk does and it is not a slot chunk with a bin number of 64 or more |
| RuntimeChecks.DividedChunksPass | example/common/include/zbase/zmalloc.h:1117 | between operations it passes for every free chunk of a divided block |
| RuntimeChecks.HighSlotFailsCheck | example/common/include/zbase/zmalloc.h:1793 | the check at the end of free_slot fails when the only object of slot 64 is freed, although check_chunk passes |
| RuntimeChecks.FreeListCheck | example/common/include/zbase/zmalloc.h:1389-1431 | what check_free_chunk_list asks holds of every chunk in a bin |
| RuntimeChecks.BitmapCheck | example/common/include/zbase/zmalloc.h:1543-1613 | what check_bitmap asks holds of every bin |
| Zpool.AlignChunkSizeIs | example/common/include/zbase/zpool.h:53 | the chunk size is the least multiple of the alignment that holds the size, and the alignment itself for a size of zero |
| Zpool.Zpool.constructor | example/common/include/zbase/zpool.h:55-62 | an empty pool is valid |
| Zpool.Zpool.Exploit | example/common/include/zbase/zpool.h:73-96 | returns NULL exactly when all chunks are in use; otherwise a chunk inside the space that was not live, the last one given back if there is one, else the first never used |
| Zpool.Zpool.Back | example/common/include/zbase/zpool.h:98-108 | the chunk is no longer live and becomes the first of the free list, whose link is written into it; no other byte changes |
| Zpool.Zpool.Write | example/common/include/zbase/zpool.h:110-114 | an owner may write anything into its live chunk: the pool stays valid |
| Zpool.FreeListIsExact | example/common/include/zbase/zpool.h:73-108 | following the links in the bytes from `chunk_free_id_` visits every chunk used before and not live, each once; used and free chunks add up to the high-water mark |
| NumberWriters.TextReadsBack | example/common/include/fn-log/fn_log.h:2707-2747 | reading the digits of a number gives the number, in any base up to 16 |
| NumberWriters.LengthIs | example/common/include/fn-log/fn_log.h:2707-2747 | the length of a number is the least number of digits that holds it |
| NumberWriters.WrittenReadsBack | example/common/include/fn-log/fn_log.h:2694-2747 | what a writer leaves in the buffer reads back as the number |
| NumberWriters.WriteDec | example/common/include/fn-log/fn_log.h:2707-2747 | for every u64 and WIDE <= 30: the decimal digits, padded with zeros to max(WIDE, length); the 30-byte buffer is never left; nothing else is written |
| NumberWriters.StripAndPad | example/common/include/fn-log/fn_log.h:2736-2744 | drops the zero a pair of digits may start with and pads |
| NumberWriters.WriteSignedDec | example/common/include/fn-log/fn_log.h:2694-2703 | for every n > -2^63: the same, behind a minus sign and one narrower if n is negative |
| NumberWriters.HexLength | example/common/include/fn-log/fn_log.h:2775-2811 | the width chosen from the highest bit is the number of hexadecimal digits |
| NumberWriters.WriteHex | example/common/include/fn-log/fn_log.h:2751-2832 | for every number > 0 and every WIDE: the hexadecimal digits, padded to max(WIDE, length), odd widths included |
| BitArrays.ParseBitArray | example/common/include/fn-log/fn_log.h:1794-1843 | the bitmap has exactly the bits a recursive reading of the text gives, the end of a range being read again as an item |
| BitArrays.ListIsUnion | example/common/include/fn-log/fn_log.h:1794-1843 | for every comma-separated list of items n and n-m, either way round and with blanks around the dash, that is the union of the bits the items denote |
| ConfigLexer.LexEnds | example/common/include/fn-log/fn_log.h:2059-2109 | a line that was read ends at its first line end, CRLF or LFCR counting once, or with the text |
| ConfigLexer.LexReads | example/common/include/fn-log/fn_log.h:2110-2227 | what was read is no key, or a known key over its exact extent and a value behind it without blanks at its end |
| ConfigLexer.NulStops | example/common/include/fn-log/fn_log.h:2095-2109 | at an embedded NUL the lexer reads an empty line and does not move |
| ConfigLines.LinesAre | example/common/include/fn-log/fn_log.h:2086-2103 | in a text of lines each closed by LF, CR, CRLF or LFCR the line number of a position is one more than the lines before it |
| ConfigLines.LineNumbers | example/common/include/fn-log/fn_log.h:2086-2103 | so line k of such a text has number k + 1 |
| ConfigWritten.WrittenIsRead | example/common/include/fn-log/fn_log.h:2028-2228 | round trip: a line written as indentation, dashes, key, colon and value, bare or in quotes, brackets or braces, with blanks and a comment where they may be, is read back as exactly these |
| ConfigWritten.NextStarts | example/common/include/fn-log/fn_log.h:2086-2095 | however such a line is closed, the next one starts right behind its end |
| ConfigWritten.BareLine | example/common/include/fn-log/fn_log.h:2111-2125 | a line of blanks, dashes and a comment is read as one without a key |
| ConfigShapes.LexAccepts | example/common/include/fn-log/fn_log.h:2028-2228 | the lexer accepts exactly the lines of these two shapes, and finds a key exactly in those of the first; no line has both |
| ConfigShapes.NoName | example/common/include/fn-log/fn_log.h:2127-2131 | anything else at the start of a line is an illegal key |
| ConfigShapes.BadName | example/common/include/fn-log/fn_log.h:2136-2166 | an unknown name is an illegal key; a known one is not closed if the line ends, and no supported syntax if something else than a colon or a blank follows |
| ConfigShapes.NoColon | example/common/include/fn-log/fn_log.h:2154-2166 | the same behind a known name and blanks |
| ConfigShapes.Unclosed | example/common/include/fn-log/fn_log.h:2048-2057 | an enclosed value that is not shut before its line ends is not closed |
| ConfigWritten.DocumentedNames | example/common/include/fn-log/fn_log.h:1384-1559 | every key has its documented name, which is read as this key |
| ConfigWritten.LettersDecide | example/common/include/fn-log/fn_log.h:1384-1559 | names of one length that agree in seven of their letters are read as the same key, or are all unknown |
| ConfigDefines.LoopEnds | example/common/include/fn-log/fn_log.h:1857-1903 | the loop that replaces a name ends if and only if it is not the case that the padded value is the name itself and the name occurs at its bounds at or behind the start |
| ConfigDefines.RoundsEnd | example/common/include/fn-log/fn_log.h:1857-1903 | and then the loop leaves the rewritten text |
| ConfigDefines.RewriteKeeps | example/common/include/fn-log/fn_log.h:1844-1905 | a rewrite changes neither the length of the text nor a line end nor anything before its start |
| ConfigDefines.LeftBehind | example/common/include/fn-log/fn_log.h:1857-1903 | behind its start no occurrence at its bounds is left, but for those a replacement over or right behind their end has made, to which the search does not go back |
| ConfigDefines.RewriteIs | example/common/include/fn-log/fn_log.h:1857-1903 | a character that no replacement covers stays as it was; any other is the one that the last replacement over it has put there |
| ConfigDefines.ValueStands | example/common/include/fn-log/fn_log.h:1899-1902 | the value stands at every place of a replacement that no later one overlaps |
| ConfigDefines.PlacesAre | example/common/include/fn-log/fn_log.h:1857-1903 | a place away from the other replacements is replaced if and only if the name is written there, not before the start, and where it matters no letter, digit or underscore touches it |
| ConfigDefines.NothingToReplace | example/common/include/fn-log/fn_log.h:1860-1865 | nothing is replaced if and only if the name occurs nowhere at its bounds from the start on, and then the text is the same |
| ConfigDefines.ReplaceAll | example/common/include/fn-log/fn_log.h:1844-1905 | the method refuses values longer than the name, pads the others and rewrites the text |
| ConfigDefines.DefineMacro | example/common/include/fn-log/fn_log.h:1906-1938 | the name up to the first blank and its content are replaced as whole words, or the line is refused, exactly as the specification says |
| ConfigDefines.DefineVariables | example/common/include/fn-log/fn_log.h:1940-2020 | each `name = value` between commas is replaced, with braces and without, or the line is refused, exactly as the specification says |
| ConfigDefines.MacroForever | example/common/include/fn-log/fn_log.h:1906-1938 | a define never ends if and only if it defines a name as itself and the name is used, as a whole word, behind it |
| ConfigDefines.VariableForever | example/common/include/fn-log/fn_log.h:2003-2014 | a variable never ends if and only if its value is one of its own two uses and that use is left to be replaced |
| ConfigDefines.BlanksCount | example/common/include/fn-log/fn_log.h:1940-2020 | the blanks before a value count: a var line, unless a rewrite never ends, is accepted if and only if it is a list of definitions between commas each of whose values, from the equals sign on, is at most one character longer than its name; with a longer value it is refused as too long |
| ConfigDefines.CharactersAre | example/common/include/fn-log/fn_log.h:1297-1383 | the characters that are digits, blanks, line bounds, or parts of a name, one by one |
| ConfigDefines.DefineIs | example/common/include/fn-log/fn_log.h:1906-1938 | a define line of a name, a space, blanks and content: longer content is refused as too long, any other takes the place of the name, filled up with spaces |
| ConfigDefines.NoDefinition | example/common/include/fn-log/fn_log.h:1908-1919 | a define line is refused as not closed if and only if it has no space or starts with one |
| ConfigPass.DefineLineKeeps | example/common/include/fn-log/fn_log.h:2539-2560 | a define or var line leaves all line ends, and everything up to the end of its value, as they are |
| ConfigPass.PassEnds | example/common/include/fn-log/fn_log.h:2496-2606 | the single pass over the lines comes to an end if and only if its meaning is not a standstill |
| ConfigPass.EndlessIs | example/common/include/fn-log/fn_log.h:2496-2606 | for a whole pass: it goes on forever if and only if it comes to a line that it never leaves |
| ConfigPass.Standstill | example/common/include/fn-log/fn_log.h:2496-2606 | a line is never left if and only if it starts with a NUL, or is a define or var line of the outermost level whose rewrite never ends |
| ConfigResults.ParsedInOrder | example/common/include/fn-log/fn_log.h:2457-2476 | a configuration that was parsed has its channels and devices numbered from zero without a gap, and not too many of them |
| ConfigResults.UndefinedIs | example/common/include/fn-log/fn_log.h:2379-2598 | the error of a line is one of an undefined key if and only if its level does not define the key |
| ConfigResults.FailureLine | example/common/include/fn-log/fn_log.h:2496-2606 | an error is reported with the number of its line, but that of an undefined key with the next, and a missing channel with the last |
| ConfigResults.NulNeverParsed | example/common/include/fn-log/fn_log.h:2095-2109 | a text with a NUL is never accepted: an error comes in a line that starts before the NUL, or the pass does not end |
| ConfigResults.EndsUnlessHung | example/common/include/fn-log/fn_log.h:2496-2606 | from any state on, without a NUL the pass goes on forever if and only if it comes to a define or var line whose rewrite never ends |
| ConfigResults.EndsUndefined | example/common/include/fn-log/fn_log.h:2496-2606 | so it ends if none of the lines it reads is a define or var line |
| ConfigResults.TextsEnd | example/common/include/fn-log/fn_log.h:2496-2606 | the same for whole texts: exactly which texts without a NUL parsing ends for |
| ConfigResults.TextsWithoutChannel | example/common/include/fn-log/fn_log.h:2525-2605 | a text that is read to its end is accepted if and only if it is empty, has a channel line or ends in a line without a key; its configuration has no channel if and only if no channel line was read |
| ConfigRows.AtoiIs | example/common/include/fn-log/fn_log.h:2459 | what is made of a number: blanks and line ends, a sign, and decimal digits up to the first other character |
| ConfigRows.DeviceErrors | example/common/include/fn-log/fn_log.h:2260-2378 | which device lines are errors, and which of the four errors, exactly |
| ConfigRows.ChannelErrors | example/common/include/fn-log/fn_log.h:2408-2490 | the same for the lines of a channel |
| ConfigRows.LoggerErrors | example/common/include/fn-log/fn_log.h:2534-2599 | the same for the lines of the outermost level, but for what a definition may come to |
| ConfigRows.DeviceLineIs | example/common/include/fn-log/fn_log.h:2260-2350 | a device line sets one value of the device it is in; its other values, the other devices and channels and all other values stay |
| ConfigRows.ChannelLineIs | example/common/include/fn-log/fn_log.h:2410-2455 | a channel line sets one value of the channel it is in, and nothing else |
| ConfigRows.NewDeviceIs | example/common/include/fn-log/fn_log.h:2457-2478 | a new device has the next number of its channel and no value |
| ConfigRows.NewChannelIs | example/common/include/fn-log/fn_log.h:2570-2592 | a new channel has the next number, and no value and no device |
| ConfigRows.RowIsRead | example/common/include/fn-log/fn_log.h:2230-2606 | each of the five kinds of lines is read at the level its indentation gives it, with the effect it is written for, and the pass goes on behind it |
| ConfigRows.TextIsParsed | example/common/include/fn-log/fn_log.h:2496-2606 | a text of such rows and rows without keys is parsed to what the rows say one after the other |
| ConfigDocuments.DocumentIsParsed | example/common/include/fn-log/fn_log.h:2496-2606 | a whole configuration, written as settings, channels with values and devices, and devices with values, is parsed to exactly these: every value under its key, every device in its channel, numbered in order |
| ConfigTexts.DeviceIsParsed | example/common/include/fn-log/fn_log.h:2260-2378 | the device of a small text has the three values its lines give it |
| ConfigTexts.SecondLine | example/common/include/fn-log/fn_log.h:2086-2095 | however the two lines of a text are closed, an error in the second is reported for line 2 |
| ConfigTexts.PairsAreOneEnd | example/common/include/fn-log/fn_log.h:2086-2095 | so in a text closed by pairs of CR and LF |
| ConfigTexts.NoChannelAccepted | example/common/include/fn-log/fn_log.h:2525-2532 | a text without a channel that ends in a comment is accepted |
| ConfigTexts.NoChannelRejected | example/common/include/fn-log/fn_log.h:2601-2604 | the same text without the comment is not |
| ConfigTexts.UndefinedKeyLine | example/common/include/fn-log/fn_log.h:2597-2598 | an undefined key on line 1 is reported for line 2 |
| ConfigTexts.OtherErrorLine | example/common/include/fn-log/fn_log.h:2580-2586 | a channel out of sequence on line 1 is reported for line 1 |
| ConfigTexts.DefineTakesEffect | example/common/include/fn-log/fn_log.h:2539-2549 | a name that stands for the key of a channel makes the next line a channel |
| ConfigTexts.DefineForever | example/common/include/fn-log/fn_log.h:1857-1903 | a name defined as itself and used makes parsing go on forever |
| ConfigTexts.BlankedVariable | example/common/include/fn-log/fn_log.h:1988-1998 | `id = 234` is refused as too long |
| ConfigParser.Parser.Lex | example/common/include/fn-log/fn_log.h:2028-2228 | reads one line; the line number stays 1 plus the line ends consumed, and one more once the end of the text was met |
| ConfigParser.Parser.ParseDevice | example/common/include/fn-log/fn_log.h:2230-2384 | reads the lines of a device, as far as the single pass stays in it |
| ConfigParser.Parser.ParseChannel | example/common/include/fn-log/fn_log.h:2385-2494 | the same for a channel |
| ConfigParser.Parser.ParseLogger | example/common/include/fn-log/fn_log.h:2496-2606 | the three levels that go back to the start of a line come to the same result, error and line number as the single pass that never does, over the text that define and var rewrite meanwhile; it ends for every text for which the pass has an end |
| ConfigParser.DedentOnce | example/common/include/fn-log/fn_log.h:2252-2258 | a line left to the outer level is read the same there |

## Left out

- RingState.Step: steps are sequentially consistent, and the channel stays in its running state; memory orders, stop, restart and the waits of HoldChannel are not modelled.
- RingRuns.RunSafety: assumes that no thread sleeps for a whole lap of the ring between its load and its compare-exchange; the code does not ensure this.
- RingRecovery.CrashRecovery: for asynchronous channels; a repaired synchronous channel has no consumer of its own.
- The statistics read in EnterProcChannel after a slot was released, log levels, devices, files, UDP, hot update, shared-memory system calls and thread start and join; dispatching appends to a log.
- Content and length of a log slot are one string; the fixed-size buffer is the cut at its length.
- zmalloc's block callback is a parameter of each call: a fresh, aligned region of the size asked for that is disjoint from all blocks held, or zero for NULL. What the free callback returns is ignored, and so are `default_block_alloc` and `default_block_free`.
- Zmalloc.Zmalloc.AllocMemory: requires that the request fits 32 bits with its rounding (with power-of-two blocks, 31 bits), which the source casts without a check.
- Zmalloc.Zmalloc.FreeMemory: requires that the address is that of a chunk header, and, if that chunk is in use, that it is a live allocation of alloc_memory; the source cannot tell.
- Zmalloc.Zmalloc.FreeSlot: the same for objects of slots.
- Zmalloc.Zmalloc.AllocSlot: requires that object and block size fit their 64-bit and 31-bit rounding, and that the size of std::max_align_t, a parameter of the allocator, is a power of two of at least 16; with a size of 8, as on some platforms, objects would be aligned to 8 bytes only.
- Guarantees.BoundedWaste: small requests above 976 bytes are left out, since the open-ended last bin is taken undivided.
- Guarantees.EmptyBlocksAreVictims: not for the blocks of slots; that these are given up with their last object is stated for FreeSlot only.
- Headers are maps from addresses, grouped in records; the bytes of payloads, fences, debug fills, logging, panic, the `bin_size_` table and wrap-around of the 64-bit counters are not modelled. The counters are taken as compiled in.
- check_block and check_block_list are not modelled as code; what they look for is stated directly.
- Zpool.Zpool.constructor: requires a chunk size of at least four bytes, the size of a link, and sizes whose 32-bit sums and products do not wrap; the source checks neither.
- NumberWriters.WriteHex: not for zero, for which the source counts leading zeros of zero; the digit tables are given by their content.
- NumberWriters.WriteSignedDec: not for -2^63, whose negation overflows.
- The binary, floating-point and date writers.
- BitArrays.ParseBitArray: bits at or above 64 are excluded, and the text is taken to be followed by something that is not a digit, as a line end is.
- ConfigDocuments.DocumentIsParsed: for documents without define and var lines, whose effect on the lines behind them is stated by RewriteIs and PlacesAre.
- ConfigParser.Parser.ParseLogger: requires that the single pass has an end, since the source hangs on all other texts (`EndlessIs` and `TextsEnd` say which); the IP number and the port an address resolves to are parameters; values are kept as written, by key, instead of converted, so which of two keys that set the same field came last is not kept; numbers do not overflow; a byte-order mark is excluded.
- The profiler's own clock, record and report headers, `zarray.h`, `zvector.h`, `zallocator.h`, `zmem_color.h`, tests, benchmarks and build scripts.
