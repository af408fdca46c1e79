# WIoTA async firmware: codec, heaps and kernel

A Dafny model of three parts of the firmware that keep state, loop over it, and are relied on by everything else, with proofs that
they do what they are for. Every statement is for all inputs, all runs or all reachable states; nothing was executed.

**FastLZ and the radio frame.** Every payload of the simplified AT firmware may cross the radio compressed. `Lz77.dfy` says what a
list of literals and back references means, `Wire.dfy` how both compression levels write and read it. `Compressor.dfy` and
`Decompressor.dfy` are the two loops over arrays, with back-patched counts, match splitting, 255-chains, the far escape and overlapping
copies. The compressor is right for any hash function and any collisions: all it needs of a slot is that it holds an earlier position.
The decompressor is specified on every input, not only on well-formed ones. `FastLz.dfy` puts them together, and `RadioFrame.dfy` shows
that the frame one side sends is the frame the other side delivers.

**The three heaps.** `SmallHeap.dfy`, `SmallMem.dfy` model the heap the firmware is configured with, down to the bytes of its in-band
headers in one array. `Rings.dfy` is the circular doubly linked list of the kernel; `MemHeapLayout.dfy`, `MemHeapSteps.dfy`,
`MemHeap.dfy` are the allocator whose address-ordered list and free list must agree. A client of either sees the same thing, a table of
buffers that have nothing to do with each other (`HeapClients.dfy`, `HeapRuns.dfy`, `MemHeapRuns.dfy`), and both runs say exactly which
calls are refused and what each call does to the counters. `SlabPages.dfy`, `SlabClasses.dfy`, `SlabZones.dfy`, `Slab.dfy` are the slab
allocator: its page list, its size classes, its zones, and the allocator that puts them and the page usage table together.

**The kernel.** `Scheduler.dfy` has the ready queues of the single-core configuration with 32 priorities, `WaitLists.dfy` the lists of
waiting threads, `Mutexes.dfy` priority inheritance, `Events.dfy` event flags. Each stretch of code that runs with interrupts disabled is
one step, and a `Run` method in each module takes any sequence of steps. Among the steps of a mutex, an event object or a message queue is
anything else the kernel does, as long as it is not aimed at a thread that waits there: threads start, sleep, wake, yield, wait for other
things, change priority, and enter and leave critical sections in between. A message queue is the hardest of them, because a send and a
receive are two steps each with a copy in between: `MessageNodes.dfy` keeps track of where every node is, `WakeUps.dfy` of who has been
woken and has not looked yet, and `MessageQueue.dfy` has the steps. `MessageSpec.dfy` is the queue of whole messages that all this is for,
and what its histories promise; `MessageRuns.dfy` shows that any interleaving of the steps does what such a queue could have done.

Where a state-changing method is specified by a function (`Scheduled`, `Scan`, `Taken` and the like), the lemmas named below say what that
function is worth.

## What the proofs turned up

- A yield does not rotate the threads of one priority. `rt_schedule` clears the yield flag before it puts the yielding thread back, so
  the thread goes to the front of its list and runs again when the other one stops (`Scheduling.YieldGoesToFront`).
- `rt_memheap_alloc` compares with `<`, so the one request that would use up all free memory is refused, and no other request that
  some block could meet (`MemHeaps.OnlyTheExactFitIsRefused`). On a fresh heap that is the request for its whole block
  (`MemHeaps.AskFresh`).
- `rt_smem_realloc` allocates when it shrinks a block by too little to split it, so shrinking can fail: exactly if at most 24 bytes
  would be saved and no free block has room for the whole (`SmallMemory.ShrinkFails`). On a heap that one payload fills it does
  (`SmallMemory.ShrinkRefused`).
- The slab allocator promises power-of-two alignment for powers of two (rt-thread/src/slab.c:107-108). What it returns for a power of two
  is aligned to it up to 4 KiB, and above exactly if the page that serves, known before the call, is (`Slabs.Slab.Alloc`). On a fresh heap of any
  size the first request for 8 KiB is unaligned if and only if the first page behind the usage table is odd (`Slabs.AskFor8K`).
- The same comment promises that a request for 0 bytes returns something (rt-thread/src/slab.c:109). It returns null (`Slabs.Slab.Alloc`).
- A receiver whose buffer is longer than the message gets, behind it, what an older message left in the node, unless the message fills
  the node (`MessageSpecs.ReadsWhatWasSent`, `MessageSpecs.OlderBytes`). On every empty queue a message followed by a shorter one brings
  it about (`MessageRuns.ShortAfterLong`).
- The last release of a mutex with nobody waiting lowers the owner's priority and does not reschedule. The right thread runs afterwards
  exactly if no READY thread is more urgent than the owner's own priority (`Mutexes.QuietRelease`); after a boost whose waiter has timed
  out it does not (`Mutexes.BoostOutlivesWaiter`).
- When the hash table of the compressor cannot be allocated, nothing is sent, although the uncompressed frame is at hand: the negative
  length counts as shorter (`RadioFrame.Send`).
- `RT_MQ_ENTRY_MAX` and the overflow branches behind it are never reached (`MessageNodes.InFlightLeavesRoom`).

## Model

| member | source | states |
|---|---|---|
| `Lz77.CopyBackReproduces` | PS/at_simplified/fastlz.c:507-554 | copying byte by byte from `dist` back reproduces a stretch of text that repeats what lies `dist` before it, also when the copy overlaps what it is itself producing |
| `Lz77.CopyBackSplit` | PS/at_simplified/fastlz.c:376-383 | a long match may be cut into shorter ones at the same distance without changing what is decoded |
| `Wire.ReadChainUndoesChain` | PS/at_simplified/fastlz.c:344-348 | the 255-chain of a length of any size is read back as that length, and reading stops exactly behind it |
| `Wire.MatchFormat` | PS/at_simplified/fastlz.c:330-395 | the bytes of every match: three bits of length and five of distance, the longer lengths behind, the far distances of level 2 in 16 bits behind 31 and 255 |
| `Wire.ChainFormat` | PS/at_simplified/fastlz.c:340-343 | a chain is 255 as often as it goes and then the rest |
| `Wire.ParseUndoesMatchOne` | PS/at_simplified/fastlz.c:385-395 | level 1: every match of up to 264 bytes and distance up to 8192 is read back with the same length and distance |
| `Wire.ParseUndoesMatchTwo` | PS/at_simplified/fastlz.c:335-373 | level 2: every near and far match, of any length and biased distance up to 73726, is read back unchanged; the escape 31, 255 means far and nothing else |
| `Wire.ParseUndoesToken` | PS/at_simplified/fastlz.c:458-574 | the parser reads back any token of either level wherever its bytes stand in memory, and goes on right behind it |
| `Wire.ParseUndoesWire` | PS/at_simplified/fastlz.c:458-574 | the parser reads back exactly the token list whose bytes fill the block |
| `Compressor.FindMatch` | PS/at_simplified/fastlz.c:232-271 | level 2 finds a run exactly if the last byte repeats three times; otherwise what stood here last by the table is found exactly if it is within reach and repeated for three bytes, five if it is far; the table afterwards is told as well |
| `Compressor.HashOfThree` | PS/at_simplified/fastlz.c:103-108 | the slot of a position is the hash of the three bytes that stand there |
| `Compressor.HashMixes` | PS/at_simplified/fastlz.c:103-108 | the low byte of the hash mixes the first two bytes, the two bits above it all three |
| `Compressor.ExtendMatch` | PS/at_simplified/fastlz.c:276-316 | the match is repetition up to where the scan stopped, and the scan stopped at the first byte that differs or at the bound the code sets |
| `Compressor.EmitToken` | PS/at_simplified/fastlz.c:385-395 | the bytes written for a match are its wire form |
| `Compressor.EmitMatch` | PS/at_simplified/fastlz.c:333-396 | the bytes written for a match of any length play back as one match of that length, cut at 262 bytes at level 1, in the room available |
| `Compressor.EmitLiteral` | PS/at_simplified/fastlz.c:409-417 | one more literal keeps the image of the text read so far, closing the run at 32 bytes |
| `Compressor.FinishRun` | PS/at_simplified/fastlz.c:433-437 | patching the count of the open run, or dropping an empty one, leaves the image of the whole text |
| `Compressor.CloseRun` | PS/at_simplified/fastlz.c:433-435 | with the true count patched in, an open run of 1 to 32 literals becomes a finished token |
| `Compressor.TakeMatch` | PS/at_simplified/fastlz.c:318-407 | emitting a match keeps output and input in step: the bytes written play back as the input consumed |
| `Compressor.MainLoop` | PS/at_simplified/fastlz.c:220-418 | for every input, level, table and collision the loop keeps the image of what it has read; round by round it copies exactly if FindMatch finds something, as far as ExtendMatch goes, enters the two positions the code enters, and goes on until 12 bytes before the end |
| `Compressor.LeftOver` | PS/at_simplified/fastlz.c:420-431 | the rest of the input follows as literals |
| `Compressor.CompressShort` | PS/at_simplified/fastlz.c:190-202 | an input of 1 to 3 bytes becomes one literal run |
| `Compressor.CompressBlock` | PS/at_simplified/fastlz.c:172-447 | the output is the wire image of tokens that play back as the input, and these are the tokens the rounds choose; at most n + ceil(n / 32) bytes; 16 or more equal bytes shrink to 10 and three more for every 262 at level 1, one for every 255 at level 2; -1 without a table, 0 for nothing |
| `Compressor.AlikeTokens` | PS/at_simplified/fastlz.c:195-467 | a text of 16 or more equal bytes is written as two literals, one copy at distance 2, or 1 at level 2, and three literals, whatever the hash |
| `Decompressor.RestStep` | PS/at_simplified/fastlz.c:458-574 | decoding a block is decoding its first token and then the rest |
| `Decompressor.RestOverruns` | PS/at_simplified/fastlz.c:494-500 | once a token does not fit, no continuation fits either, so giving up early is right |
| `Decompressor.ReadLengths` | PS/at_simplified/fastlz.c:476-480 | the loop over length bytes computes the sum the format means |
| `Decompressor.ReadMatch` | PS/at_simplified/fastlz.c:461-492 | the code in front of a copy yields the length and distance of the token there |
| `Decompressor.CopyMatch` | PS/at_simplified/fastlz.c:507-554 | both copy loops, the run and the general one, append exactly the bytes the back reference means and touch nothing at or past the limit |
| `Decompressor.MatchToken` | PS/at_simplified/fastlz.c:464-555 | a match token is refused exactly if it overruns the limit or points before the output; otherwise the output grows by what it means |
| `Decompressor.LiteralToken` | PS/at_simplified/fastlz.c:556-573 | a literal token is refused exactly if it overruns the limit or the block; otherwise the output grows by its bytes |
| `Decompressor.DecompressBlock` | PS/at_simplified/fastlz.c:449-577 | on every input, well formed or not: terminates, writes nothing at or past maxout, copies only bytes already produced, and returns the length of exactly what the block decodes to, or 0 if it does not decode or does not fit |
| `Decompressor.Decompress` | PS/at_simplified/fastlz.c:146-158 | the same for the level named by the top three bits; 0 for an unknown level |
| `FastLz.RoundTrip` | PS/at_simplified/fastlz.c:172-577 | whatever the compressor writes for an input of at least one byte decodes to that input, at both levels and whatever memory holds behind the block |
| `FastLz.Compress` | PS/at_simplified/fastlz.c:136-144 | level 1 below 64 KiB and level 2 from there on, within the size bound |
| `FastLz.CompressLevel` | PS/at_simplified/fastlz.c:160-168 | the level asked for, 0 for one that does not exist |
| `FastLz.CompressThenDecompress` | PS/at_simplified/fastlz.c:136-168 | compressing and decompressing with a limit of at least n bytes gives back all n bytes, with a smaller limit 0 |
| `FastLz.DocumentedBufferSuffices` | PS/at_simplified/fastlz.h:38-39 | the documented 5 % and 66 bytes are always enough room, and so is twice the input |
| `RadioFrame.AddressRoundTrip` | PS/at_simplified/at_simplified.c:400 | four address bytes, lowest first, put together again |
| `RadioFrame.LowestByteFirst` | PS/at_simplified/at_simplified.c:400 | the lowest byte of the address comes first |
| `RadioFrame.Send` | PS/at_simplified/at_simplified.c:781-839 | sent exactly if the length is in range, all bytes arrived, the buffers and the table could be allocated and subframes are planned; of the plain frame and the compressed one the smaller is sent |
| `RadioFrame.UnframeUndoes` | PS/at_simplified/at_simplified.c:399-402 | splitting a frame gives back the address and payload it was built from |
| `RadioFrame.Unpack` | PS/at_simplified/at_simplified.c:372-397 | the compression flag decides whether the bytes are decompressed, into 1024 bytes |
| `RadioFrame.Receive` | PS/at_simplified/at_simplified.c:358-408 | any frame that stands for an address and a payload within the buffer is delivered as just those |
| `RadioFrame.Exchange` | PS/at_simplified/at_simplified.c:781-839 | what one side sends arrives unchanged on the other, for every address and payload in range |
| `SmallHeap.LiveDisjoint` | rt-thread/src/mem.c:279-408 | two live payloads never share a byte |
| `SmallHeap.SplitBlock` | rt-thread/src/mem.c:341-358 | after a split the header bytes still describe blocks that tile the region, next and prev agreeing |
| `SmallHeap.MergeBlocks` | rt-thread/src/mem.c:145-147 | the same after two neighbours have been joined |
| `SmallHeap.SplitStore` | rt-thread/src/mem.c:341-358 | splitting a free block changes no live payload, splitting a used one only shortens its own |
| `SmallHeap.MergeStore` | rt-thread/src/mem.c:134-162 | joining two free blocks changes no live payload |
| `SmallHeap.TakenCoalesced` | rt-thread/src/mem.c:317-377 | taking a block keeps no two neighbours free and says where the lowest free block now is |
| `SmallHeap.PayloadWritten` | rt-thread/src/mem.c:502 | writing inside a live payload leaves all headers and all other payloads alone |
| `SmallHeap.ShrunkFirstFree` | rt-thread/src/mem.c:487-493 | the block a shrink cuts off is the lowest free one exactly if it lies below the old one |
| `SmallHeap.InitHeap` | rt-thread/src/mem.c:178-240 | the formatted region is one free block and the end sentinel |
| `SmallMemory.SmallMem.Format` | rt-thread/src/mem.c:220-239 | the header words of a new region |
| `SmallMemory.SmallMem.Split` | rt-thread/src/mem.c:341-358 | the header writes of a split, in place in the region |
| `SmallMemory.SmallMem.Merge` | rt-thread/src/mem.c:144-147 | the header writes of a join, in place in the region |
| `SmallMemory.SmallMem.PlugHoles` | rt-thread/src/mem.c:125-163 | joins a free block with free neighbours on both sides, restores the invariant, moves lfree along, and disturbs no live payload |
| `SmallMemory.SmallMem.Free` | rt-thread/src/mem.c:516-560 | exactly the payload freed disappears, used drops by its footprint, max stays |
| `SmallMemory.SmallMem.Search` | rt-thread/src/mem.c:317-324 | starting at lfree and stopping at mem_size_aligned - size skips no block: the walk finds the first that fits, or there is none anywhere |
| `SmallMemory.SmallMem.AdvanceLowest` | rt-thread/src/mem.c:385-392 | lfree ends up on the lowest free block or on the end |
| `SmallMemory.SmallMem.Take` | rt-thread/src/mem.c:325-404 | the block found becomes used, and what is left over a free block behind it if that can hold a header and 12 bytes; the payload is then just as large as asked for, and otherwise the whole block; counted, and the lowest free block found again |
| `SmallMemory.SmallMem.Alloc` | rt-thread/src/mem.c:279-408 | null exactly for 0 or if no free block anywhere has room; otherwise the first with room, others untouched, never 24 bytes larger than the request and exactly as large if the block had that much to spare; the rest is free again; `used` and `max` exact |
| `SmallMemory.RequestIs` | rt-thread/src/mem.c:303-308 | a request is rounded up to the least multiple of a word that is at least 12 |
| `SmallMemory.TakenIs` | rt-thread/src/mem.c:328-358 | what becomes of the block list when a block is taken, block by block |
| `SmallMemory.SmallMem.WriteBytes` | rt-thread/src/mem.c:502 | a write into one payload changes no byte of another |
| `SmallMemory.SmallMem.Shrink` | rt-thread/src/mem.c:468-495 | the payload keeps its first bytes, the rest becomes free and joins a free block behind it |
| `SmallMemory.SmallMem.Realloc` | rt-thread/src/mem.c:422-507 | null beyond the pool size, a free for 0, an alloc for null, and otherwise what Resized says of the old payload: same, cut, refused, or moved with min(old, new) bytes kept; `used` and `max` exact in every case, the mark counting old and new block together while the bytes are copied |
| `SmallMemory.ShrinkFails` | rt-thread/src/mem.c:468-501 | asking for less fails if and only if at most 24 bytes would be saved and no free block has room for the whole |
| `SmallMemory.ShrinkRefused` | rt-thread/src/mem.c:468-501 | and it does happen: on a heap that one payload of any size fills, asking for less, by up to 24 bytes, is refused |
| `SmallMemory.SmallMem.Move` | rt-thread/src/mem.c:498-506 | a new payload begins with the old bytes, the old one is gone, others are untouched; refused only if nothing fits; `used` changes by the difference, and `max` rises to what was used while both were there |
| `SmallMemory.SmallMem.constructor` | rt-thread/src/mem.c:178-240 | a fresh heap is valid, with nothing live and nothing used |
| `SmallMemory.Init` | rt-thread/src/mem.c:178-206 | null exactly if object, region and headers do not fit; otherwise the first whole word on, and all the words there are |
| `HeapClients.Isolation` | rt-thread/src/mem.c:279-560 | over any stretch of any run, a buffer that no operation names keeps every byte |
| `HeapClients.HighWater` | rt-thread/src/mem.c:371-374 | over any run whose steps keep the mark, it is at least all that was ever used before |
| `HeapRuns.Run` | rt-thread/src/mem.c:279-560 | any sequence of malloc, realloc, free and writes keeps the heap valid and behaves like a table of independent buffers; a call is refused exactly if no free block has room for it (or a resize is beyond the pool size), and every step changes `used` and `max` by just what it should |
| `Rings.InsertKeeps` | rt-thread/include/rtservice.h:58-65 | linking a node in behind any node of a circle puts it at that place in both directions |
| `Rings.RemoveKeeps` | rt-thread/include/rtservice.h:86-90 | unlinking a node leaves the circle of the others |
| `Rings.ListNodes.Init` | rt-thread/include/rtservice.h:47-50 | a list head on its own |
| `Rings.ListNodes.InsertAfter` | rt-thread/include/rtservice.h:58-65 | the node comes right behind the given one |
| `Rings.ListNodes.InsertBefore` | rt-thread/include/rtservice.h:73-80 | before the head is the end of the list |
| `Rings.ListNodes.Remove` | rt-thread/include/rtservice.h:86-92 | the node leaves the list and is a list of its own |
| `Rings.ListNodes.IsEmpty` | rt-thread/include/rtservice.h:98-101 | true exactly for the empty list |
| `Rings.ListNodes.Len` | rt-thread/include/rtservice.h:107-118 | the number of items, by walking round |
| `MemHeapLayout.Rework` | rt-thread/src/memheap.c:235-307 | replacing neighbouring blocks by others of the same extent, used and free in the right places, keeps the blocks in order and no two neighbours free |
| `MemHeapLayout.ReworkSum` | rt-thread/src/memheap.c:235-307 | the free bytes change by just what the replaced stretch contributes |
| `MemHeapLayout.StoredAround` | rt-thread/src/memheap.c:183-346 | the live payloads are those of the stretch and those of the others, which lie outside it |
| `MemHeapSteps.WholeTaken` | rt-thread/src/memheap.c:289-310 | a free block taken whole: one more live payload, its bytes off the free count |
| `MemHeapSteps.SplitTaken` | rt-thread/src/memheap.c:235-288 | a free block split: one more live payload, its size and a header off the free count |
| `MemHeapSteps.SplitOff` | rt-thread/src/memheap.c:521-583 | a used block cut short: the same payload, shorter, and the rest free |
| `MemHeapSteps.BoundaryMoved` | rt-thread/src/memheap.c:430-490 | the boundary between a used block and the free one behind it moved either way: the payload longer or shorter, the free count exact |
| `MemHeapSteps.Freed` | rt-thread/src/memheap.c:645-715 | a block freed with the free blocks on either side: its payload gone, the count up by it and a header for each join |
| `MemHeapSteps.Written` | rt-thread/src/memheap.c:498 | bytes written into one live payload change no other |
| `MemHeapSteps.LiveApart` | rt-thread/src/memheap.c:183-346 | live payloads do not overlap and have a header between them |
| `MemHeaps.MemHeap.InsertBlock` | rt-thread/src/memheap.c:261-265 | a header linked in behind another on the address-ordered list |
| `MemHeaps.MemHeap.PushFree` | rt-thread/src/memheap.c:273-277 | a header at the front of the free list |
| `MemHeaps.MemHeap.UnlinkFree` | rt-thread/src/memheap.c:267-271 | a header off the free list |
| `MemHeaps.MemHeap.RemoveNext` | rt-thread/src/memheap.c:41-49 | a free header off both lists |
| `MemHeaps.MemHeap.Search` | rt-thread/src/memheap.c:217-228 | the walk along the free list finds the first block with room, or there is none |
| `MemHeaps.MemHeap.TakeSplit` | rt-thread/src/memheap.c:235-288 | both lists, the marks, the counts and the payloads after a split |
| `MemHeaps.MemHeap.TakeWhole` | rt-thread/src/memheap.c:289-307 | the same for a block taken whole |
| `MemHeaps.MemHeap.Alloc` | rt-thread/src/memheap.c:183-346 | null exactly if the size reaches the free count or no free block has room; otherwise the first on the free list, others untouched, aligned, its block taken whole or with a new header linked in behind it and put in front of the free list, the free count less exactly what it costs, and the high-water mark exact |
| `MemHeaps.RequestIs` | rt-thread/src/memheap.c:192-195 | a request is rounded up to the least multiple of a word that is at least 12 |
| `MemHeaps.OnlyTheExactFitIsRefused` | rt-thread/src/memheap.c:200 | a request that some free block could meet is refused if and only if it equals the count of all free bytes |
| `MemHeaps.AskFresh` | rt-thread/src/memheap.c:74-346 | on a fresh heap of any size a request is refused if and only if it reaches the size of the one free block, and a refused request would have fitted if and only if it is just that size |
| `MemHeaps.MemHeap.MergeLeft` | rt-thread/src/memheap.c:649-667 | a freed block joins a free one before it |
| `MemHeaps.MemHeap.MergeRight` | rt-thread/src/memheap.c:669-688 | and swallows a free one behind it |
| `MemHeaps.MemHeap.Release` | rt-thread/src/memheap.c:597-724 | exactly the payload freed disappears; lists, marks and count stay in agreement, no two neighbours free; the count rises by the payload, by a header if the block before it was free, and by another if the block behind it was; the block goes to the front of the free list unless the one before it is there already, and the one behind leaves it |
| `MemHeaps.MemHeap.GrowInPlace` | rt-thread/src/memheap.c:430-490 | the payload grows into the free block behind it and keeps its bytes; the growth is charged |
| `MemHeaps.MemHeap.Shrink` | rt-thread/src/memheap.c:505-588 | the payload keeps its first bytes; the rest becomes free and joins a free block behind it; the count rises by the rest, less a header if the rest stands alone |
| `MemHeaps.MemHeap.Move` | rt-thread/src/memheap.c:494-503 | refused exactly if an allocation is; otherwise a new payload that begins with the old bytes, and the old one gone; both counters exact, the high-water mark with both blocks in use, and the headers that vanish told from how the blocks stood before the call |
| `MemHeaps.JoinedAfterTaking` | rt-thread/src/memheap.c:494-503 | which headers vanish when the old block goes, told before the new one is taken: a rest split off right before the old block joins it, the new block does not |
| `MemHeaps.MemHeap.Realloc` | rt-thread/src/memheap.c:361-588 | free for 0, alloc for null, and otherwise kept, cut, grown in place, moved or refused, in just the cases the code distinguishes, with the counters exact in each |
| `MemHeaps.MemHeap.Free` | rt-thread/src/memheap.c:597-724 | null is ignored, and anything else released as Release says, the count exact |
| `MemHeaps.MemHeap.constructor` | rt-thread/src/memheap.c:74-150 | one free block that fills the pool, and the tail |
| `MemHeapRuns.Run` | rt-thread/src/memheap.c:183-724 | any sequence of malloc, realloc, free and writes keeps both lists in agreement and behaves like a table of independent buffers; a call is refused exactly if it needs a new block and the size reaches the free count or no free block has room; the counters change step by step as Billed says |
| `SlabPages.CanonicalIsUnique` | rt-thread/src/slab.c:252-294 | a sorted, disjoint, fully joined list is determined by which pages are free |
| `SlabPages.PageList.Alloc` | rt-thread/src/slab.c:211-241 | the front of the first run that is long enough, and just those pages leave the list; null exactly if none is |
| `SlabPages.PageList.Release` | rt-thread/src/slab.c:252-294 | just the given pages join the list, which stays sorted and fully joined |
| `SlabPages.PageList.Prepend` | rt-thread/src/slab.c:279-285 | pages right before a run join it |
| `SlabPages.PageList.Extend` | rt-thread/src/slab.c:269-277 | pages right behind a run join it, and the next run too if they touch it |
| `SlabPages.FreeUndoesAlloc` | rt-thread/src/slab.c:211-294 | giving back what was just taken restores the identical list |
| `SlabPages.AllBack` | rt-thread/src/slab.c:252-294 | when everything has come back, in any order, the list is one run again |
| `SlabPages.RunPages` | rt-thread/src/slab.c:211-294 | over any run, a request gets the front of the first run that is long enough and nothing else if there is none, what comes back joins the list, every page of the region is free or in exactly one allocation at every point, and with nothing out the list is one run |
| `SlabPages.PageInit` | rt-thread/src/slab.c:299-306 | the region starts as one free run |
| `SlabClasses.SmallestClass` | rt-thread/src/slab.c:408-466 | a request goes to the smallest of the documented classes that holds it |
| `SlabClasses.OneSizePerIndex` | rt-thread/src/slab.c:408-466 | two requests share a zone list exactly if they are rounded to the same size, and larger requests never get smaller classes |
| `SlabClasses.TwoChunksFit` | rt-thread/src/slab.c:622-636 | a new zone has room for at least two chunks, so it belongs on its list after the first is handed out |
| `SlabClasses.ZoneSizeFor` | rt-thread/src/slab.c:358-361 | the loop picks 32 KiB up to 64 MiB, 64 KiB up to 128 MiB, and 128 KiB above |
| `SlabClasses.PowersAlignedWithZone` | rt-thread/src/slab.c:624-631 | a chunk whose size is a power of two is aligned to that size if and only if its zone is |
| `SlabClasses.ChunkAligned` | rt-thread/src/slab.c:624-631 | a chunk for a request that is a power of two is aligned to it up to the page size, and beyond it if and only if the first page of its zone is |
| `SlabClasses.EvenPagesAligned` | rt-thread/src/slab.c:624-631 | so an 8 KiB chunk is aligned to 8 KiB exactly in zones at even pages |
| `SlabZones.FreshOk` | rt-thread/src/slab.c:633-640 | a new zone is well formed, its first chunk out, and has as many chunks as fit in it, not one fewer |
| `SlabZones.MeetsAsManyAsFit` | rt-thread/src/slab.c:541-577 | a new zone meets requests in turn until as many chunks are out as it has room for |
| `SlabZones.PickOk` | rt-thread/src/slab.c:543-574 | a zone that counts room has some: the pop after the never-used chunks run out finds the free list non-empty, and the chunk handed out is nobody's |
| `SlabZones.PickOrder` | rt-thread/src/slab.c:558-570 | a chunk that was never used goes before those that came back, and of these the last one first |
| `SlabZones.ReturnOk` | rt-thread/src/slab.c:786-796 | a chunk that comes back is the only one to do so, and the count stays right |
| `SlabZones.AllFree` | rt-thread/src/slab.c:808-809 | a zone that counts all its chunks as free has none handed out, so it may be let go |
| `SlabZones.ChunkInZone` | rt-thread/src/slab.c:635-641 | every chunk lies behind the zone header and inside the zone |
| `Slabs.Slab.TakeChunk` | rt-thread/src/slab.c:541-577 | the chunk comes from the first zone on the list of its class and is one nobody had; the zone leaves its list with its last chunk |
| `Slabs.Slab.NewZone` | rt-thread/src/slab.c:588-649 | a zone from the reserve, or from the first run of pages that is long enough, on its list with its first chunk handed out; none exactly if the reserve is empty and no run is long enough |
| `Slabs.Slab.AllocPages` | rt-thread/src/slab.c:503-530 | a large request gets the front of the first run that holds it, in whole pages, and its entry in the usage table |
| `Slabs.Slab.Alloc` | rt-thread/src/slab.c:487-653 | null exactly for 0, or if no zone of the class has room, the reserve is empty and no run of pages is long enough, for a large request if no run holds it; otherwise something nobody has, a chunk of the class below 8 or 16 KiB, whole pages from there on, counted, from the page that Serving names before the call; a power of two is aligned up to the page size and beyond it if and only if that page is |
| `Slabs.Slab.Free` | rt-thread/src/slab.c:736-852 | only what the pointer is comes back, found from the pointer alone; the pages of a large block join the page list; a zone that was full is listed again in front; a zone with nothing left out goes, if another of its class has room, to the reserve while that holds fewer than two, else to the page list, and stays in use otherwise |
| `Slabs.Slab.Locate` | rt-thread/src/slab.c:758-783 | the usage entry of the page a live pointer lies in names its zone, or its length if it is a large block |
| `Slabs.Slab.Retire` | rt-thread/src/slab.c:804-852 | the empty zone goes to the front of the reserve, or, with two there already, straight back to the page list; nothing in use is touched |
| `Slabs.Slab.constructor` | rt-thread/src/slab.c:321-380 | no zones, over a page list of which pages may be taken already |
| `Slabs.Init` | rt-thread/src/slab.c:321-380 | one free run of pages, the usage table on the first of them, and the zone size by the size of the heap |
| `Slabs.TableHolds` | rt-thread/src/slab.c:372-376 | the usage table takes four bytes a page, in whole pages and no more |
| `Slabs.AskFor8K` | rt-thread/src/slab.c:321-380 | on a fresh heap of any size, chunked or not, the first request for 8 KiB is aligned to 8 KiB if and only if the first page behind the usage table is even |
| `Slabs.FillZone` | rt-thread/src/slab.c:487-653 | a fresh heap of any size meets as many requests of one class as a zone has room for from one zone, one chunk right behind the other |
| `Slabs.HeldApart` | rt-thread/src/slab.c:487-653 | chunks and large blocks in different hands do not overlap |
| `Slabs.ParcelsApart` | rt-thread/src/slab.c:211-294 | zones in use, zones in reserve and large blocks have no page in common |
| `Slabs.RunCalls` | rt-thread/src/slab.c:487-852 | over any run of small and large requests and releases: a request is met exactly if Meets says so, with the page and size told before the call, and a release takes back just the one thing, with zones, lists, reserve, pages and counters as CallStep says; at every point what a client holds is live and where it was, no two of its buffers overlap, and `used` is the sum of their sizes |
| `Slabs.OwnsApart` | rt-thread/src/slab.c:487-852 | the buffers a client holds are disjoint to the byte |
| `Bitmap.OneBit` | rt-thread/src/scheduler.c:739-783 | setting or clearing the bit of a priority changes that bit and no other |
| `Bitmap.TableIsLowest` | rt-thread/src/kservice.c:1745-1762 | the table entry of every byte but 0 is the number of its lowest set bit |
| `Bitmap.FfsIsLowest` | rt-thread/src/kservice.c:1775-1789 | through the table of 256 entries, the number found is that of the lowest set bit, 0 for none |
| `Bitmap.GroupUpdates` | rt-thread/src/scheduler.c:739-875 | setting and clearing a bit of the group word keeps it standing for the set with the number added or removed |
| `Bitmap.HighestReady` | rt-thread/src/scheduler.c:169-187 | what rt_schedule computes from the group word is the lowest number in the set that the word stands for |
| `Scheduling.ScheduleKeeps` | rt-thread/src/scheduler.c:423-545 | rescheduling keeps every READY thread on the list of its priority, once, the current thread off the lists, and each group bit equal to its list being non-empty |
| `Scheduling.ScheduleIsRight` | rt-thread/src/scheduler.c:423-545 | after rt_schedule no READY thread is strictly more urgent than the running one |
| `Scheduling.NobodyReady` | rt-thread/src/scheduler.c:423-545 | with nobody READY nothing happens at all |
| `Scheduling.FirstTakesOver` | rt-thread/src/scheduler.c:423-545 | when the thread on the processor has stopped, the first of the most urgent READY threads takes it |
| `Scheduling.RunnerStays` | rt-thread/src/scheduler.c:423-545 | one that is more urgent, or as urgent and has not asked to yield, stays, and no list changes |
| `Scheduling.RunnerGivesWay` | rt-thread/src/scheduler.c:423-545 | a running thread that is less urgent than the most urgent READY threads, or as urgent and has asked to yield, gives way to the first of them and stands in front of its own list |
| `Scheduling.YieldGoesToFront` | rt-thread/src/scheduler.c:456-473 | a yielding thread goes to the front of its list, because the flag is cleared before it is put back |
| `Scheduling.ScheduleWaits` | rt-thread/src/scheduler.c:423-545 | rescheduling neither starts nor ends anybody's wait and changes no priority |
| `Scheduling.ReprioritizeKeeps` | rt-thread/src/thread.c:732-775 | a change of priority keeps the queues right, whatever state the thread is in |
| `Scheduling.MovesInFront` | rt-thread/src/thread.c:732-775 | a READY thread whose priority changes leaves its list and stands in front of the other, or of the same; nobody else moves |
| `Scheduling.Kernel.InsertThread` | rt-thread/src/scheduler.c:739-783 | front or back of the list by the yield flag, and the group bit |
| `Scheduling.Kernel.RemoveThread` | rt-thread/src/scheduler.c:845-875 | off the list, and the group bit cleared with the last |
| `Scheduling.Kernel.Schedule` | rt-thread/src/scheduler.c:423-545 | does what Scheduled says when the scheduler is unlocked, and nothing otherwise |
| `Scheduling.Kernel.Suspend` | rt-thread/src/thread.c:840-875 | the running thread becomes SUSPENDED and is on no list |
| `Scheduling.SuspendsInPlace` | rt-thread/src/scheduler.c:845-875 | the running thread is on no list when it suspends itself, so no list changes |
| `Scheduling.Kernel.Resume` | rt-thread/src/thread.c:885-919 | a suspended thread becomes READY on its list, others are left alone |
| `Scheduling.WakesInFront` | rt-thread/src/scheduler.c:739-791 | a thread that wakes up stands in front of its list, behind it only if it had asked to yield while the scheduler was locked |
| `Scheduling.JoinInFront` | rt-thread/src/scheduler.c:739-791 | and so do a thread that is started and one whose time is up |
| `Scheduling.Kernel.ChangePriority` | rt-thread/src/thread.c:732-775 | a READY thread moves to the list of its new priority |
| `Scheduling.Kernel.Yield` | rt-thread/src/thread.c:545-558 | with the scheduler locked the wish is noted; otherwise the first of the most urgent READY threads runs if these are as urgent as the caller or more, which is READY then in front of its list, and if not the caller goes on |
| `Scheduling.Kernel.WakeByTimeout` | rt-thread/src/thread.c:126-151 | the thread gets the timeout error and goes where a resumed thread goes, nobody else changes |
| `Scheduling.CriticalSection` | rt-thread/src/scheduler.c:921-1010 | from entering a critical section to leaving its outermost level, no sequence of events takes the processor away from the thread that entered |
| `Scheduling.LeavingUndoesEntering` | rt-thread/src/scheduler.c:935-1010 | leaving a critical section undoes entering it, but for the outermost exit, which reschedules |
| `Scheduling.Kernel.ExitCritical` | rt-thread/src/scheduler.c:985-1010 | the outermost exit reschedules |
| `Scheduling.Kernel.Startup` | rt-thread/src/thread.c:355-384 | an initialised thread becomes READY, and the running one is chosen again |
| `Scheduling.Kernel.Boot` | rt-thread/src/scheduler.c:248-272 | the first thread to run is the first of the most urgent ones |
| `Scheduling.Kernel.constructor` | rt-thread/src/scheduler.c:197-245 | empty queues |
| `Scheduling.RightAfterRescheduling` | rt-thread/src/scheduler.c:985-1010 | whatever has happened before, rescheduling unlocked, yielding or leaving the outermost critical section leaves a most urgent thread running |
| `Scheduling.Run` | rt-thread/src/scheduler.c:423-545 | over any sequence of kernel events the kernel does, event by event, what After says, with coherent queues throughout |
| `Scheduling.AfterOutside` | rt-thread/src/scheduler.c:423-545 | an event leaves the waiting, errors and requests of every thread but the one it is aimed at as they were, and only a priority change changes a priority |
| `WaitLists.SuspendOn` | rt-thread/src/ipc.c:122-169 | FIFO: the end of the list; PRIO: behind all at least as urgent and before all less urgent, which keeps a sorted list sorted |
| `WaitLists.ResumeFirst` | rt-thread/src/ipc.c:191-203 | the first waiter, and nobody else, is awake and off the list |
| `WaitLists.ResumeAll` | rt-thread/src/ipc.c:220-248 | all waiters, and nobody else, are awake with an error |
| `WaitLists.TimeOut` | rt-thread/src/thread.c:126-151 | the waiter whose timer fires, and nobody else, is awake with the timeout error and off the list |
| `Mutexes.Boosted` | rt-thread/src/ipc.c:997-1004 | raising the owner to a waiter's priority keeps the invariant |
| `Mutexes.Joined` | rt-thread/src/ipc.c:1006-1009 | so does a new waiter no more urgent than the owner |
| `Mutexes.OnlyUrgencyRaises` | rt-thread/src/ipc.c:997-1004 | a waiter no more urgent than the owner changes nothing about it, not even its place among the READY threads |
| `Mutexes.Handed` | rt-thread/src/ipc.c:1131-1170 | handing over to the first waiter, after the owner's priority is restored, leaves the new owner at least as urgent as everybody waiting |
| `Mutexes.GaveUp` | rt-thread/src/thread.c:126-151 | and so does a waiter that gives up |
| `Mutexes.Mutex.Take` | rt-thread/src/ipc.c:914-1052 | each case of a take: nested up to 255, free, refused, or waiting with the owner raised to the waiter's priority if that is more urgent; a call that does not wait changes no thread but for the caller's error |
| `Mutexes.Mutex.Release` | rt-thread/src/ipc.c:1090-1198 | only the owner can; the outermost release restores exactly the priority held at acquisition, whatever boosts and timeouts came in between, and frees the mutex or hands it to the most urgent waiter, which is awake without an error and whose own priority is recorded |
| `Mutexes.Mutex.Expire` | rt-thread/src/thread.c:126-155 | a waiter's timeout takes it off the list, awake with the timeout error, and changes no ownership and no priority |
| `Mutexes.Mutex.Other` | rt-thread/src/scheduler.c:423-545 | any other event of the kernel, aimed at no waiter and at no priority of owner or waiters, does what After says and keeps the invariant |
| `Mutexes.Mutex.constructor` | rt-thread/src/ipc.c:741-764 | free, unheld, nobody waiting |
| `Mutexes.KeptWhileHeld` | rt-thread/src/ipc.c:942-1009 | while a thread keeps the mutex, however it nests and whoever waits, boosts it or gives up, the recorded priority stays |
| `Mutexes.FinalReleaseRestores` | rt-thread/src/ipc.c:1128-1170 | over any run, whenever the mutex comes to a thread, by a take or by a hand-over, and later leaves it, the thread ends up with exactly the priority it had before it got the mutex, however often it was raised in between |
| `Mutexes.QuietRelease` | rt-thread/src/ipc.c:1128-1187 | the last release with nobody waiting does not reschedule: a most urgent thread runs afterwards if and only if no READY thread is more urgent than the owner's own priority |
| `Mutexes.BoostOutlivesWaiter` | rt-thread/src/ipc.c:914-1198 | so after a boost whose waiter has given up the owner can keep the processor, at its own priority, from the more urgent READY thread it was boosted for |
| `Mutexes.BoostOutlivesWaiterFromBoot` | rt-thread/src/ipc.c:914-1198 | and from the start of a system with any two priorities on there is a run of that kind |
| `Mutexes.Run` | rt-thread/src/ipc.c:914-1198 | over any sequence of takes, releases, timeouts and any other kernel events that leave waiters and their priorities alone: at every point value is 1 iff no owner iff hold is 0, waiters are sorted and without an error, and the owner is at least as urgent as every waiter; ownership, recorded priority, boosts and what becomes of every thread go as MutexStep says |
| `Events.ScanStrandsNobody` | rt-thread/src/ipc.c:1461-1518 | after the walk no thread still waiting is satisfied by the flags left, although waking one can take flags away in the middle |
| `Events.ScanWakes` | rt-thread/src/ipc.c:1461-1518 | a thread is woken exactly if satisfied when its turn comes, and then receives something it asked for, all of it for AND |
| `Events.SendTakes` | rt-thread/src/ipc.c:1506-1510 | a flag is gone after a send if and only if some woken waiter received it that had asked for CLEAR |
| `Events.SendShares` | rt-thread/src/ipc.c:1461-1518 | a woken thread receives just those flags it asked for that are there and that no waiter before it with CLEAR has received |
| `Events.Event.Send` | rt-thread/src/ipc.c:1440-1535 | the list and the flags as the walk says, the woken threads holding what they received, everybody else as before; the processor is given away again exactly if somebody has been woken, and then a most urgent thread runs |
| `Events.Event.Recv` | rt-thread/src/ipc.c:1565-1664 | any one flag asked for is enough for OR, all are needed for AND: then received at once, with flags cleared if asked; otherwise refused, timed out, or waiting, in its place by arrival or priority, with just this request on record and no error; no other thread's wait, request or error changes |
| `Events.Event.Expire` | rt-thread/src/thread.c:126-155 | a waiter's timeout takes it off the list, awake with the timeout error, and no flag changes |
| `Events.Event.Reset` | rt-thread/src/ipc.c:1703-1731 | no flags and nobody waiting; all who waited are awake with an error |
| `Events.Event.constructor` | rt-thread/src/ipc.c:1270-1295 | no flags, nobody waiting |
| `Events.Run` | rt-thread/src/ipc.c:1440-1731 | at every point of any sequence of sends, receives, resets, timeouts and any other kernel events that wake no waiter, no waiter for OR shares a flag with the set and none for AND has all it asked for; flags, list, requests and errors change as EventStep says |
| `Events.WaitsOnlyForWhatIsMissing` | rt-thread/src/ipc.c:1440-1665 | over any run, a thread that began to wait for something and is still on the list has that very request on record, and the flags do not satisfy it |
| `Events.ReceivesWhatItAskedFor` | rt-thread/src/ipc.c:1440-1665 | and when a send ends the wait, it is awake without an error and has received some of what it asked for, nothing else, and all of it for AND |
| `MessageNodes.OnePlace` | rt-thread/src/ipc.c:2855-2866 | a node is on the free list, on the queue, with one sender or with one receiver, and never in two of these places |
| `MessageNodes.InFlightLeavesRoom` | rt-thread/src/ipc.c:2881-2890 | with a node in flight the queue is shorter than the pool, so the overflow branches of send cannot be reached |
| `MessageNodes.AppendLast` | rt-thread/src/ipc.c:2868-2879 | the writes that make a node the new tail |
| `MessageNodes.AppendOk` | rt-thread/src/ipc.c:2868-2879 | and the same for any queue, empty or not |
| `MessageNodes.PrependOk` | rt-thread/src/ipc.c:3002-3008 | the writes that make a node the new head |
| `MessageNodes.PopOk` | rt-thread/src/ipc.c:3168-3175 | the writes that take the head off |
| `MessageNodes.ReturnOk` | rt-thread/src/ipc.c:3191-3193 | the writes that put a node back on the free list |
| `MessageNodes.FreeList` | rt-thread/src/ipc.c:2520-2528 | the loop that threads the pool onto the free list |
| `WakeUps.ServeOne` | rt-thread/src/ipc.c:2892-2895 | a unit of stock and a thread woken for it arrive together |
| `WakeUps.LookTakes` | rt-thread/src/ipc.c:3168-3181 | a woken thread leaves the count together with the unit it takes, a thread that was not woken takes a unit and leaves the promise intact |
| `WakeUps.SomebodyLooks` | rt-thread/src/ipc.c:3104-3166 | while somebody waits and stock is there, some woken thread is able to run and has no error to turn it back |
| `MessageQueues.MessageQueue.TakeFree` | rt-thread/src/ipc.c:2980-2991 | one node moves from the free list to the sender |
| `MessageQueues.MessageQueue.SendTry` | rt-thread/src/ipc.c:2779-2858 | one pass of the send loop, first or after a wake-up: a node, and the kernel as it was; a refusal; or a wait in its place on the list; with the books of who is woken and waiting exact, and no other thread's wait or error touched |
| `MessageQueues.MessageQueue.Fill` | rt-thread/src/ipc.c:2861-2864 | the copy touches only the node its sender holds |
| `MessageQueues.MessageQueue.LinkBack` | rt-thread/src/ipc.c:2866-2909 | the node becomes the last on the queue and the first waiting receiver, and no other thread, is woken; with none the kernel is as it was |
| `MessageQueues.MessageQueue.LinkFront` | rt-thread/src/ipc.c:2999-3037 | the node becomes the first on the queue and the first waiting receiver, and no other thread, is woken; with none the kernel is as it was |
| `MessageQueues.MessageQueue.Count` | rt-thread/src/ipc.c:2881-2895 | the counter cannot overflow and equals the length of the queue |
| `MessageQueues.MessageQueue.RecvTry` | rt-thread/src/ipc.c:3094-3184 | one pass of the receive loop, first or after a wake-up: the first message, and the kernel as it was; a refusal; or a wait in its place on the list; no other thread's wait or error touched |
| `MessageQueues.MessageQueue.CopyOut` | rt-thread/src/ipc.c:3186-3187 | as many bytes as the receiver asked for and the node has |
| `MessageQueues.MessageQueue.GiveBack` | rt-thread/src/ipc.c:3189-3216 | the node is free again and the first waiting sender, and no other thread, is woken; with none the kernel is as it was |
| `MessageQueues.MessageQueue.ReceiverExpires` | rt-thread/src/thread.c:126-151 | a waiting receiver's timeout leaves it awake with the timeout error and loses no wake-up |
| `MessageQueues.MessageQueue.SenderExpires` | rt-thread/src/thread.c:126-151 | and so does a waiting sender's |
| `MessageQueues.MessageQueue.Reset` | rt-thread/src/ipc.c:3242-3277 | everybody is sent away, awake with an error, the queue is empty and its nodes on the free list, the last one first, nodes in flight stay where they are, and a most urgent thread runs |
| `MessageQueues.MessageQueue.Other` | rt-thread/src/scheduler.c:423-545 | any other event of the kernel, aimed at no waiter and no woken thread, loses no wake-up |
| `MessageQueues.MessageQueue.Drain` | rt-thread/src/ipc.c:3253-3271 | the loop that empties the queue onto the free list |
| `MessageQueues.MessageQueue.constructor` | rt-thread/src/ipc.c:2486-2537 | messages of whole words, less than a word longer than asked for, and as many nodes as the pool holds, all free, the last one first; sizes wrap at 16 bits |
| `MessageQueues.WholeWords` | rt-thread/src/ipc.c:2513-2514 | sizes up to 65532 are rounded up to whole words, and larger ones wrap |
| `MessageQueues.HowManyFit` | rt-thread/src/ipc.c:2513-2514 | the node count is that of whole nodes in the pool, and wraps at 16 bits |
| `MessageSpecs.FirstInFirstOut` | rt-thread/src/ipc.c:2749-3217 | without urgent messages and resets, messages taken and messages still there are, in order, the messages that were there and those sent |
| `MessageSpecs.UrgentComesNext` | rt-thread/src/ipc.c:2960-3039 | an urgent message is the next to be taken, whatever is on the queue and whatever is written, sent the ordinary way, read or let go of in between |
| `MessageSpecs.ReadsWhatWasSent` | rt-thread/src/ipc.c:3186-3187 | a receiver gets the message as far as its buffer and the message go, and nothing else if and only if its buffer is no longer than the message or the message fills the node |
| `MessageSpecs.OlderBytes` | rt-thread/src/ipc.c:2863-2864 | over any history, the bytes of a message that the next one written to the same node does not cover go out with that next one |
| `MessageSpecs.LeakHappens` | rt-thread/src/ipc.c:2863-3193 | on the queue of messages: a history in which the second message, read into a buffer as long as the first, comes with the rest of the first behind it |
| `MessageRuns.LinkedStandsFor` | rt-thread/src/ipc.c:2868-2879 | linking at either end is a push at that end of the queue of messages |
| `MessageRuns.PoppedStandsFor` | rt-thread/src/ipc.c:3168-3181 | unlinking the head is a pop at the front |
| `MessageRuns.FilledStandsFor` | rt-thread/src/ipc.c:2863-2864 | a copy in flight changes no message on the queue or with a receiver |
| `MessageRuns.SendWait` | rt-thread/src/ipc.c:2749-2910 | an uninterrupted send: too long, full, waiting, or the message at the back, in front of what its node held behind it |
| `MessageRuns.Urgent` | rt-thread/src/ipc.c:2960-3039 | an uninterrupted urgent send: too long, full, or the message in front |
| `MessageRuns.Receive` | rt-thread/src/ipc.c:3068-3217 | an uninterrupted receive: empty, waiting, or the first message |
| `MessageRuns.ShortAfterLong` | rt-thread/src/ipc.c:2749-3217 | on any empty queue in memory with nobody waiting: a message sent and received, then a shorter one, and the receiver with a buffer as long as the first gets the second with the rest of the first behind it |
| `MessageRuns.ShortAfterLongOnNewQueue` | rt-thread/src/ipc.c:2749-3217 | and so on a new queue, for any two messages of which the second is shorter |
| `MessageRuns.Do` | rt-thread/src/ipc.c:2749-3282 | one step of any kind does exactly what Answers says, to the queue and to every thread, refusals included, keeps every invariant, and is a legal act of the queue of messages or none |
| `MessageRuns.Run` | rt-thread/src/ipc.c:2749-3282 | over any interleaving of the steps of any number of senders, receivers, interrupts, timeouts, resets and any other kernel events aimed at no waiter or woken thread, each event does exactly what Answers says and together they show what a queue of whole messages could have shown; at every point every node is in one place and no wake-up is lost |

## Left out

- Signals, hooks, SMP, stack checks, memory tracing, debug output, shell commands: not configured, or diagnostics only.
- Semaphores and mailboxes: simpler uses of the same wait lists.
- Timers: a timeout is a step that may happen to any waiting thread at any time; how the remaining ticks are computed is not modelled.
- `rt_mq_detach`, `rt_mq_delete` and their like: objects do not disappear under their users. Threads are not deleted while they wait.
- Thread control blocks: they are entries of a map, and the thread lists are sequences; the linking of such lists is in `Rings.dfy`.
- The priority group and event flags are sets of bit numbers; the bit operations themselves are in `Bitmap.dfy`.
- An idle thread is not built in: where the code would run it, the model leaves the suspended thread on the processor, where it does nothing until it is resumed.
- Nested or chained mutexes: a thread holds at most one mutex, and nothing but that mutex changes the priority of its owner or its waiters. Other threads may change priority at any time. The wait lists of events and message queues make no claim about order by priority after a change.
- A thread that waits on an object is woken only by that object, its timer or a reset: `rt_thread_resume` of somebody else's waiter is not among the events of a run.
- Copying a message is one step; it touches only a node that nobody else holds.
- 32-bit wrap-around of very large sizes in `RT_ALIGN`: small-heap requests are below 2^32 - 3, and memheap and slab sizes are unbounded.
- A minimum payload in the small heap: the shrinking path of realloc does not keep to 12 bytes, and nothing depends on it.
- `heap_end->prev` in the small heap: splits do not maintain it, and nothing depends on it.
- The semaphore around memheap calls, and the memheap search wrappers over several heaps: calls do not overlap. Header bytes of a memheap are fields beside the pool, so what is proved about bytes is about payloads.
- Slab: `rt_slab_realloc` (an allocation, a copy and a release), the bytes in the chunks, and the links inside free chunks, which are lists of chunk numbers.
- `rt_malloc_align`, `rt_free_align`: small arithmetic on top of an allocation.
- What lies behind a compressed block in memory: arbitrary where the caller's array goes on, 0 beyond it. Level 2 of the compressor may read one byte behind its input, which only steers hashing; it is a parameter.
- Lengths of 2^32 and more inside one compressed block.
- Failed allocations are parameters. Serial input, the radio driver, and the number of subframes it plans are parameters of the frame model.
- AT command parsing and printing, drivers, board setup, and every `uc_wiota_` call: plumbing over libraries whose source is not part of this model.
