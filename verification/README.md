# FastAlloc in Dafny

A model of FastAlloc, a thread-caching memory allocator in C++, and proofs about it.
The allocator hands blocks from slabs to per-thread caches to callers and back, keeps
freed spans of pages in a bounded cache, passes blocks between threads through
lock-free queues, and answers `malloc`, `free`, `realloc` and aligned requests on top.

The model has these parts.

* **The arena heap and the thread caches** (`heap*.dfy`, `links.dfy`, `config.dfy`): a small-step
  machine for any number of threads. Every load, link write and compare-and-swap on a pending
  queue is a step of its own, and so is every block moved in or out of a slab under a class lock.
  Memory is the concrete `next` words; the client may store anything in the words of blocks it owns.
  Wherever the code tests a pointer, the machine tests it and reports a fault.
* **The page heap** (`page-heap*.dfy`): a second small-step machine, of the span cache with its
  per-bin locks, hint bits and byte counter, again for any number of threads. The counter is an
  unsigned 64-bit number and wraps, and the hint words are read one at a time without a lock.
* **Both together** (`system*.dfy`): the arena heap on the page heap as one machine. A thread enters the
  page heap, class locks in hand, where the code does; the memory for a slab is what the page heap gave.
  Large blocks may be resized by the operating system past both heaps.
* **The same cache with calls one at a time** (`page-cache.dfy`, `bits.dfy`), as a class with the
  bitmap search at the level of bits.
* **The allocation registry** (`registry.dfy`): the open-addressing table of the debug build.
* **The entry points** (`user-api.dfy`, `memory.dfy`, `sizes.dfy`): headers, stashes, free-list links and
  user bytes in one byte memory, sizes in 64-bit arithmetic. `grants.dfy` shows that what the two heaps
  hand out is what the entry points may be given.
* **Lists, slabs and caches in place** (`batch-lists.dfy`, `slab-list.dfy`, `slab.dfy`,
  `thread-bin.dfy`, `large-cache.dfy`): the loops that relink blocks, as methods on mutable state.
* **The operating-system layer** (`reservations.dfy`, `span-pool.dfy`).

## Where the code falls short of its comments

* *The cap on cached pages.* The source says the cap is never passed by an insertion. A split puts the
  tail of a span in its bin before it counts it, so another thread can slip in. With `N` threads the
  bins hold at most the cap plus `(N - 1) * 511` pages (`CapWithinBound`), and for every cap of at least
  2 pages the cap itself is kept by all runs if and only if at most one thread uses the page heap
  (`CapHoldsIff`).
* *The counter can drop below zero.* If the tail is taken before it is counted, the unsigned counter
  wraps and a free is refused although nothing is cached (`FreeRefusedWithRoom`). For every cap of at
  least 3 pages, no run refuses a free that fits if and only if at most one thread uses the page heap
  (`FreeAdmittedIff`); state by state, a free is accepted if and only if the true count plus the span
  lies between zero and the cap (`FreeAcceptsIff`).
* *Growing a large block to a huge size.* `fast_realloc` rounds the new size without the overflow guard
  of `fast_malloc`. For a large block it returns a block with room for the new size if and only if that
  size passes the guard; for every other size it reports success and returns the old block unchanged
  (`Allocator.Realloc`, `GrowthIff`, `GrowthWraps`).
* *A registry table that cannot grow.* The source says a failed growth "stays correct". A lookup of a
  pointer that is not live ends if and only if live records and tombstones leave a slot empty
  (`ProbeEndsIffRoom`); inserts whose growth fails reach a full table (`FullTable`).
* *Decommit failures.* A reservation whose decommit fails is not released when its last span is given
  back (`Reservations.Registry.ReleaseSpan` states exactly when it is, `LeftBehind` reaches such a state).

## Model

| member | source | states |
|---|---|---|
| Config.RequestToClassIsBestFit | src/fast_alloc_config.h:131-166 | a small request gets the smallest class that holds it, and never class 0 |
| Config.BlockInSpan | src/slab.cpp:43-57 | every block of a slab lies inside its span and behind the header |
| Config.SlabHoldsABlock | src/global_heap.cpp:319-330 | every class has a page-rounded span of 64 KB to 2 MB with room for a block |
| Config.ComputeCacheLimits | src/fast_alloc_config.h:168-181 | the table filled by the loop holds the limit of every class |
| Links.ChainUnique | src/slab.h:23-28 | the links from a head determine one list |
| Links.CutRep | src/tls_cache.cpp:455-457 | cutting a list after its first blocks leaves two lists that share nothing, and disturbs no other list |
| Links.SpliceRep | src/global_heap.cpp:755-759 | a list whose tail points at the head of a queue becomes part of the queue when the head is swung, whatever happened to the queue before |
| Links.AppendRep | src/global_heap.cpp:729-735 | linking a block behind the last one extends that list and no other |
| HeapTheorems.NoGuardFires | src/tls_cache.h:55-97 | no run of a well-behaved client, with any number of threads, trips a link check, the double-push or double-return check, the bin repair or the slab check, or touches unmapped memory |
| HeapTheorems.RunsAreSafe | src/global_heap.cpp:393-448 | every run from a good state ends in a good state |
| HeapTheorems.EveryStep | src/global_heap.cpp:741-791 | every action keeps the invariant; a pending queue changes only by a compare-and-swap that puts the acting thread's whole list in front, or by an exchange that hands the acting thread all of it |
| HeapClient.FreeInv | src/tls_cache.h:77-97 | pushing a freed block onto the bin keeps the invariant and moves exactly that block from the client |
| HeapClient.WriteInv | src/slab.h:23-28 | the client may store any value over the link word of a block it owns |
| HeapReturn.OverflowInv | src/tls_cache.cpp:416-466 | cutting half the limit off an overflowing bin keeps the invariant; the walk never meets a wild link nor the end of the list |
| HeapReturn.SplitInv | src/global_heap.cpp:716-739 | moving a block to the list of its arena keeps the invariant |
| HeapReturn.ReturnInv | src/global_heap.cpp:764-791 | handing the list of an arena to its locked class or to the lock-free push keeps the invariant |
| HeapReturn.PushLinkInv | src/global_heap.cpp:755-756 | pointing the tail at a head that may be stale keeps the invariant |
| HeapReturn.PushCasJoins | src/global_heap.cpp:751-761 | a compare-and-swap that succeeds joins list and queue, also when the head was drained and came back since it was loaded |
| HeapReturn.PushCasInv | src/global_heap.cpp:778-785 | a compare-and-swap keeps the invariant, whether it succeeds, finds another head or fails for no reason |
| HeapFold.FoldInv | src/global_heap.cpp:393-440 | returning one block to its slab, with the list moves and the release of an empty slab, keeps the invariant |
| HeapRefill.FlushInv | src/tls_cache.cpp:299-335 | emptying a bin at thread exit keeps the invariant |
| HeapRefill.StealInv | src/global_heap.cpp:609-613 | trying the lock of a foreign arena keeps the invariant |
| HeapFeed.RefillCutInv | src/global_heap.cpp:536-598 | feeding a batch from the own queue, with the remainder parked again or drained, keeps the invariant |
| HeapFeed.StealCutInv | src/global_heap.cpp:614-670 | appending a stolen list to the batch and draining the rest keeps the invariant |
| HeapExtract.ExtractInv | src/global_heap.cpp:677-688 | choosing a partial slab, or making one, keeps the invariant |
| HeapExtract.ExtractFromInv | src/global_heap.cpp:481-513 | taking a block from a slab, from its free list or by carving it, keeps the invariant |
| HeapGuarantees.EveryBlockInOnePlace | src/global_heap.cpp:393-448 | in every reachable state each carved block is in exactly one place: with the client, on its slab's free list, in one bin, on one pending queue or in the hands of one thread that is inside a call; shared lists end in null |
| HeapGuarantees.NeverHandedOutTwice | src/tls_cache.cpp:365-414 | an action leaves the client's blocks as they are, gives it one block it does not have, of the class asked for, or takes the one it frees |
| HeapGuarantees.BlocksApart | src/slab.h:74-98 | no two blocks share a byte: in every reachable state each carved block ends before the next begins |
| HeapGuarantees.BlockInItsSlab | src/slab.cpp:43-57 | every carved block lies in the span of its slab, behind the slab's header |
| HeapRequests.RefillServesRequest | src/tls_cache.cpp:365-414 | in every run a thread that refills a bin, through folds, pushes, steals and extractions, does so for the class it asked for last, and never for class 0 |
| HeapGuarantees.ReleasedSlabIsIdle | src/global_heap.cpp:432-438 | when a slab's span is given up, all its blocks are on its own free list but the one just coming back: none is live, cached, pending or later in the batch |
| HeapGuarantees.SlabOnTheRightList | src/global_heap.cpp:424-437 | a slab that no thread is extracting from is on the full list iff it has no free block, on the partial list iff it has some but not all, and on no other, whatever other threads do |
| HeapGuarantees.SlabCountsAreExact | src/slab.h:74-121 | a slab's free count is the length of its free list plus the blocks not carved yet |
| HeapGuarantees.BinCountsAreExact | src/tls_cache.h:77-97 | between calls a bin's count is the length of its list, stays below the limit, and its blocks are distinct, of its class and not the client's |
| HeapGuarantees.BatchIsExact | src/global_heap.cpp:515-692 | a finished batch is a null-terminated list of distinct blocks of the class, as long as reported |
| HeapGuarantees.EmptyBatchMeansExhausted | src/global_heap.cpp:677-692 | a batch is no longer than asked for, and empty only when there is no partial slab and no new one |
| HeapGuarantees.QueueIsAList | src/global_heap.cpp:741-762 | a pending queue is at all times a null-terminated list of distinct blocks of its own arena and class, and the links allow no other reading |
| HeapQueues.EveryRunHasHistory | src/global_heap.cpp:741-791 | every run has a sequence of decompositions of memory, one per state, in each of which the invariant holds and along which queues move as `EveryStep` says |
| HeapQueues.QueuesConserve | src/global_heap.cpp:442-448 | over every run, what the exchanges took from a queue and what is still on it are exactly what was on it and the lists that successful compare-and-swaps pushed |
| HeapGuarantees.HoldersDoNotWait | src/global_heap.cpp:606-613 | the holder of a class lock never waits for a class lock (class locks alone; `SystemTheorems.NoDeadlock` is about all locks) |
| HeapRamp.RampDoubles | src/tls_cache.cpp:365-377 | in every run, a bin that has missed `n` times since it was last emptied refills with 16 blocks doubled `n` times, capped at half the limit |
| HeapRamp.RampFollows | src/tls_cache.cpp:299-335 | along any run only misses advance a bin's ramp and only emptying it at thread exit resets it |
| HeapSteps.StepFramed | src/global_heap.cpp:393-448 | a step of a thread changes no other thread's program point and no partial list but that of the class it works on; it adds only the slab it makes and drops only the slab it returns a block to |
| ThreadBin.Bin.Allocate | src/tls_cache.cpp:365-414 | a hit pops the list; a miss hands out the first block of the batch, keeps the rest as the bin and advances the ramp |
| ThreadBin.Bin.Deallocate | src/tls_cache.h:77-97 | the bin stays below its limit; at the limit exactly half of it leaves from the front as a list of its own |
| ThreadBin.Bin.Overflow | src/tls_cache.cpp:416-466 | the walk cuts the list at the right block, and the repair branch is never taken |
| ThreadBin.CutInTwo | src/tls_cache.cpp:455-457 | ending a list after `n` blocks leaves the first `n` and the rest as two lists |
| SlabBlocks.Slab.Allocate | src/slab.h:74-98 | a block nobody has, from the free list or freshly carved; null exactly when no block is free |
| SlabBlocks.Slab.Deallocate | src/slab.h:104-118 | a taken block becomes free; the double-return check does not fire and the count stays within the total |
| SlabBlocks.Slab.Extract | src/global_heap.cpp:481-513 | a null-terminated list of as many new distinct blocks as asked for and left |
| SlabBlocks.NextIsNew | src/slab.h:86-96 | a block carved later is none of those carved before and lies behind all of them |
| SlabList.Slabs.Push | src/global_heap.cpp:304-309 | the slab becomes first, in both directions, and every list that shares no slab with this one stays as it is |
| SlabList.Slabs.Remove | src/global_heap.cpp:311-317 | the slab leaves from anywhere, the list stays well formed in both directions, and every list that shares no slab with this one stays as it is |
| SlabList.Slabs.Move | src/global_heap.cpp:461-464 | a slab leaves one list for the front of another; both stay well formed and all other lists stay as they are |
| SlabList.Unlinked | src/global_heap.cpp:311-317 | rewiring the two neighbours gives the list without the slab |
| BatchLists.Blocks.Split | src/global_heap.cpp:716-739 | a stable partition in place: each key's list is the subsequence of its blocks, in order, null-terminated, with its last block |
| BatchLists.Blocks.Route | src/global_heap.cpp:837-925 | the split by arena and then by class hands over every (arena, class) list that is not empty, whole, in order and once |
| BatchLists.RoutedAlone | src/global_heap.cpp:837-925 | each block is on exactly one handed-over list, that of its own arena and class |
| BatchLists.PickTwice | src/global_heap.cpp:867-904 | splitting twice gives the subsequence of the blocks both keys pick, in order |
| BatchLists.PresentIs | src/global_heap.cpp:891-898 | the classes noted are exactly those that occur, each once |
| PageHeapTheorems.RunGood | src/global_heap.cpp:110-251 | every run keeps locks, hints, byte account and tiling in order |
| PageHeapTheorems.CapWithinBound | src/global_heap.cpp:151-182 | the bins hold at most the cap plus 511 pages for each thread but one; with one thread at most the cap |
| PageHeapTheorems.CounterAtRest | src/global_heap.cpp:203-223 | when no call is under way the counter is exactly the pages in the bins |
| PageHeapTheorems.FreeAcceptsIff | src/global_heap.cpp:208-209 | the counter lets a free in iff the true count plus the span is between zero and the cap |
| PageHeapTheorems.HintsExact | src/global_heap.cpp:54-66 | whenever a bin's lock is free its hint says whether the bin is non-empty |
| PageHeapTheorems.SpansTile | src/global_heap.cpp:151-182 | the cached, held and handed-out spans tile exactly the pages obtained from the system: no page is in two spans and none is lost |
| PageHeapTheorems.AllocationDelivers | src/global_heap.cpp:110-190 | an allocation keeps its request and ends with a span of exactly that size which no caller had, or with none when the system has no memory; no other step gives a caller anything or takes anything from one |
| PageHeapTheorems.NoDeadlock | src/global_heap.cpp:141-173 | within the page heap: in every state in which a call is under way some call can go on (`SystemTheorems.NoDeadlock` adds the class locks) |
| PageHeapTheorems.StepsAdvance | src/global_heap.cpp:148-187 | every step of a thread that does not wait brings its call closer to the end, whatever the other threads do |
| PageHeapTheorems.CallersApart | src/global_heap.cpp:110-190 | two spans with callers are the same or share no page |
| PageHeapTheorems.CachedApart | src/global_heap.cpp:110-227 | a span with a caller shares no page with a cached span |
| PageHeapTheorems.RemapGood | src/fast_alloc.cpp:655-702 | a caller's span that the system shrinks, grows or moves past the page heap leaves locks, hints, byte account and tiling in order |
| SystemGuarantees.NoByteTwice | src/fast_alloc.cpp:286-353 | in every state a run reaches no byte is in two blocks, small or large, or in a block and a cached span |
| SystemGuarantees.RunsOfBoth | src/global_heap.cpp:319-355 | the arena heap and the page heap inside any run of both are in states that runs of their own reach, so the theorems about each apply |
| Grants.GrantsAreFresh | src/fast_alloc.cpp:286-353 | in every reached state callers' blocks backed by the heaps share no byte; under any action those not freed stay backed, and every block or span handed out is what `GrantOk` asks: fresh, in user memory and of the class or size |
| Grants.BackedKept | src/fast_alloc.cpp:286-353 | a caller's block stays with it, header and all, until it is freed or resized, whatever other threads do |
| Grants.RemapIsFresh | src/fast_alloc.cpp:655-702 | a span the system resizes for `fast_realloc` is what `RemapOk` asks: fresh but for the block itself |
| SystemProofs.LargeRemapSound | src/fast_alloc.cpp:655-702 | resizing a large block past the page heap keeps the two heaps sound together |
| SystemTheorems.SystemIsSafe | src/global_heap.cpp:319-355 | in every run of the arena heap on the page heap no check of either fires, and every span the page heap has handed out has exactly one owner: a slab, a thread making one, or a large block |
| SystemTheorems.RunSound | src/global_heap.cpp:319-355 | every run of the two heaps together keeps the invariants of both, the coupling of their program points and the account of spans |
| SystemTheorems.NoDeadlock | src/global_heap.cpp:393-692 | over class locks, page bins and the span pool: if any call is under way, some call under way waits for nothing |
| SystemTheorems.SomeCallGoesOn | src/global_heap.cpp:393-692 | in every state a run reaches, if a call is under way some call under way does not wait and its next step is possible |
| SystemTheorems.GivenUpSound | src/global_heap.cpp:432-438 | the span of an empty slab is one the page heap gave out, of exactly its size, and giving it back keeps everything sound |
| SystemProofs.GivenIsFresh | src/global_heap.cpp:319-341 | the span the page heap gives for a slab overlaps no slab there is and lies in user memory |
| SystemProofs.MakingKept | src/global_heap.cpp:677-688 | while a thread makes a slab, it stays where it is and its class has no partial slab, whatever other threads do |
| SystemProofs.PageTurnSound | src/global_heap.cpp:110-251 | every step a thread takes inside the page heap keeps the two heaps sound together |
| PageHeapBytes.StepBytes | src/global_heap.cpp:151-177 | every step keeps the counter equal to the pages in the bins plus what the threads are in the middle of |
| PageHeapBytes.AcceptBytes | src/global_heap.cpp:206-209 | admitting a free keeps bins plus claims within the bound although the counter misses uncounted tails |
| PageHeapLocks.StepHints | src/global_heap.cpp:61-66 | every step keeps each hint right, or in the hands of the thread about to correct it |
| PageHeapLocks.LocksMove | src/global_heap.cpp:89-101 | a thread holds exactly the locks its program point says |
| PageHeapSpans.SplitTiles | src/global_heap.cpp:155-172 | a split gives two adjacent pieces that together are the span |
| PageHeapSpans.StepTiles | src/global_heap.cpp:110-251 | every step keeps every page in exactly one span |
| PageHeapOvershoot.CapHoldsIff | src/global_heap.cpp:206-209 | for every cap of at least 2 pages: no run passes the cap iff at most one thread runs |
| PageHeapOvershoot.LargeCapPassed | src/global_heap.cpp:157-178 | two threads can fill the cache and pass any cap of 512 pages or more |
| PageHeapOvershoot.SmallCapPassed | src/global_heap.cpp:157-178 | two threads can pass a cap of 2 to 512 pages |
| PageHeapOvershoot.FreeRefusedWithRoom | src/global_heap.cpp:206-223 | a reachable state in which nothing is cached and a free is refused |
| PageHeapOvershoot.FreeAdmittedIff | src/global_heap.cpp:206-223 | for every cap of at least 3 pages: no run refuses a free that fits under the cap iff at most one thread runs |
| PageCache.FirstNonEmptyAbove | src/global_heap.cpp:68-82 | the search by words finds the smallest marked bin above the request, or none |
| PageCache.MarkIs | src/global_heap.cpp:61-66 | setting and clearing a hint changes that bin's bit and no other |
| PageCache.Cache.Allocate | src/global_heap.cpp:110-190 | the best fit is taken and split; the system is asked only when no cached span is large enough |
| PageCache.Cache.Take | src/global_heap.cpp:144-182 | head and tail of the span, the bitmap and the counter are all accounted for |
| PageCache.Cache.Free | src/global_heap.cpp:192-227 | a span is kept exactly when the cap and the bin's own limit leave room |
| PageCache.Cache.Purge | src/global_heap.cpp:229-251 | every cached span goes back once, all bins are empty, and the pages reported are what the counter showed |
| PageCache.TakenPages | src/global_heap.cpp:151-178 | taking a span uses up exactly the pages asked for |
| PageCache.FreeThenTake | src/global_heap.cpp:110-227 | a span given back and kept is what the next request of its size gets, and the cache is as before |
| PageCache.NextFit | src/global_heap.cpp:146-148 | what the bitmap search finds is the best fit |
| Bits.TrailingZeros | src/global_heap.cpp:80 | the index of the lowest bit set |
| Bits.MaskIs | src/global_heap.cpp:71 | masking keeps exactly the bits from an index on |
| Bits.SetBitIs | src/global_heap.cpp:62 | setting a bit changes that bit only |
| Bits.ClearBitIs | src/global_heap.cpp:65 | clearing a bit changes that bit only |
| Bits.PowerTest | src/fast_alloc.cpp:774 | `n & (n - 1)` is zero iff `n` is a power of two, for every positive `n` |
| Bits.MaskLow | src/debug_aid.cpp:222 | masking with a power of two less one is the remainder |
| Bits.MaskHigh | src/fast_alloc.cpp:790-791 | clearing the bits below a power of two subtracts the remainder |
| Registry.Shard.Insert | src/debug_aid.cpp:275-303 | adds the record exactly when the pointer is not live, reusing a tombstone; otherwise reports the live record; a table grows only at a load of 70%, and is the same one when growth fails |
| Registry.Shard.Erase | src/debug_aid.cpp:305-323 | removes the record exactly when the pointer is live, and returns it; works in a full table for a live pointer |
| Registry.Shard.Grow | src/debug_aid.cpp:257-273 | doubling the table keeps every record, findable from its new hash slot, and drops all tombstones |
| Registry.Shard.FindSlot | src/debug_aid.cpp:283-297 | the probe finds the pointer exactly when it is live |
| Registry.Shard.constructor | src/debug_aid.cpp:239-251 | a new shard is the empty map |
| Registry.InsertHolds | src/debug_aid.cpp:294-298 | filling a tombstone or an empty slot on the probe path adds one entry and keeps all others findable |
| Registry.EraseHolds | src/debug_aid.cpp:313-318 | a tombstone removes one entry and keeps all others findable |
| Registry.ProbeMiss | src/debug_aid.cpp:285-293 | a probe that meets an empty slot proves the pointer is not live |
| Registry.ProbeEndsIffRoom | src/debug_aid.cpp:257-260 | a lookup of a pointer that is not live ends iff a slot is empty |
| Registry.FullTable | src/debug_aid.cpp:257-260 | inserts whose growth fails fill a shard, and in it no lookup of a pointer that is not live ends |
| Registry.LiveTotals | src/debug_aid.cpp:325-335 | the sums over the shards are the number and the bytes of all live records |
| Registry.AllocRegistry.Insert | src/debug_aid.cpp:275-303 | over all shards: adds the record exactly when the pointer is not live, in the shard its address selects, and keeps every pointer in its shard; tables are old or new ones, and an empty slot remains where growth succeeds |
| Registry.AllocRegistry.Erase | src/debug_aid.cpp:305-323 | over all shards: removes exactly that pointer and returns its record; tables and empty slots stay |
| Registry.AllocRegistry.Totals | src/debug_aid.cpp:325-335 | the totals are the number and the bytes of all live records, with no assumption but that the registry is valid |
| Registry.InsertThenErase | src/debug_aid.cpp:275-323 | while growth succeeds every shard keeps an empty slot, and erasing what was inserted gives the records back |
| Registry.AllocRegistry.constructor | src/debug_aid.cpp:239-251 | a new registry is the empty map, in shards and tables of its own with room |
| Registry.HashMask | src/debug_aid.cpp:218-223 | the masked product is the remainder the hash slot is defined by |
| Registry.StepMask | src/debug_aid.cpp:292 | masking the next slot number goes around the end of the table |
| Registry.DisjointUnion | src/debug_aid.cpp:235-237 | counts and bytes of disjoint maps add up |
| UserApi.Allocator.Malloc | src/fast_alloc.cpp:286-353 | null exactly when the guard refuses or memory is missing; otherwise the granted block, with room for the request, joins the live ones, which stay apart; writing its header changes no user's byte |
| UserApi.Allocator.Free | src/fast_alloc.cpp:355-445 | the block leaves the live ones and goes to its class's bin or to the large cache; the link written into it changes no other block's header or bytes; null and implausible pointers are ignored |
| UserApi.Allocator.Release | src/fast_alloc.cpp:364-441 | the words in front of the pointer lead to the raw block after at most one recursion; no header check fires |
| UserApi.Allocator.AlignedAlloc | src/fast_alloc.cpp:770-812 | null exactly for a bad alignment or missing memory; otherwise aligned, with room, and made of the granted block; header and stash change no user's byte |
| UserApi.Allocator.Stash | src/fast_alloc.cpp:790-797 | the stash and the user bytes fit in the raw block, leave its header alone and change no user's byte |
| UserApi.Allocator.Realloc | src/fast_alloc.cpp:522-765 | null with everything as it was, or a block with the old bytes in which all other blocks' bytes are kept, in one memory with all headers; room for the new size iff the block is not large or the size passes the guard, and otherwise the old block unchanged; alignment is kept |
| UserApi.Allocator.ReallocLarge | src/fast_alloc.cpp:571-743 | in place, shrunk, moved or copied: the bytes are kept; "rounding ate the gain" is unreachable |
| UserApi.Allocator.ReallocSmall | src/fast_alloc.cpp:587-600 | kept in place or copied, with room and the old bytes |
| UserApi.Allocator.ReallocOver | src/fast_alloc.cpp:544-569 | keeps alignment and bytes; null also when the recorded size is above 2^30 |
| UserApi.Allocator.CopyOver | src/fast_alloc.cpp:746-764 | allocate, copy, free: the common bytes are kept and all other blocks untouched |
| UserApi.Allocator.MoveTo | src/fast_alloc.cpp:758-763 | the bytes are copied before the freed block's memory is reused for a link, and no other block's bytes or header change |
| UserApi.Allocator.Restash | src/fast_alloc.cpp:558-562 | recording a smaller size changes no user's byte |
| UserApi.Allocator.Resize | src/fast_alloc.cpp:693-722 | a span that is shrunk or moved keeps its bytes and overlaps no other block |
| UserApi.KindsTold | src/fast_alloc.cpp:364-405 | small, large and over-aligned blocks are always told apart |
| UserApi.UserBytesApart | src/fast_alloc.cpp:782-797 | no caller's bytes overlap a header, a stash or another caller's bytes |
| UserApi.HeaderWriteKeeps | src/fast_alloc.cpp:790-797 | writing a header or a stash of a live block changes no user's byte |
| UserApi.UserWriteKeeps | src/fast_alloc.cpp:746-764 | writing a user's bytes changes no header, no stash and no other user's byte |
| UserApi.AlignedFits | src/fast_alloc.cpp:782-797 | for every valid alignment and size the aligned block lies in the raw block behind its header |
| Sizes.GrowthIff | src/fast_alloc.cpp:687-692 | growth finds no room in the present span iff the size passes malloc's guard |
| UserApi.GrowthWraps | src/fast_alloc.cpp:687-743 | for every size past the guard: a live large block, asked to grow to it, is returned as it is, with less room |
| Sizes.ShrinkGains | src/fast_alloc.cpp:596-649 | a shrink by a page or more always lowers the page count |
| Sizes.PageRoundUpWraps | src/fast_alloc.cpp:105-108 | past the guard the rounded size wraps to at most one page |
| Sizes.MaskRounds | src/fast_alloc.cpp:105-108 | the mask rounds down to a multiple |
| Memory.PutWord | src/fast_alloc.cpp:794-797 | a word written is read again, and no byte outside it changes |
| Memory.CopyWord | src/fast_alloc.cpp:758-760 | a copied word reads the same at its new place |
| LargeCache.Cache.Allocate | src/tls_cache.cpp:468-508 | the first cached span of the class that is large enough, with its true size, and less than twice the request; the global heap only when there is none |
| LargeCache.Cache.Deallocate | src/tls_cache.cpp:510-521 | cached exactly when the class is below its limit; counts stay the lengths of the lists and at most 64 |
| LargeCache.ClassBracket | src/fast_alloc_config.h:196-210 | every 64-bit size lies in the power-of-two bracket of its class, and the cap on classes is never reached |
| LargeCache.ClassUnique | src/fast_alloc_config.h:196-210 | no size is in two classes |
| LargeCache.MaxLargeCacheSize | src/tls_cache.h:170-177 | between 4 and 64 spans of a size are kept, and within those bounds as many as fit in 2 MB |
| LargeCache.GiveThenTake | src/tls_cache.cpp:468-521 | a span given back and kept serves the next request of its own class that it is large enough for, and the cache is as before |
| Reservations.Registry.Add | src/os_memory.cpp:112-115 | a fresh reservation is tracked whole |
| Reservations.Registry.ReleaseSpan | src/os_memory.cpp:119-138 | live bytes are the bytes not decommitted; the reservation is released iff its last committed bytes go and the decommit, if one is needed, succeeds; each reservation at most once |
| Reservations.LeftBehind | src/os_memory.cpp:119-138 | for any reservation in two spans, both given back: if the last decommit fails the reservation stays and is never released |
| Reservations.Registry.DecommitRange | src/os_memory.cpp:142-153 | the tail is decommitted and the reservation stays |
| Reservations.Registry.FindRegion | src/os_memory.cpp:158-166 | the region that holds the whole span, if there is one |
| Reservations.Dropped | src/os_memory.cpp:135-137 | dropping a region with its last bytes leaves all other counts exact |
| SpanPool.Pool.Carve | src/os_memory.cpp:265-306 | a span apart from every span carved before; none only when no chunk has room and no further chunk can be had |
| SpanPool.Pool.Contains | src/os_memory.cpp:308-317 | whether an address belongs to a chunk |

## Left out

- Memory orderings, spin back-off, prefetching and thread-key plumbing: steps are sequentially consistent.
- Statistics, logging, canaries, poison, leak dumps, violation reports and pointer audits.
- Behaviour after client misuse such as a double free: the checks are shown not to fire for a correct client.
- The out-of-memory test countdown, the pool of recycled cache objects and the operator new and delete overrides.
- `fast_free_sized`, `GlobalHeap::AllocateBlock` and the 16-byte class 0, which add no new state.
- The page size is 4096 in the two machines and in the slab geometry, and a parameter in `user-api.dfy`.
- A walk over a list that only one thread can reach is one step of the heap machine; the loops are in `thread-bin.dfy`, `slab.dfy` and `batch-lists.dfy`.
- A thread exit takes a bin's list and resets its counters in one step, where the code resets them after the hand-over.
- `DrainPendingReturns` tests the head before it exchanges it; the machine has the exchange only.
- The design document says mapping happens outside locks; the code makes slabs under the class lock, and the model follows the code.
- PageHeapOvershoot.CapHoldsIff: caps of 0 and 1 pages, which no setting gives, are only covered by the bound of CapWithinBound.
- PageHeapTheorems.CapWithinBound: assumes that the cap and 1024 pages a thread fit in 64 bits of bytes.
- Registry.Shard.Insert: requires an empty slot, a live pointer or a growth that succeeds, since without one of them the probe does not end (`ProbeEndsIffRoom`).
- Registry.Shard.Erase: requires an empty slot or a live pointer, for the same reason.
- Registry.Shard.FindSlot: requires an empty slot or a live pointer, for the same reason.
- Reservations.Registry.DecommitRange: requires that the caller keeps part of the span, as the source says it does.
- UserApi.Allocator.Malloc: which block is granted is a parameter required to be fresh; that the heaps' grants are is `Grants.GrantsAreFresh`.
- UserApi.Allocator.Free: the link it writes is a parameter; which list the block joins is in the heap machines and in `large-cache.dfy`.
- mmap, mremap, madvise and VirtualAlloc are answers from outside: fresh ranges or failure, with the common part of a resized span kept.
