/**
 The arena heap and the thread caches as a small-step machine
 (src/global_heap.cpp, src/slab.h, src/tls_cache.*), for any number of threads.

 A thread is at a program point `Pc`.  One step is one access to shared state:
 a lock operation, an exchange, a load, a link write or a compare-and-swap of
 a pending queue, or one block moved in or out of a slab under the class
 lock.  A walk over a list only the thread can reach is one step.  Wherever
 the code tests a pointer, the step tests the same address and reports a
 `Fault` if the test fails; reading the memory of an unmapped block is a fault
 as well.  The client may store any value in the link words of its own blocks.
 */
module Heap {
  import opened Config
  import opened Links

  /** One class of one arena: the unit of locking. */
  datatype Key = Key(arena: nat, cls: nat)

  /** The metadata of a slab.  Its free list is the list `SlabFree(base)`. */
  datatype Slab = Slab(arena: nat, cls: nat, total: nat, freeBlocks: int, nextNew: nat)

  /** The immutable first words of a block. */
  datatype Header = Header(slab: int, cls: nat)

  /** What a thread does after it has folded a list into the slabs, or after a push. */
  datatype After =
    | ToSteal(cls: nat, target: nat, got: nat)
    | ToStealRelease(cls: nat, target: nat, got: nat, off: nat)
    | ToDrain(cls: nat, arena: nat, flushing: bool)
    | ToRelease(cls: nat, arena: nat, flushing: bool)
    | ToReturn(cls: nat, arena: nat, defer: bool, flushing: bool)
    | ToPurge(cls: nat, arena: nat)

  datatype Pc =
    | Idle
    // Refill of an empty bin: AllocateBlockSlow and AllocateBatch
    | RefillLock(cls: nat, target: nat)
    | RefillSwap(cls: nat, target: nat)
    | RefillCut(cls: nat, target: nat)
    | Steal(cls: nat, target: nat, got: nat, off: nat)
    | StealSwap(cls: nat, target: nat, got: nat, off: nat)
    | StealCut(cls: nat, target: nat, got: nat, off: nat)
    | Extract(cls: nat, target: nat, got: nat)
    | ExtractFrom(cls: nat, target: nat, got: nat, slab: int, tl: int)
    | Finish(cls: nat, got: nat)
    // A list being returned to the slabs of (arena, cls) under the class lock
    | Fold(arena: nat, cls: nat, after: After)
    // The lock-free push of register `reg`, with last block `tl`, onto a pending queue
    | PushLoad(reg: Reg, tl: int, arena: nat, cls: nat, after: After)
    | PushLink(reg: Reg, tl: int, arena: nat, cls: nat, after: After, seen: int)
    | PushCas(reg: Reg, tl: int, arena: nat, cls: nat, after: After, seen: int)
    // Overflow and flush of a bin: DeallocateBlockSlow, DeallocateBatchClass, DeferBinToPending
    | Overflow(cls: nat)
    | Split(cls: nat, defer: bool, flushing: bool)
    | Return(cls: nat, arena: nat, defer: bool, flushing: bool)
    | Drain(cls: nat, arena: nat, flushing: bool)
    | Flush(cls: nat)
    // PurgePageCache, first part
    | PurgeLock(cls: nat, arena: nat)
    | PurgeSwap(cls: nat, arena: nat)

  datatype Heap = Heap(
    mem: Mem,
    hdr: map<int, Header>,
    slabs: map<int, Slab>,
    partial: map<Key, seq<int>>,
    full: map<Key, seq<int>>,
    locks: map<Key, nat>,
    count: map<ListId, int>,
    ramp: map<ListId, nat>,
    tails: map<ListId, int>,
    pcs: map<nat, Pc>,
    live: set<int>)

  datatype Guard = WildLink | DoublePush | DoubleReturn | BinHeal | BadSlab | Unmapped | Endless

  datatype Outcome = Ok(heap: Heap) | Fault(guard: Guard)

  const Empty: Heap := Heap(Mem(map[], map[]), map[], map[], map[], map[], map[], map[], map[], map[], map[], {})

  function PcIn(pcs: map<nat, Pc>, t: nat): Pc {
    if t in pcs then pcs[t] else Idle
  }

  function PcOf(h: Heap, t: nat): Pc {
    PcIn(h.pcs, t)
  }

  function In(lists: map<Key, seq<int>>, k: Key): seq<int> {
    if k in lists then lists[k] else []
  }

  function At(m: map<ListId, int>, l: ListId): int {
    if l in m then m[l] else 0
  }

  function Ramp(h: Heap, l: ListId): nat {
    if l in h.ramp then h.ramp[l] else 0
  }

  /** Thread caches take arenas round robin; a thread is its creation index. */
  function Home(t: nat): nat {
    t % NUM_ARENAS
  }

  function Victim(t: nat, off: nat): nat {
    (Home(t) + off) % NUM_ARENAS
  }

  function Goto(h: Heap, t: nat, pc: Pc): Heap {
    h.(pcs := h.pcs[t := pc])
  }

  function Acquire(h: Heap, t: nat, k: Key): Heap {
    h.(locks := h.locks[k := t])
  }

  function Release(h: Heap, k: Key): Heap {
    h.(locks := h.locks - {k})
  }

  // ----- What a step leaves alone -------------------------------------------

  ghost predicate OtherPcs(h: Heap, h': Heap, t: nat) {
    h'.pcs - {t} == h.pcs - {t}
  }

  /** The other threads' program points and all refill ramps are as before. */
  ghost predicate Alone(h: Heap, h': Heap, t: nat) {
    OtherPcs(h, h', t) && h'.ramp == h.ramp
  }

  /** The class whose refill a thread goes on with after a fold or a push, or -1. */
  function AfterClass(after: After): int {
    if after.ToSteal? || after.ToStealRelease? then after.cls else -1
  }

  /** The class whose refill is under way, or -1. */
  function Serving(pc: Pc): int {
    match pc
    case RefillLock(c, _) => c
    case RefillSwap(c, _) => c
    case RefillCut(c, _) => c
    case Steal(c, _, _, _) => c
    case StealSwap(c, _, _, _) => c
    case StealCut(c, _, _, _) => c
    case Extract(c, _, _) => c
    case ExtractFrom(c, _, _, _, _) => c
    case Finish(c, _) => c
    case Fold(_, _, after) => AfterClass(after)
    case PushLoad(_, _, _, _, after) => AfterClass(after)
    case PushLink(_, _, _, _, after, _) => AfterClass(after)
    case PushCas(_, _, _, _, after, _) => AfterClass(after)
    case _ => -1
  }

  /** The thread goes on with the refill of class `c`, or with none, or has not moved. */
  ghost predicate Serves(h: Heap, h': Heap, t: nat, c: int) {
    h'.pcs == h.pcs || Serving(PcOf(h', t)) == c || Serving(PcOf(h', t)) == -1
  }

  /** Slabs keep their arena and class. */
  ghost predicate SameClasses(h: Heap, h': Heap) {
    forall b {:trigger h'.slabs[b]} :: b in h.slabs && b in h'.slabs ==>
      h'.slabs[b].cls == h.slabs[b].cls && h'.slabs[b].arena == h.slabs[b].arena
  }

  /** Only the partial slabs of class `k` have changed. */
  ghost predicate PartialBut(h: Heap, h': Heap, k: Key) {
    forall j {:trigger In(h'.partial, j)} :: j != k ==> In(h'.partial, j) == In(h.partial, j)
  }

  // ----- Walks over private lists -------------------------------------------

  datatype WalkResult = Stop(at: int, taken: nat) | Bad(guard: Guard)

  /** Follow links from `p`, the block number `taken`, until block `limit` or the end of the list. */
  function FeedWalk(next: map<int, int>, p: int, limit: nat, taken: nat): WalkResult
    decreases limit - taken
  {
    if p !in next then Bad(Unmapped)
    else if taken < limit && next[p] != 0 then
      if Plausible(next[p]) then FeedWalk(next, next[p], limit, taken + 1) else Bad(WildLink)
    else Stop(p, taken)
  }

  /** The walk of an overflowing bin, which may run off the end of the list. */
  function FlushWalk(next: map<int, int>, p: int, limit: nat, walked: nat): WalkResult
    decreases limit - walked
  {
    if walked < limit && p != 0 then
      if p !in next then Bad(Unmapped)
      else if next[p] != 0 && !Plausible(next[p]) then Bad(WildLink)
      else FlushWalk(next, next[p], limit, walked + 1)
    else Stop(p, walked)
  }

  /** The tests every loop makes on a node before it uses the node. */
  function NodeGuard(h: Heap, p: int): WalkResult {
    if !Plausible(p) then Bad(WildLink)
    else if p !in h.mem.next || p !in h.hdr then Bad(Unmapped)
    else if h.mem.next[p] != 0 && !Plausible(h.mem.next[p]) then Bad(WildLink)
    else
      var slab := h.hdr[p].slab;
      if !Plausible(slab) then Bad(BadSlab)
      else if slab !in h.slabs then Bad(Unmapped)
      else if h.slabs[slab].arena >= NUM_ARENAS then Bad(BadSlab)
      else Stop(p, 1)
  }

  // ----- The client ---------------------------------------------------------

  function InitialRefill(ramp: nat): nat {
    if ramp == 0 then 16 else ramp
  }

  function RefillCap(cls: nat): nat {
    if CacheLimit(cls) / 2 == 0 then 1 else CacheLimit(cls) / 2
  }

  function RefillTarget(cls: nat, ramp: nat): nat {
    if InitialRefill(ramp) > RefillCap(cls) then RefillCap(cls) else InitialRefill(ramp)
  }

  function NextRamp(cls: nat, ramp: nat): nat {
    var target := RefillTarget(cls, ramp);
    if target * 2 <= RefillCap(cls) then target * 2 else RefillCap(cls)
  }

  /** `TLSCache::AllocateBlock`: pop the bin, or start a refill. */
  function Malloc(h: Heap, t: nat, c: nat): (o: Outcome)
    ensures o.Ok? ==> o.heap.slabs == h.slabs && o.heap.partial == h.partial && OtherPcs(h, o.heap, t)
    ensures o.Ok? ==> Serves(h, o.heap, t, c)
  {
    var bin := Bin(t, c);
    var p := Head(h.mem, bin);
    if Plausible(p) then
      if p !in h.mem.next then Fault(Unmapped)
      else Ok(h.(mem := Pop(h.mem, bin), count := h.count[bin := At(h.count, bin) - 1], live := h.live + {p}))
    else if p != 0 then Fault(WildLink)
    else
      Ok(Goto(h, t, RefillLock(c, RefillTarget(c, Ramp(h, bin))))
         .(ramp := h.ramp[bin := NextRamp(c, Ramp(h, bin))]))
  }

  /** `TLSCache::DeallocateBlock`: push onto the bin of the block's class. */
  function Free(h: Heap, t: nat, y: int): (o: Outcome)
    ensures o.Ok? ==> o.heap.slabs == h.slabs && o.heap.partial == h.partial && OtherPcs(h, o.heap, t)
    ensures o.Ok? ==> Serves(h, o.heap, t, -1)
  {
    if !Plausible(y) then Fault(WildLink)
    else if y !in h.hdr then Fault(Unmapped)
    else
      var bin := Bin(t, h.hdr[y].cls);
      if Head(h.mem, bin) == y then Fault(DoublePush)
      else
        var n := At(h.count, bin) + 1;
        var pc := if n >= CacheLimit(h.hdr[y].cls) then Overflow(h.hdr[y].cls) else Idle;
        Ok(Goto(h, t, pc).(mem := Push(h.mem, bin, y), count := h.count[bin := n], live := h.live - {y}))
  }

  /** The client stores `value` over the link word of a block it owns. */
  function UserWrite(h: Heap, y: int, value: int): Outcome {
    Ok(h.(mem := h.mem.(next := h.mem.next[y := value])))
  }

  // ----- Returning a batch --------------------------------------------------

  function FlushBatch(cls: nat): nat {
    if CacheLimit(cls) / 2 == 0 then 1 else CacheLimit(cls) / 2
  }

  /** `DeallocateBlockSlow`: cut half the limit off the front of the bin. */
  function StepOverflow(h: Heap, t: nat, c: nat): (o: Outcome)
    ensures o.Ok? ==> o.heap.live == h.live && o.heap.slabs == h.slabs && o.heap.partial == h.partial && Alone(h, o.heap, t)
    ensures o.Ok? ==> Serves(h, o.heap, t, -1)
  {
    var bin := Bin(t, c);
    match FlushWalk(h.mem.next, Head(h.mem, bin), FlushBatch(c), 1)
    case Bad(g) => Fault(g)
    case Stop(q, _) =>
      if q == 0 then Fault(BinHeal)
      else if q !in h.mem.next then Fault(Unmapped)
      else Ok(Goto(h, t, Split(c, false, false))
              .(mem := Cut(h.mem, bin, Local(t, Work), q), count := h.count[bin := At(h.count, bin) - FlushBatch(c)]))
  }

  /** `SplitListByArena`: move the first block of the batch to the list of its arena. */
  function StepSplit(h: Heap, t: nat, c: nat, defer: bool, flushing: bool): (o: Outcome)
    ensures o.Ok? ==> o.heap.live == h.live && o.heap.slabs == h.slabs && o.heap.partial == h.partial && Alone(h, o.heap, t)
    ensures o.Ok? ==> Serves(h, o.heap, t, -1)
  {
    var work := Local(t, Work);
    var p := Head(h.mem, work);
    if p == 0 then Ok(Goto(h, t, Return(c, 0, defer, flushing)))
    else
      match NodeGuard(h, p)
      case Bad(g) => Fault(g)
      case Stop(_, _) =>
        var out := Local(t, Out(h.slabs[h.hdr[p].slab].arena));
        var tl := if Head(h.mem, out) == 0 then 0 else At(h.tails, out);
        Ok(h.(mem := Relink(Append(Pop(h.mem, work), out, tl, p), p, 0), tails := h.tails[out := p]))
  }

  /** `DeallocateBatchClass` and `DeferBinToPending`: hand over the list of one arena. */
  function StepReturn(h: Heap, t: nat, c: nat, i: nat, defer: bool, flushing: bool): (o: Outcome)
    ensures o.Ok? ==> o.heap.live == h.live && o.heap.slabs == h.slabs && o.heap.partial == h.partial && Alone(h, o.heap, t)
    ensures o.Ok? ==> Serves(h, o.heap, t, -1)
  {
    var out := Local(t, Out(i));
    if i >= NUM_ARENAS then Ok(Goto(h, t, if flushing then Flush(c + 1) else Idle))
    else if Head(h.mem, out) == 0 then Ok(Goto(h, t, Return(c, i + 1, defer, flushing)))
    else if defer || Key(i, c) in h.locks then
      Ok(Goto(h, t, PushLoad(Out(i), At(h.tails, out), i, c, ToReturn(c, i + 1, defer, flushing))))
    else
      Ok(Goto(Acquire(h, t, Key(i, c)), t, Fold(i, c, ToDrain(c, i, flushing)))
         .(mem := Move(h.mem, out, Local(t, Work))))
  }

  /** `FlushToGlobalHeap`, one bin. */
  function StepFlush(h: Heap, t: nat, c: nat): (o: Outcome)
    ensures o.Ok? ==> o.heap.live == h.live && o.heap.slabs == h.slabs && o.heap.partial == h.partial && OtherPcs(h, o.heap, t)
    ensures o.Ok? ==> o.heap.ramp == if c < NUM_SIZE_CLASSES then h.ramp[Bin(t, c) := 0] else h.ramp
    ensures o.Ok? ==> Serves(h, o.heap, t, -1)
  {
    var bin := Bin(t, c);
    if c >= NUM_SIZE_CLASSES then Ok(Goto(h, t, Idle))
    else
      var h' := h.(count := h.count[bin := 0], ramp := h.ramp[bin := 0]);
      if Head(h.mem, bin) == 0 then Ok(Goto(h', t, Flush(c + 1)))
      else Ok(Goto(h', t, Split(c, At(h.count, bin) <= 64, true)).(mem := Move(h.mem, bin, Local(t, Work))))
  }

  // ----- Folding a list into the slabs --------------------------------------

  function Without(s: seq<int>, x: int): seq<int> {
    if |s| == 0 then [] else if s[0] == x then s[1..] else [s[0]] + Without(s[1..], x)
  }

  /** The blocks whose header names this slab. */
  function Carved(hdr: map<int, Header>, slab: int): set<int> {
    set y | y in hdr && hdr[y].slab == slab
  }

  /** `Slab::Deallocate` of block `p`, and the list moves of its slab. */
  function ReturnBlock(h: Heap, k: Key, work: ListId, p: int): (h': Heap)
    requires p in h.hdr && h.hdr[p].slab in h.slabs && Head(h.mem, work) == p && p in h.mem.next
    ensures h'.live == h.live && h.hdr[p].slab in h'.slabs && h'.slabs.Keys == h.slabs.Keys
    ensures h'.pcs == h.pcs && h'.ramp == h.ramp && SameClasses(h, h') && PartialBut(h, h', k)
  {
    var b := h.hdr[p].slab;
    var slab := h.slabs[b].(freeBlocks := h.slabs[b].freeBlocks + 1);
    var h1 := h.(mem := Push(Pop(h.mem, work), SlabFree(b), p), slabs := h.slabs[b := slab]);
    if h.slabs[b].freeBlocks == 0
    then h1.(full := h.full[k := Without(In(h.full, k), b)], partial := h.partial[k := [b] + In(h.partial, k)])
    else h1
  }

  /** An empty slab leaves its list and its span goes back to the page heap. */
  function ReleaseSlab(h: Heap, k: Key, b: int): (h': Heap)
    ensures h'.live == h.live && h'.slabs.Keys == h.slabs.Keys - {b}
    ensures h'.pcs == h.pcs && h'.ramp == h.ramp && SameClasses(h, h') && PartialBut(h, h', k)
  {
    var gone := Carved(h.hdr, b);
    h.(mem := Mem(h.mem.next - gone, h.mem.head[SlabFree(b) := 0]),
       hdr := h.hdr - gone,
       slabs := h.slabs - {b},
       partial := h.partial[k := Without(In(h.partial, k), b)])
  }

  /** Where a thread goes on once its list is folded in or pushed. */
  function Continue(h: Heap, t: nat, k: Key, after: After): (h': Heap)
    ensures h'.live == h.live && h'.slabs == h.slabs && h'.partial == h.partial && Alone(h, h', t)
    ensures Serves(h, h', t, AfterClass(after))
  {
    match after
    case ToSteal(c, target, got) => Goto(h, t, Steal(c, target, got, 1))
    case ToStealRelease(c, target, got, off) => Goto(Release(h, k), t, Steal(c, target, got, off + 1))
    case ToDrain(c, a, flushing) => Goto(h, t, Drain(c, a, flushing))
    case ToRelease(c, a, flushing) => Goto(Release(h, k), t, Return(c, a + 1, false, flushing))
    case ToReturn(c, i, defer, flushing) => Goto(h, t, Return(c, i, defer, flushing))
    case ToPurge(c, a) =>
      Goto(Release(h, k), t, if c + 1 < NUM_SIZE_CLASSES then PurgeLock(c + 1, a) else PurgeLock(0, a + 1))
  }

  /** The slab of the block that is folded in next. */
  function FoldSlab(h: Heap, t: nat): int {
    var p := Head(h.mem, Local(t, Work));
    if p in h.hdr then h.hdr[p].slab else 0
  }

  /** `ProcessPendingListLocked` and `ProcessBatchLocked`, one block. */
  function StepFold(h: Heap, t: nat, a: nat, c: nat, after: After): (o: Outcome)
    ensures o.Ok? ==> o.heap.live == h.live && Alone(h, o.heap, t) && SameClasses(h, o.heap) && o.heap.slabs.Keys <= h.slabs.Keys
    ensures o.Ok? ==> PartialBut(h, o.heap, Key(a, c)) && h.slabs.Keys - {FoldSlab(h, t)} <= o.heap.slabs.Keys
    ensures o.Ok? && Head(h.mem, Local(t, Work)) != 0 ==> o.heap.pcs == h.pcs
    ensures o.Ok? && Head(h.mem, Local(t, Work)) == 0 ==> o.heap.slabs == h.slabs
    ensures o.Ok? ==> Serves(h, o.heap, t, AfterClass(after))
  {
    var work := Local(t, Work);
    var p := Head(h.mem, work);
    var k := Key(a, c);
    if p == 0 then Ok(Continue(h, t, k, after))
    else
      match NodeGuard(h, p)
      case Bad(g) => Fault(g)
      case Stop(_, _) =>
        var b := h.hdr[p].slab;
        if Head(h.mem, SlabFree(b)) == p then Fault(DoubleReturn)
        else
          var h1 := ReturnBlock(h, k, work, p);
          Ok(if h1.slabs[b].freeBlocks == h1.slabs[b].total then ReleaseSlab(h1, k, b) else h1)
  }

  /** `DrainPendingReturns` at the end of `ProcessBatchLocked`: take the queue. */
  function StepDrain(h: Heap, t: nat, c: nat, a: nat, flushing: bool): (o: Outcome)
    ensures o.Ok? ==> o.heap.live == h.live && o.heap.slabs == h.slabs && o.heap.partial == h.partial && Alone(h, o.heap, t)
    ensures o.Ok? ==> Serves(h, o.heap, t, -1)
  {
    Ok(Goto(h, t, Fold(a, c, ToRelease(c, a, flushing)))
       .(mem := Move(h.mem, Pending(a, c), Local(t, Work))))
  }

  // ----- The pending queues -------------------------------------------------

  function StepPushLoad(h: Heap, t: nat, r: Reg, tl: int, a: nat, c: nat, after: After): (o: Outcome)
    ensures o.Ok? ==> o.heap.live == h.live && o.heap.slabs == h.slabs && o.heap.partial == h.partial && Alone(h, o.heap, t)
    ensures o.Ok? ==> Serves(h, o.heap, t, AfterClass(after))
  {
    Ok(Goto(h, t, PushLink(r, tl, a, c, after, Head(h.mem, Pending(a, c)))))
  }

  function StepPushLink(h: Heap, t: nat, r: Reg, tl: int, a: nat, c: nat, after: After, seen: int): (o: Outcome)
    ensures o.Ok? ==> o.heap.live == h.live && o.heap.slabs == h.slabs && o.heap.partial == h.partial && Alone(h, o.heap, t)
    ensures o.Ok? ==> Serves(h, o.heap, t, AfterClass(after))
  {
    if tl !in h.mem.next then Fault(Unmapped)
    else Ok(Goto(h, t, PushCas(r, tl, a, c, after, seen)).(mem := Relink(h.mem, tl, seen)))
  }

  /** A weak compare-and-swap: it may fail although the head is unchanged. */
  function StepPushCas(h: Heap, t: nat, r: Reg, tl: int, a: nat, c: nat, after: After, seen: int, spurious: bool): (o: Outcome)
    ensures o.Ok? ==> o.heap.live == h.live && o.heap.slabs == h.slabs && o.heap.partial == h.partial && Alone(h, o.heap, t)
    ensures o.Ok? ==> Serves(h, o.heap, t, AfterClass(after))
  {
    var q := Pending(a, c);
    if Head(h.mem, q) == seen && !spurious then
      Ok(Continue(h, t, Key(a, c), after).(mem := Splice(h.mem, Local(t, r), q)))
    else
      Ok(Goto(h, t, PushLink(r, tl, a, c, after, Head(h.mem, q))))
  }

  // ----- Refilling a bin ----------------------------------------------------

  function StepRefillLock(h: Heap, t: nat, c: nat, target: nat): (o: Outcome)
    ensures o.Ok? ==> o.heap.live == h.live && o.heap.slabs == h.slabs && o.heap.partial == h.partial && Alone(h, o.heap, t)
    ensures o.Ok? ==> Serves(h, o.heap, t, c)
  {
    var k := Key(Home(t), c);
    if k in h.locks then Ok(h) else Ok(Goto(Acquire(h, t, k), t, RefillSwap(c, target)))
  }

  function StepRefillSwap(h: Heap, t: nat, c: nat, target: nat): (o: Outcome)
    ensures o.Ok? ==> o.heap.live == h.live && o.heap.slabs == h.slabs && o.heap.partial == h.partial && Alone(h, o.heap, t)
    ensures o.Ok? ==> Serves(h, o.heap, t, c)
  {
    Ok(Goto(h, t, RefillCut(c, target)).(mem := Move(h.mem, Pending(Home(t), c), Local(t, Work))))
  }

  /** Feed the batch from the queue; re-park a short remainder, fold a long one into the slabs. */
  function StepRefillCut(h: Heap, t: nat, c: nat, target: nat): (o: Outcome)
    ensures o.Ok? ==> o.heap.live == h.live && o.heap.slabs == h.slabs && o.heap.partial == h.partial && Alone(h, o.heap, t)
    ensures o.Ok? ==> Serves(h, o.heap, t, c)
  {
    var work := Local(t, Work);
    var p := Head(h.mem, work);
    if p == 0 then Ok(Goto(h, t, Steal(c, target, 0, 1)))
    else if !Plausible(p) then Fault(WildLink)
    else
      match FeedWalk(h.mem.next, p, target, 1)
      case Bad(g) => Fault(g)
      case Stop(q, n) =>
        if q !in h.mem.next then Fault(Unmapped)
        else
          var rest := h.mem.next[q];
          var h1 := h.(mem := Cut(h.mem, work, Local(t, Result), q));
          if rest == 0 then Ok(Goto(h1, t, Steal(c, target, n, 1)))
          else if !Plausible(rest) then Fault(WildLink)
          else
            match FeedWalk(h1.mem.next, rest, 64, 1)
            case Bad(g) => Fault(g)
            case Stop(tl, _) =>
              if tl !in h1.mem.next then Fault(Unmapped)
              else if h1.mem.next[tl] == 0
              then Ok(Goto(h1, t, PushLoad(Work, tl, Home(t), c, ToSteal(c, target, n))))
              else Ok(Goto(h1, t, Fold(Home(t), c, ToSteal(c, target, n))))
  }

  /** Look at the next foreign arena; a busy one is skipped. */
  function StepSteal(h: Heap, t: nat, c: nat, target: nat, got: nat, off: nat): (o: Outcome)
    ensures o.Ok? ==> o.heap.live == h.live && o.heap.slabs == h.slabs && o.heap.partial == h.partial && Alone(h, o.heap, t)
    ensures o.Ok? ==> Serves(h, o.heap, t, c)
  {
    var k := Key(Victim(t, off), c);
    if got >= target || off >= NUM_ARENAS then Ok(Goto(h, t, Extract(c, target, got)))
    else if k in h.locks then Ok(Goto(h, t, Steal(c, target, got, off + 1)))
    else Ok(Goto(Acquire(h, t, k), t, StealSwap(c, target, got, off)))
  }

  function StepStealSwap(h: Heap, t: nat, c: nat, target: nat, got: nat, off: nat): (o: Outcome)
    ensures o.Ok? ==> o.heap.live == h.live && o.heap.slabs == h.slabs && o.heap.partial == h.partial && Alone(h, o.heap, t)
    ensures o.Ok? ==> Serves(h, o.heap, t, c)
  {
    Ok(Goto(h, t, StealCut(c, target, got, off)).(mem := Move(h.mem, Pending(Victim(t, off), c), Local(t, Work))))
  }

  /** Append what is needed of the stolen list to the batch and fold the rest into its slabs. */
  function StepStealCut(h: Heap, t: nat, c: nat, target: nat, got: nat, off: nat): (o: Outcome)
    ensures o.Ok? ==> o.heap.live == h.live && o.heap.slabs == h.slabs && o.heap.partial == h.partial && Alone(h, o.heap, t)
    ensures o.Ok? ==> Serves(h, o.heap, t, c)
  {
    var work, result, feed := Local(t, Work), Local(t, Result), Local(t, Feed);
    var p := Head(h.mem, work);
    var k := Key(Victim(t, off), c);
    if p == 0 then Ok(Goto(Release(h, k), t, Steal(c, target, got, off + 1)))
    else if !Plausible(p) then Fault(WildLink)
    else
      match FeedWalk(h.mem.next, p, if got < target then target - got else 0, 1)
      case Bad(g) => Fault(g)
      case Stop(q, n) =>
        if q !in h.mem.next then Fault(Unmapped)
        else if h.mem.next[q] != 0 && !Plausible(h.mem.next[q]) then Fault(WildLink)
        else
          var m1 := Cut(h.mem, work, feed, q);
          if Head(h.mem, result) == 0 then
            Ok(Goto(h, t, Fold(Victim(t, off), c, ToStealRelease(c, target, n, off))).(mem := Move(m1, feed, result)))
          else
            match FeedWalk(m1.next, Head(m1, result), |m1.next|, 1)
            case Bad(g) => Fault(g)
            case Stop(tl, _) =>
              if tl !in m1.next then Fault(Unmapped)
              else if m1.next[tl] != 0 then Fault(Endless)
              else Ok(Goto(h, t, Fold(Victim(t, off), c, ToStealRelease(c, target, got + n, off)))
                      .(mem := Move(Splice(Relink(m1, tl, Head(m1, feed)), result, feed), feed, result)))
  }

  /** Nothing was fed or stolen and the arena has no partial slab of the class: a new slab is made. */
  predicate WantsSlab(h: Heap, t: nat, c: nat) {
    Head(h.mem, Local(t, Result)) == 0 && In(h.partial, Key(Home(t), c)) == [] && c < NUM_SIZE_CLASSES
  }

  /** Use what was fed or stolen; otherwise take a partial slab or a new one.
      `span` is the base of the span the page heap hands out, or 0 on failure. */
  function StepExtract(h: Heap, t: nat, c: nat, target: nat, got: nat, span: int): (o: Outcome)
    ensures o.Ok? ==> o.heap.live == h.live && h.slabs.Keys <= o.heap.slabs.Keys && Alone(h, o.heap, t)
    ensures o.Ok? ==> PartialBut(h, o.heap, Key(Home(t), c)) && (span !in h.slabs ==> SameClasses(h, o.heap))
    ensures o.Ok? ==> o.heap.slabs.Keys <= h.slabs.Keys + {span}
    ensures o.Ok? && span !in h.slabs && span in o.heap.slabs ==> o.heap.slabs[span].cls == c && span != 0
    ensures o.Ok? && WantsSlab(h, t, c) && span != 0 ==> span in o.heap.slabs
    ensures o.Ok? ==> Serves(h, o.heap, t, c)
  {
    var k := Key(Home(t), c);
    if Head(h.mem, Local(t, Result)) != 0 then Ok(Goto(Release(h, k), t, Finish(c, got)))
    else if |In(h.partial, k)| > 0 then Ok(Goto(h, t, ExtractFrom(c, target, got, In(h.partial, k)[0], 0)))
    else if span == 0 || c >= NUM_SIZE_CLASSES then Ok(Goto(Release(h, k), t, Finish(c, got)))
    else
      var slab := Slab(Home(t), c, SlabBlocks(c), SlabBlocks(c), 0);
      Ok(Goto(h, t, ExtractFrom(c, target, got, span, 0))
         .(slabs := h.slabs[span := slab], partial := h.partial[k := [span] + In(h.partial, k)]))
  }

  /** The slab with one block fewer, taken from its free list or carved. */
  function OneTaken(slab: Slab): Slab {
    slab.(freeBlocks := slab.freeBlocks - 1)
  }

  function OneCarved(slab: Slab): Slab {
    slab.(freeBlocks := slab.freeBlocks - 1, nextNew := slab.nextNew + 1)
  }

  function TakeFree(h: Heap, b: int): (h': Heap)
    requires b in h.slabs && Head(h.mem, SlabFree(b)) in h.mem.next
    ensures h'.live == h.live && h'.slabs.Keys == h.slabs.Keys && SameClasses(h, h')
    ensures h'.pcs == h.pcs && h'.ramp == h.ramp && h'.partial == h.partial
  {
    h.(mem := Pop(h.mem, SlabFree(b)), slabs := h.slabs[b := OneTaken(h.slabs[b])])
  }

  /** The next virgin block, whose link word still holds `junk`. */
  function Carve(h: Heap, b: int, junk: int): (h': Heap)
    requires b in h.slabs
    ensures h'.live == h.live && h'.slabs.Keys == h.slabs.Keys && SameClasses(h, h')
    ensures h'.pcs == h.pcs && h'.ramp == h.ramp && h'.partial == h.partial
  {
    var y := BlockAt(b, h.slabs[b].cls, h.slabs[b].nextNew);
    h.(mem := Mem(h.mem.next[y := junk], h.mem.head), hdr := h.hdr[y := Header(b, h.slabs[b].cls)],
       slabs := h.slabs[b := OneCarved(h.slabs[b])])
  }

  /** `Slab::Allocate`: pop the slab's free list, or carve the next virgin block. */
  function SlabAllocate(h: Heap, b: int, junk: int): (r: (Heap, int))
    requires b in h.slabs
    ensures r.0.live == h.live && r.0.slabs.Keys == h.slabs.Keys && SameClasses(h, r.0)
    ensures r.0.pcs == h.pcs && r.0.ramp == h.ramp && r.0.partial == h.partial
  {
    var p := Head(h.mem, SlabFree(b));
    if p != 0 && p in h.mem.next then (TakeFree(h, b), p)
    else if p == 0 && h.slabs[b].nextNew < h.slabs[b].total then
      (Carve(h, b, junk), BlockAt(b, h.slabs[b].cls, h.slabs[b].nextNew))
    else (h, 0)
  }

  /** `ExtractBlocksFromSlab`: append one block to the batch, or finish it. */
  function StepExtractFrom(h: Heap, t: nat, c: nat, target: nat, got: nat, b: int, tl: int, junk: int): (o: Outcome)
    ensures o.Ok? ==> o.heap.live == h.live && h.slabs.Keys <= o.heap.slabs.Keys && Alone(h, o.heap, t) && SameClasses(h, o.heap)
    ensures o.Ok? ==> PartialBut(h, o.heap, Key(Home(t), c))
    ensures o.Ok? ==> o.heap.slabs.Keys == h.slabs.Keys
    ensures o.Ok? ==> Serves(h, o.heap, t, c)
  {
    var k := Key(Home(t), c);
    var result := Local(t, Result);
    if b !in h.slabs then Fault(Unmapped)
    else if got < target && h.slabs[b].freeBlocks != 0 then
      var (h1, y) := SlabAllocate(h, b, junk);
      if !Plausible(y) then Fault(WildLink)
      else Ok(Goto(h1, t, ExtractFrom(c, target, got + 1, b, y)).(mem := Append(h1.mem, result, tl, y)))
    else
      var h1 := if h.slabs[b].freeBlocks == 0
                then h.(partial := h.partial[k := Without(In(h.partial, k), b)], full := h.full[k := [b] + In(h.full, k)])
                else h;
      Ok(Goto(Release(h1, k), t, Finish(c, got)).(mem := if tl == 0 then h.mem else Relink(h.mem, tl, 0)))
  }

  /** The tail of `AllocateBlockSlow`: the first block goes to the client, the rest into the bin. */
  function StepFinish(h: Heap, t: nat, c: nat, got: nat): (o: Outcome)
    ensures o.Ok? ==> o.heap.slabs == h.slabs && o.heap.partial == h.partial && Alone(h, o.heap, t)
    ensures o.Ok? ==> Serves(h, o.heap, t, c)
  {
    var result, bin := Local(t, Result), Bin(t, c);
    var p := Head(h.mem, result);
    if p == 0 then Ok(Goto(h, t, Idle))
    else if !Plausible(p) then Fault(WildLink)
    else if p !in h.mem.next then Fault(Unmapped)
    else if h.mem.next[p] != 0 && !Plausible(h.mem.next[p]) then Fault(WildLink)
    else Ok(Goto(h, t, Idle).(mem := Move(Pop(h.mem, result), result, bin),
                              count := h.count[bin := got - 1], live := h.live + {p}))
  }

  // ----- Purging the pending queues -----------------------------------------

  function StepPurgeLock(h: Heap, t: nat, c: nat, a: nat): (o: Outcome)
    ensures o.Ok? ==> o.heap.live == h.live && o.heap.slabs == h.slabs && o.heap.partial == h.partial && Alone(h, o.heap, t)
    ensures o.Ok? ==> Serves(h, o.heap, t, -1)
  {
    if a >= NUM_ARENAS then Ok(Goto(h, t, Idle))
    else if Key(a, c) in h.locks then Ok(h)
    else Ok(Goto(Acquire(h, t, Key(a, c)), t, PurgeSwap(c, a)))
  }

  function StepPurgeSwap(h: Heap, t: nat, c: nat, a: nat): (o: Outcome)
    ensures o.Ok? ==> o.heap.live == h.live && o.heap.slabs == h.slabs && o.heap.partial == h.partial && Alone(h, o.heap, t)
    ensures o.Ok? ==> Serves(h, o.heap, t, -1)
  {
    Ok(Goto(h, t, Fold(a, c, ToPurge(c, a))).(mem := Move(h.mem, Pending(a, c), Local(t, Work))))
  }

  // ----- Runs ---------------------------------------------------------------

  /** What the environment decides in a step: whether a weak compare-and-swap
      fails for no reason, the span the page heap hands out, and the bits
      found in a virgin block. */
  datatype Choice = Choice(spurious: bool, span: int, junk: int)

  function StepThread(h: Heap, t: nat, ch: Choice): (o: Outcome)
    ensures o.Ok? && !PcOf(h, t).Finish? ==> o.heap.live == h.live
    ensures o.Ok? && !PcOf(h, t).Fold? ==> h.slabs.Keys <= o.heap.slabs.Keys
  {
    match PcOf(h, t)
    case Idle => Ok(h)
    case RefillLock(c, target) => StepRefillLock(h, t, c, target)
    case RefillSwap(c, target) => StepRefillSwap(h, t, c, target)
    case RefillCut(c, target) => StepRefillCut(h, t, c, target)
    case Steal(c, target, got, off) => StepSteal(h, t, c, target, got, off)
    case StealSwap(c, target, got, off) => StepStealSwap(h, t, c, target, got, off)
    case StealCut(c, target, got, off) => StepStealCut(h, t, c, target, got, off)
    case Extract(c, target, got) => StepExtract(h, t, c, target, got, ch.span)
    case ExtractFrom(c, target, got, b, tl) => StepExtractFrom(h, t, c, target, got, b, tl, ch.junk)
    case Finish(c, got) => StepFinish(h, t, c, got)
    case Fold(a, c, after) => StepFold(h, t, a, c, after)
    case PushLoad(r, tl, a, c, after) => StepPushLoad(h, t, r, tl, a, c, after)
    case PushLink(r, tl, a, c, after, seen) => StepPushLink(h, t, r, tl, a, c, after, seen)
    case PushCas(r, tl, a, c, after, seen) => StepPushCas(h, t, r, tl, a, c, after, seen, ch.spurious)
    case Overflow(c) => StepOverflow(h, t, c)
    case Split(c, defer, flushing) => StepSplit(h, t, c, defer, flushing)
    case Return(c, i, defer, flushing) => StepReturn(h, t, c, i, defer, flushing)
    case Drain(c, a, flushing) => StepDrain(h, t, c, a, flushing)
    case Flush(c) => StepFlush(h, t, c)
    case PurgeLock(c, a) => StepPurgeLock(h, t, c, a)
    case PurgeSwap(c, a) => StepPurgeSwap(h, t, c, a)
  }

  datatype Action =
    | DoMalloc(t: nat, size: nat)
    | DoFree(t: nat, block: int)
    | DoWrite(block: int, value: int)
    | DoFlush(t: nat)
    | DoPurge(t: nat)
    | DoStep(t: nat, choice: Choice)

  /** A span of the page heap: page aligned, inside user space, and disjoint
      from every span a slab lives in. */
  ghost predicate FreshSpan(h: Heap, span: int, bytes: nat) {
    && span % PAGE_SIZE == 0 && MIN_USER_PTR <= span && span + bytes <= MAX_USER_PTR
    && forall b :: b in h.slabs ==> span + bytes <= b || b + SlabBytes(h.slabs[b].cls) <= span
  }

  /** What a well-behaved client and the page heap may do: call with a small
      size from a thread that is not inside the allocator, free a block it owns
      and write its own bytes; hand out fresh spans only. */
  ghost predicate Enabled(h: Heap, act: Action) {
    match act
    case DoMalloc(t, size) => PcOf(h, t).Idle? && 1 <= size <= MAX_SMALL_REQUEST
    case DoFree(t, y) => PcOf(h, t).Idle? && y in h.live
    case DoWrite(y, value) => y in h.live
    case DoFlush(t) => PcOf(h, t).Idle?
    case DoPurge(t) => PcOf(h, t).Idle?
    case DoStep(t, ch) =>
      PcOf(h, t).Extract? && ch.span != 0 ==> FreshSpan(h, ch.span, SlabBytes(PcOf(h, t).cls))
  }

  function Apply(h: Heap, act: Action): Outcome {
    match act
    case DoMalloc(t, size) => Malloc(h, t, RequestToClass(size))
    case DoFree(t, y) => Free(h, t, y)
    case DoWrite(y, value) => UserWrite(h, y, value)
    case DoFlush(t) => Ok(Goto(h, t, Flush(0)))
    case DoPurge(t) => Ok(Goto(h, t, PurgeLock(0, 0)))
    case DoStep(t, ch) => StepThread(h, t, ch)
  }

  /** `acts` is a run from `h`: each action is allowed where it happens, up to the first fault. */
  ghost predicate IsRun(h: Heap, acts: seq<Action>)
    decreases |acts|
  {
    |acts| > 0 ==>
      && Enabled(h, acts[0])
      && (Apply(h, acts[0]).Ok? ==> IsRun(Apply(h, acts[0]).heap, acts[1..]))
  }

  function Run(h: Heap, acts: seq<Action>): Outcome
    decreases |acts|
  {
    if |acts| == 0 then Ok(h)
    else match Apply(h, acts[0])
      case Fault(g) => Fault(g)
      case Ok(h') => Run(h', acts[1..])
  }
}
