/** The steps of the client: allocate from a bin, free into a bin, write. */
module HeapClient {
  import opened Config
  import opened Links
  import opened Heap
  import opened HeapInvariant
  import opened HeapFrames
  import opened HeapCore

  lemma PopBinThread(t: nat, v: View, tails: map<ListId, int>, count: map<ListId, int>, keys: map<int, Key>, c: nat)
    requires ThreadOk(Idle, t, v, tails, count, keys) && |Items(v, Bin(t, c))| > 0
    ensures ThreadOk(Idle, t, VPop(v, Bin(t, c)), tails,
                     count[Bin(t, c) := At(count, Bin(t, c)) - 1], keys)
  {
    var v', count' := VPop(v, Bin(t, c)), count[Bin(t, c) := At(count, Bin(t, c)) - 1];
    forall d ensures BinOk(Idle, t, v', count', d) {
      assert BinOk(Idle, t, v, count, d);
    }
  }

  lemma PopBinOthers(h: Heap, v: View, h': Heap, t: nat, c: nat)
    requires |Items(v, Bin(t, c))| > 0
    requires h'.tails == h.tails && h'.pcs == h.pcs
    requires h'.count == h.count[Bin(t, c) := At(h.count, Bin(t, c)) - 1]
    ensures OthersKept(h, v, h', VPop(v, Bin(t, c)), t)
  {
  }

  lemma MallocHit(h: Heap, v: View, t: nat, c: nat)
    requires Inv(h, v) && PcOf(h, t) == Idle && |Items(v, Bin(t, c))| > 0
    ensures Malloc(h, t, c).Ok? && Inv(Malloc(h, t, c).heap, VPop(v, Bin(t, c)))
    ensures Malloc(h, t, c).heap.live == h.live + {Head(h.mem, Bin(t, c))}
    ensures Head(h.mem, Bin(t, c)) !in h.live
  {
    hide Inv, Core, Threads, ThreadOk, KeyMap, Separate, LocksOk, SlabLists, OthersKept, VPop, Chain;
    var bin := Bin(t, c);
    InvParts(h, v);
    ThreadPart(h, v, t);
    ListBlocks(h.mem, h.hdr, h.slabs, h.live, v, bin);
    PopCore(h.mem, h.hdr, h.slabs, h.live, v, bin);
    assert Items(v, bin)[0] in Items(v, bin);
    var h' := Malloc(h, t, c).heap;
    PopBinThread(t, v, h.tails, h.count, KeyMap(h.hdr, h.slabs), c);
    assert h'.count == h.count[bin := At(h.count, bin) - 1];
    PopBinOthers(h, v, h', t, c);
    PrivateStep(h, v, h', VPop(v, bin), t);
  }

  // ----- A miss -------------------------------------------------------------

  lemma MallocMiss(h: Heap, v: View, t: nat, c: nat)
    requires Inv(h, v) && PcOf(h, t) == Idle && |Items(v, Bin(t, c))| == 0 && c < NUM_SIZE_CLASSES
    ensures Malloc(h, t, c).Ok? && Inv(Malloc(h, t, c).heap, v)
    ensures Malloc(h, t, c).heap.live == h.live
  {
    hide Inv, Core, Threads, ThreadOk, KeyMap, Separate, LocksOk, SlabLists, Chain, OthersKept, LocksKept;
    var bin := Bin(t, c);
    InvParts(h, v);
    ThreadPart(h, v, t);
    ListBlocks(h.mem, h.hdr, h.slabs, h.live, v, bin);
    EndsAt(h.mem, h.hdr, h.slabs, h.live, v, bin);
    var pc := RefillLock(c, RefillTarget(c, Ramp(h, bin)));
    var h' := Malloc(h, t, c).heap;
    Retarget(Idle, pc, t, v, h.tails, h.count, KeyMap(h.hdr, h.slabs));
    LocksSame(h.locks, h.pcs, t, pc);
    LocksKeptBy(h.locks, t, Key(0, 0));
    GotoOthers(h, v, h', t);
    PrivateStep(h, v, h', v, t);
  }

  // ----- A free -------------------------------------------------------------

  lemma FreeThread(t: nat, v: View, tails: map<ListId, int>, count: map<ListId, int>, keys: map<int, Key>, c: nat, y: int)
    requires ThreadOk(Idle, t, v, tails, count, keys) && c < NUM_SIZE_CLASSES
    ensures var n := At(count, Bin(t, c)) + 1;
            ThreadOk(if n >= CacheLimit(c) then Overflow(c) else Idle, t, VPush(v, Bin(t, c), y), tails,
                     count[Bin(t, c) := n], keys)
  {
    var n := At(count, Bin(t, c)) + 1;
    var pc := if n >= CacheLimit(c) then Overflow(c) else Idle;
    var v', count' := VPush(v, Bin(t, c), y), count[Bin(t, c) := n];
    forall d ensures BinOk(pc, t, v', count', d) {
      assert BinOk(Idle, t, v, count, d);
    }
  }

  lemma FreeOthers(h: Heap, v: View, h': Heap, t: nat, c: nat, y: int)
    requires h'.tails == h.tails && h'.pcs == h.pcs[t := PcIn(h'.pcs, t)]
    requires h'.count == h.count[Bin(t, c) := At(h.count, Bin(t, c)) + 1]
    ensures OthersKept(h, v, h', VPush(v, Bin(t, c), y), t)
  {
  }

  /** A free finds a plausible block that is not the head of the bin, and pushes it. */
  lemma FreeEffect(h: Heap, v: View, t: nat, y: int)
    requires Core(h.mem, h.hdr, h.slabs, h.live, v) && y in h.live
    ensures y in h.hdr && h.hdr[y].cls < NUM_SIZE_CLASSES
    ensures var c := h.hdr[y].cls;
            var bin, n := Bin(t, c), At(h.count, Bin(t, c)) + 1;
            var pc := if n >= CacheLimit(c) then Overflow(c) else Idle;
            && Core(Push(h.mem, bin, y), h.hdr, h.slabs, h.live - {y}, VPush(v, bin, y))
            && Free(h, t, y) == Ok(Goto(h, t, pc).(mem := Push(h.mem, bin, y), count := h.count[bin := n], live := h.live - {y}))
  {
    hide Core, VPush, Push, BlockOk, CacheLimit;
    LiveBlock(h.mem, h.hdr, h.slabs, h.live, v, y);
    var bin := Bin(t, h.hdr[y].cls);
    EndsAt(h.mem, h.hdr, h.slabs, h.live, v, bin);
    NotOnList(h.mem, h.hdr, h.slabs, h.live, v, bin, y);
    PushCore(h.mem, h.hdr, h.slabs, h.live, v, bin, y);
  }

  lemma FreeInv(h: Heap, v: View, t: nat, y: int)
    requires Inv(h, v) && PcOf(h, t) == Idle && y in h.live
    ensures y in h.hdr && Free(h, t, y).Ok? && Inv(Free(h, t, y).heap, VPush(v, Bin(t, h.hdr[y].cls), y))
    ensures Free(h, t, y).heap.live == h.live - {y}
  {
    hide Inv, Core, Threads, ThreadOk, KeyMap, Separate, LocksOk, SlabLists, OthersKept, LocksKept, VPush, Push, Free, CacheLimit;
    InvParts(h, v);
    ThreadPart(h, v, t);
    FreeEffect(h, v, t, y);
    var c := h.hdr[y].cls;
    var h' := Free(h, t, y).heap;
    FreeThread(t, v, h.tails, h.count, KeyMap(h.hdr, h.slabs), c, y);
    FreeOthers(h, v, h', t, c, y);
    LocksSame(h.locks, h.pcs, t, PcIn(h'.pcs, t));
    LocksKeptBy(h.locks, t, Key(0, 0));
    PrivateStep(h, v, h', VPush(v, Bin(t, c), y), t);
  }

  // ----- A write ------------------------------------------------------------

  lemma WriteInv(h: Heap, v: View, y: int, value: int)
    requires Inv(h, v) && y in h.live
    ensures UserWrite(h, y, value).Ok? && Inv(UserWrite(h, y, value).heap, v)
  {
    hide Inv, Core, ThreadOk, KeyMap, Separate, LocksOk, SlabLists;
    InvParts(h, v);
    WriteCore(h.mem, h.hdr, h.slabs, h.live, v, y, value);
    InvIntro(UserWrite(h, y, value).heap, v);
  }
}
