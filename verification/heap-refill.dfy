/** The steps that refill a bin, flush a cache and purge the queues, without the slabs. */
module HeapRefill {
  import opened Config
  import opened Links
  import opened Heap
  import opened HeapInvariant
  import opened HeapFrames
  import opened HeapCore
  import opened HeapReturn

  // ----- Flush --------------------------------------------------------------

  lemma FlushThread(t: nat, v: View, tails: map<ListId, int>, count: map<ListId, int>, keys: map<int, Key>, c: nat, defer: bool)
    requires ThreadOk(Flush(c), t, v, tails, count, keys) && c < NUM_SIZE_CLASSES
    requires forall y {:trigger y in Items(v, Bin(t, c))} :: y in Items(v, Bin(t, c)) ==> y in keys && keys[y].cls == c
    ensures ThreadOk(Split(c, defer, true), t, VMove(v, Bin(t, c), Local(t, Work)), tails, count[Bin(t, c) := 0], keys)
  {
    hide VMove;
    var pc, pc', bin := Flush(c), Split(c, defer, true), Bin(t, c);
    var v' := VMove(v, bin, Local(t, Work));
    var count' := count[bin := 0];
    forall d ensures BinOk(pc', t, v', count', d) {
      assert BinOk(pc, t, v, count, d);
    }
    forall r, y {:trigger y in Items(v', Local(t, r))} | y in Items(v', Local(t, r))
      ensures y in keys && InReg(pc', t, r, keys[y])
    {
      assert r == Work;
      assert y in Items(v, bin);
    }
  }

  lemma FlushOthers(h: Heap, v: View, h': Heap, t: nat, c: nat)
    requires h'.tails == h.tails && h'.pcs == h.pcs[t := PcIn(h'.pcs, t)]
    requires h'.count == h.count[Bin(t, c) := 0]
    ensures OthersKept(h, v, h', VMove(v, Bin(t, c), Local(t, Work)), t)
    ensures OthersKept(h, v, h', v, t)
  {
  }

  lemma FlushComputes(h: Heap, t: nat, c: nat)
    requires c < NUM_SIZE_CLASSES && Head(h.mem, Bin(t, c)) != 0
    ensures var bin := Bin(t, c);
            StepFlush(h, t, c) == Ok(Goto(h, t, Split(c, At(h.count, bin) <= 64, true))
                                     .(mem := Move(h.mem, bin, Local(t, Work)), count := h.count[bin := 0],
                                       ramp := h.ramp[bin := 0]))
  {
  }

  lemma FlushTakes(h: Heap, v: View, t: nat, c: nat)
    requires Inv(h, v) && PcOf(h, t) == Flush(c) && c < NUM_SIZE_CLASSES && Head(h.mem, Bin(t, c)) != 0
    ensures StepFlush(h, t, c).Ok?
    ensures Inv(StepFlush(h, t, c).heap, VMove(v, Bin(t, c), Local(t, Work)))
  {
    hide Inv, Core, Threads, ThreadOk, KeyMap, Separate, LocksOk, SlabLists, OthersKept, LocksKept, VMove, StepFlush, Move;
    var bin, work, defer := Bin(t, c), Local(t, Work), At(h.count, Bin(t, c)) <= 64;
    FlushComputes(h, t, c);
    var h' := StepFlush(h, t, c).heap;
    InvParts(h, v);
    ThreadPart(h, v, t);
    RegsOf(PcOf(h, t), t, v, h.tails, h.count, KeyMap(h.hdr, h.slabs), Work);
    ListKeys(h.mem, h.hdr, h.slabs, h.live, v, bin);
    EndsAt(h.mem, h.hdr, h.slabs, h.live, v, bin);
    FlushThread(t, v, h.tails, h.count, KeyMap(h.hdr, h.slabs), c, defer);
    SwapCore(h, v, t, bin);
    LocksSame(h.locks, h.pcs, t, Split(c, defer, true));
    LocksKeptBy(h.locks, t, Key(0, 0));
    FlushOthers(h, v, h', t, c);
    PrivateStep(h, v, h', VMove(v, bin, work), t);
  }

  lemma FlushSkips(h: Heap, v: View, t: nat, c: nat)
    requires Inv(h, v) && PcOf(h, t) == Flush(c) && c < NUM_SIZE_CLASSES
    requires Items(v, Bin(t, c)) == [] && Head(h.mem, Bin(t, c)) == 0
    ensures StepFlush(h, t, c).Ok? && Inv(StepFlush(h, t, c).heap, v)
  {
    hide Inv, Core, Threads, ThreadOk, KeyMap, Separate, LocksOk, SlabLists, OthersKept, LocksKept, VMove;
    var h' := StepFlush(h, t, c).heap;
    InvParts(h, v);
    ThreadPart(h, v, t);
    FlushSkipThread(t, v, h.tails, h.count, KeyMap(h.hdr, h.slabs), c);
    LocksSame(h.locks, h.pcs, t, Flush(c + 1));
    LocksKeptBy(h.locks, t, Key(0, 0));
    FlushOthers(h, v, h', t, c);
    PrivateStep(h, v, h', v, t);
  }

  lemma FlushSkipThread(t: nat, v: View, tails: map<ListId, int>, count: map<ListId, int>, keys: map<int, Key>, c: nat)
    requires ThreadOk(Flush(c), t, v, tails, count, keys) && c < NUM_SIZE_CLASSES && Items(v, Bin(t, c)) == []
    ensures ThreadOk(Flush(c + 1), t, v, tails, count[Bin(t, c) := 0], keys)
  {
    var pc', count' := Flush(c + 1), count[Bin(t, c) := 0];
    forall d ensures BinOk(pc', t, v, count', d) {
      assert BinOk(Flush(c), t, v, count, d);
    }
  }

  lemma FlushEnds(h: Heap, v: View, t: nat, c: nat)
    requires Inv(h, v) && PcOf(h, t) == Flush(c) && c >= NUM_SIZE_CLASSES
    ensures StepFlush(h, t, c).Ok? && Inv(StepFlush(h, t, c).heap, v)
  {
    hide Inv;
    GotoInv(h, v, t, Idle);
  }

  lemma FlushInv(h: Heap, v: View, t: nat, c: nat) returns (v': View)
    requires Inv(h, v) && PcOf(h, t) == Flush(c)
    ensures StepFlush(h, t, c).Ok? && Inv(StepFlush(h, t, c).heap, v')
    ensures QueuesKept(v, v')
  {
    hide Inv, Core, Threads, Separate, LocksOk, SlabLists, VMove, StepFlush;
    var bin := Bin(t, c);
    v' := v;
    if c >= NUM_SIZE_CLASSES {
      FlushEnds(h, v, t, c);
    } else {
      InvParts(h, v);
      EndsAt(h.mem, h.hdr, h.slabs, h.live, v, bin);
      HeadNull(h, v, bin);
      if Items(v, bin) == [] {
        FlushSkips(h, v, t, c);
      } else {
        FlushTakes(h, v, t, c);
        v' := VMove(v, bin, Local(t, Work));
      }
    }
  }

  // ----- Taking queues over -------------------------------------------------

  lemma DrainInv(h: Heap, v: View, t: nat, c: nat, a: nat, flushing: bool)
    requires Inv(h, v) && PcOf(h, t) == Drain(c, a, flushing)
    ensures StepDrain(h, t, c, a, flushing).Ok?
    ensures Inv(StepDrain(h, t, c, a, flushing).heap, VMove(v, Pending(a, c), Local(t, Work)))
  {
    hide Inv;
    PcIsOk(h, v, t);
    SwapInv(h, v, t, a, c, Fold(a, c, ToRelease(c, a, flushing)));
  }

  lemma PurgeSwapInv(h: Heap, v: View, t: nat, c: nat, a: nat)
    requires Inv(h, v) && PcOf(h, t) == PurgeSwap(c, a)
    ensures StepPurgeSwap(h, t, c, a).Ok?
    ensures Inv(StepPurgeSwap(h, t, c, a).heap, VMove(v, Pending(a, c), Local(t, Work)))
  {
    hide Inv;
    PcIsOk(h, v, t);
    SwapInv(h, v, t, a, c, Fold(a, c, ToPurge(c, a)));
  }

  lemma RefillSwapInv(h: Heap, v: View, t: nat, c: nat, target: nat)
    requires Inv(h, v) && PcOf(h, t) == RefillSwap(c, target)
    ensures StepRefillSwap(h, t, c, target).Ok?
    ensures Inv(StepRefillSwap(h, t, c, target).heap, VMove(v, Pending(Home(t), c), Local(t, Work)))
  {
    hide Inv;
    PcIsOk(h, v, t);
    SwapInv(h, v, t, Home(t), c, RefillCut(c, target));
  }

  lemma StealSwapInv(h: Heap, v: View, t: nat, c: nat, target: nat, got: nat, off: nat)
    requires Inv(h, v) && PcOf(h, t) == StealSwap(c, target, got, off)
    ensures StepStealSwap(h, t, c, target, got, off).Ok?
    ensures Inv(StepStealSwap(h, t, c, target, got, off).heap, VMove(v, Pending(Victim(t, off), c), Local(t, Work)))
  {
    hide Inv, VMove;
    PcIsOk(h, v, t);
    SwapInv(h, v, t, Victim(t, off), c, StealCut(c, target, got, off));
  }

  // ----- Locks --------------------------------------------------------------

  lemma RefillLockInv(h: Heap, v: View, t: nat, c: nat, target: nat)
    requires Inv(h, v) && PcOf(h, t) == RefillLock(c, target)
    ensures StepRefillLock(h, t, c, target).Ok? && Inv(StepRefillLock(h, t, c, target).heap, v)
  {
    hide Inv;
    PcIsOk(h, v, t);
    if Key(Home(t), c) !in h.locks {
      AcquireInv(h, v, t, RefillSwap(c, target), Key(Home(t), c));
    }
  }

  lemma PurgeLockInv(h: Heap, v: View, t: nat, c: nat, a: nat)
    requires Inv(h, v) && PcOf(h, t) == PurgeLock(c, a)
    ensures StepPurgeLock(h, t, c, a).Ok? && Inv(StepPurgeLock(h, t, c, a).heap, v)
  {
    hide Inv;
    PcIsOk(h, v, t);
    if a >= NUM_ARENAS {
      GotoInv(h, v, t, Idle);
    } else if Key(a, c) !in h.locks {
      AcquireInv(h, v, t, PurgeSwap(c, a), Key(a, c));
    }
  }

  lemma StealInv(h: Heap, v: View, t: nat, c: nat, target: nat, got: nat, off: nat)
    requires Inv(h, v) && PcOf(h, t) == Steal(c, target, got, off)
    ensures StepSteal(h, t, c, target, got, off).Ok? && Inv(StepSteal(h, t, c, target, got, off).heap, v)
  {
    hide Inv;
    PcIsOk(h, v, t);
    if got >= target || off >= NUM_ARENAS {
      GotoInv(h, v, t, Extract(c, target, got));
    } else if Key(Victim(t, off), c) in h.locks {
      GotoInv(h, v, t, Steal(c, target, got, off + 1));
    } else {
      AcquireInv(h, v, t, StealSwap(c, target, got, off), Key(Victim(t, off), c));
    }
  }
}
