/** The steps that return a batch: overflow, split by arena, hand-over, flush and the pending push. */
module HeapReturn {
  import opened Config
  import opened Links
  import opened Heap
  import opened HeapInvariant
  import opened HeapFrames
  import opened HeapCore
  import opened HeapWalks

  // ----- Overflow -----------------------------------------------------------

  lemma OverflowThread(t: nat, v: View, tails: map<ListId, int>, count: map<ListId, int>, keys: map<int, Key>, c: nat)
    requires ThreadOk(Overflow(c), t, v, tails, count, keys)
    requires forall y {:trigger y in Items(v, Bin(t, c))} :: y in Items(v, Bin(t, c)) ==> y in keys && keys[y].cls == c
    ensures FlushBatch(c) <= |Items(v, Bin(t, c))| == At(count, Bin(t, c))
    ensures ThreadOk(Split(c, false, false), t, VCut(v, Bin(t, c), Local(t, Work), FlushBatch(c)), tails,
                     count[Bin(t, c) := At(count, Bin(t, c)) - FlushBatch(c)], keys)
  {
    hide VCut;
    var bin, work, n := Bin(t, c), Local(t, Work), FlushBatch(c);
    assert BinOk(Overflow(c), t, v, count, c);
    var pc := Split(c, false, false);
    var v', count' := VCut(v, bin, work, n), count[bin := At(count, bin) - n];
    forall d ensures BinOk(pc, t, v', count', d) {
      assert BinOk(Overflow(c), t, v, count, d);
    }
    forall r, y {:trigger y in Items(v', Local(t, r))} | y in Items(v', Local(t, r))
      ensures y in keys && InReg(pc, t, r, keys[y])
    {
      assert r == Work;
      assert y in Items(v, bin);
    }
  }

  lemma OverflowOthers(h: Heap, v: View, h': Heap, t: nat, c: nat, n: nat)
    requires n <= |Items(v, Bin(t, c))|
    requires h'.tails == h.tails && h'.pcs == h.pcs[t := PcIn(h'.pcs, t)]
    requires h'.count == h.count[Bin(t, c) := At(h'.count, Bin(t, c))]
    ensures OthersKept(h, v, h', VCut(v, Bin(t, c), Local(t, Work), n), t)
  {
  }

  /** The walk finds block number half-the-limit, so the bin never needs healing. */
  lemma OverflowEffect(h: Heap, v: View, t: nat, c: nat)
    requires Core(h.mem, h.hdr, h.slabs, h.live, v)
    requires 1 <= FlushBatch(c) <= |Items(v, Bin(t, c))|
    requires Items(v, Local(t, Work)) == [] && End(v, Local(t, Work)) == 0
    ensures var bin, n := Bin(t, c), FlushBatch(c);
            var q := Items(v, bin)[n - 1];
            && q in h.mem.next
            && Core(Cut(h.mem, bin, Local(t, Work), q), h.hdr, h.slabs, h.live, VCut(v, bin, Local(t, Work), n))
            && StepOverflow(h, t, c)
               == Ok(Goto(h, t, Split(c, false, false))
                     .(mem := Cut(h.mem, bin, Local(t, Work), q), count := h.count[bin := At(h.count, bin) - n]))
  {
    hide Core, Rep, VCut, FlushWalk, FlushBatch;
    var bin, n := Bin(t, c), FlushBatch(c);
    ListBlocks(h.mem, h.hdr, h.slabs, h.live, v, bin);
    EndsAt(h.mem, h.hdr, h.slabs, h.live, v, bin);
    FlushWalkStops(h.mem.next, Items(v, bin), 0, n);
    CutCore(h.mem, h.hdr, h.slabs, h.live, v, bin, Local(t, Work), n);
  }

  lemma OverflowInv(h: Heap, v: View, t: nat, c: nat)
    requires Inv(h, v) && PcOf(h, t) == Overflow(c)
    ensures FlushBatch(c) <= |Items(v, Bin(t, c))|
    ensures StepOverflow(h, t, c).Ok?
    ensures Inv(StepOverflow(h, t, c).heap, VCut(v, Bin(t, c), Local(t, Work), FlushBatch(c)))
  {
    hide Inv, Core, Rep, Threads, ThreadOk, KeyMap, Separate, LocksOk, SlabLists, OthersKept, LocksKept, VCut, StepOverflow, Cut;
    var bin, n := Bin(t, c), FlushBatch(c);
    InvParts(h, v);
    ThreadPart(h, v, t);
    ListKeys(h.mem, h.hdr, h.slabs, h.live, v, bin);
    OverflowThread(t, v, h.tails, h.count, KeyMap(h.hdr, h.slabs), c);
    RegsOf(Overflow(c), t, v, h.tails, h.count, KeyMap(h.hdr, h.slabs), Work);
    OverflowEffect(h, v, t, c);
    var h' := StepOverflow(h, t, c).heap;
    OverflowOthers(h, v, h', t, c, n);
    LocksSame(h.locks, h.pcs, t, Split(c, false, false));
    LocksKeptBy(h.locks, t, Key(0, 0));
    PrivateStep(h, v, h', VCut(v, bin, Local(t, Work), n), t);
  }

  // ----- Split by arena -----------------------------------------------------

  /** What the node tests of a loop find on a list of the thread. */
  lemma NodePasses(h: Heap, v: View, l: ListId)
    requires Core(h.mem, h.hdr, h.slabs, h.live, v) && |Items(v, l)| > 0 && End(v, l) == 0
    ensures var p := Head(h.mem, l);
            && p == Items(v, l)[0] && NodeGuard(h, p) == Stop(p, 1)
            && p in h.hdr && h.hdr[p].slab in h.slabs && p in h.mem.next
            && p in KeyMap(h.hdr, h.slabs) && p != 0 && h.slabs[h.hdr[p].slab].arena < NUM_ARENAS
            && KeyMap(h.hdr, h.slabs)[p] == Key(h.slabs[h.hdr[p].slab].arena, h.hdr[p].cls)
  {
    hide Core, KeyMap;
    ListBlocks(h.mem, h.hdr, h.slabs, h.live, v, l);
    var p := Items(v, l)[0];
    assert p in Items(v, l);
    SlabOfBlock(h.mem, h.hdr, h.slabs, h.live, v, p);
    if |Items(v, l)| > 1 { assert Items(v, l)[1] in Items(v, l); }
  }

  lemma SplitThread(t: nat, mem: Mem, v: View, tails: map<ListId, int>, count: map<ListId, int>, keys: map<int, Key>,
                    c: nat, defer: bool, flushing: bool)
    requires ThreadOk(Split(c, defer, flushing), t, v, tails, count, keys)
    requires |Items(v, Local(t, Work))| > 0 && Items(v, Local(t, Work))[0] in mem.next
    requires Items(v, Local(t, Work))[0] in keys && keys[Items(v, Local(t, Work))[0]].arena < NUM_ARENAS
    ensures var p := Items(v, Local(t, Work))[0];
            var out := Local(t, Out(keys[p].arena));
            ThreadOk(Split(c, defer, flushing), t, VShift(mem, v, Local(t, Work), out), tails[out := p], count, keys)
  {
    hide VShift;
    var work, p := Local(t, Work), Items(v, Local(t, Work))[0];
    var out := Local(t, Out(keys[p].arena));
    var v', pc := VShift(mem, v, work, out), Split(c, defer, flushing);
    assert p in Items(v, work);
    forall d ensures BinOk(pc, t, v', count, d) {
      assert BinOk(pc, t, v, count, d);
    }
    forall r, y {:trigger y in Items(v', Local(t, r))} | y in Items(v', Local(t, r))
      ensures y in keys && InReg(pc, t, r, keys[y])
    {
      assert y == p || y in Items(v, Local(t, r));
    }
    forall r: Reg {:trigger Items(v', Local(t, r))} | r.Out? && |Items(v', Local(t, r))| > 0
      ensures At(tails[out := p], Local(t, r)) == Last(Items(v', Local(t, r)))
    {
      assert Local(t, r) == out || At(tails, Local(t, r)) == Last(Items(v, Local(t, r)));
    }
    forall r {:trigger Items(v', Local(t, r))} | !Uses(pc, r) ensures Items(v', Local(t, r)) == [] {
      assert Items(v, Local(t, r)) == [];
    }
    forall r {:trigger End(v', Local(t, r))} | !Floating(pc, r) ensures End(v', Local(t, r)) == 0 {
      assert End(v, Local(t, r)) == 0;
    }
  }

  lemma SplitOthers(h: Heap, v: View, h': Heap, t: nat, out: Reg)
    requires |Items(v, Local(t, Work))| > 0 && Items(v, Local(t, Work))[0] in h.mem.next && out != Work
    requires h'.pcs == h.pcs && h'.count == h.count
    requires h'.tails == h.tails[Local(t, out) := At(h'.tails, Local(t, out))]
    ensures OthersKept(h, v, h', VShift(h.mem, v, Local(t, Work), Local(t, out)), t)
  {
    hide VShift;
  }

  /** The step moves the first block of the batch behind the last one of its arena. */
  lemma SplitEffect(h: Heap, v: View, t: nat, c: nat, defer: bool, flushing: bool)
    requires Core(h.mem, h.hdr, h.slabs, h.live, v)
    requires ThreadOk(Split(c, defer, flushing), t, v, h.tails, h.count, KeyMap(h.hdr, h.slabs))
    requires |Items(v, Local(t, Work))| > 0
    ensures var p := Items(v, Local(t, Work))[0];
            && p in KeyMap(h.hdr, h.slabs) && KeyMap(h.hdr, h.slabs)[p].arena < NUM_ARENAS
            && Head(h.mem, Local(t, Work)) == p && p in h.mem.next
            && var out := Local(t, Out(KeyMap(h.hdr, h.slabs)[p].arena));
               var mem' := Shift(h.mem, Local(t, Work), out, Last(Items(v, out)));
               && Core(mem', h.hdr, h.slabs, h.live, VShift(h.mem, v, Local(t, Work), out))
               && StepSplit(h, t, c, defer, flushing) == Ok(h.(mem := mem', tails := h.tails[out := p]))
  {
    hide Core, ThreadOk, KeyMap, NodeGuard, VShift;
    var pc, work, keys := Split(c, defer, flushing), Local(t, Work), KeyMap(h.hdr, h.slabs);
    RegsOf(pc, t, v, h.tails, h.count, keys, Work);
    NodePasses(h, v, work);
    var out := Out(keys[Items(v, work)[0]].arena);
    RegsOf(pc, t, v, h.tails, h.count, keys, out);
    TailOf(h, v, Local(t, out));
    ShiftCore(h.mem, h.hdr, h.slabs, h.live, v, work, Local(t, out));
  }

  lemma SplitOne(h: Heap, v: View, t: nat, c: nat, defer: bool, flushing: bool) returns (v': View)
    requires Inv(h, v) && PcOf(h, t) == Split(c, defer, flushing) && |Items(v, Local(t, Work))| > 0
    ensures StepSplit(h, t, c, defer, flushing).Ok?
    ensures Inv(StepSplit(h, t, c, defer, flushing).heap, v')
    ensures QueuesKept(v, v')
  {
    hide Inv, Core, Rep, Threads, ThreadOk, KeyMap, Separate, LocksOk, SlabLists, OthersKept, VShift, StepSplit, Shift;
    InvParts(h, v);
    ThreadPart(h, v, t);
    SplitEffect(h, v, t, c, defer, flushing);
    var p := Items(v, Local(t, Work))[0];
    var out := Out(KeyMap(h.hdr, h.slabs)[p].arena);
    var h' := StepSplit(h, t, c, defer, flushing).heap;
    v' := VShift(h.mem, v, Local(t, Work), Local(t, out));
    SplitThread(t, h.mem, v, h.tails, h.count, KeyMap(h.hdr, h.slabs), c, defer, flushing);
    SplitOthers(h, v, h', t, out);
    PrivateStep(h, v, h', v', t);
  }

  /** The tail the code uses: the recorded one, or none for an empty list. */
  lemma TailOf(h: Heap, v: View, l: ListId)
    requires Core(h.mem, h.hdr, h.slabs, h.live, v) && End(v, l) == 0
    requires |Items(v, l)| > 0 ==> At(h.tails, l) == Last(Items(v, l))
    ensures (if Head(h.mem, l) == 0 then 0 else At(h.tails, l)) == Last(Items(v, l))
  {
    ListBlocks(h.mem, h.hdr, h.slabs, h.live, v, l);
  }

  lemma SplitInv(h: Heap, v: View, t: nat, c: nat, defer: bool, flushing: bool) returns (v': View)
    requires Inv(h, v) && PcOf(h, t) == Split(c, defer, flushing)
    ensures StepSplit(h, t, c, defer, flushing).Ok?
    ensures Inv(StepSplit(h, t, c, defer, flushing).heap, v')
    ensures QueuesKept(v, v')
  {
    if |Items(v, Local(t, Work))| > 0 {
      v' := SplitOne(h, v, t, c, defer, flushing);
    } else {
      hide Inv, Core, Rep, Threads, ThreadOk, KeyMap, NodeGuard;
      InvParts(h, v);
      ThreadPart(h, v, t);
      RegsOf(PcOf(h, t), t, v, h.tails, h.count, KeyMap(h.hdr, h.slabs), Work);
      CoreRep(h.mem, h.hdr, h.slabs, h.live, v);
      HeadIsFirst(h.mem, v, Local(t, Work));
      SplitDone(h, v, t, c, defer, flushing);
      v' := v;
    }
  }

  lemma FirstMapped(mem: Mem, v: View, l: ListId)
    requires Rep(mem, v) && |Items(v, l)| > 0
    ensures Items(v, l)[0] in mem.next && Items(v, l)[0] != 0
  {
    assert Chain(mem.next, Head(mem, l), Items(v, l), End(v, l));
  }

  lemma SplitDone(h: Heap, v: View, t: nat, c: nat, defer: bool, flushing: bool)
    requires Inv(h, v) && PcOf(h, t) == Split(c, defer, flushing) && Items(v, Local(t, Work)) == []
    ensures Inv(Goto(h, t, Return(c, 0, defer, flushing)), v)
  {
    hide Inv;
    PcIsOk(h, v, t);
    GotoInv(h, v, t, Return(c, 0, defer, flushing));
  }

  lemma PcIsOk(h: Heap, v: View, t: nat)
    requires Inv(h, v)
    ensures PcOk(PcOf(h, t), t) && Locals(PcOf(h, t), t, v)
    ensures forall r :: !Floating(PcOf(h, t), r) ==> End(v, Local(t, r)) == 0
    ensures forall r :: !Uses(PcOf(h, t), r) ==> Items(v, Local(t, r)) == []
    ensures forall c :: Refills(PcOf(h, t), c) ==> Items(v, Bin(t, c)) == []
  {
    hide Core, LocksOk, SlabLists, KeyMap;
    ThreadPart(h, v, t);
    forall c | Refills(PcOf(h, t), c) ensures Items(v, Bin(t, c)) == [] {
      assert BinOk(PcOf(h, t), t, v, h.count, c);
    }
  }

  // ----- Taking a pending queue over ----------------------------------------

  lemma SwapThread(pc: Pc, pc': Pc, t: nat, v: View, tails: map<ListId, int>, count: map<ListId, int>, keys: map<int, Key>,
                   a: nat, c: nat)
    requires ThreadOk(pc, t, v, tails, count, keys) && !Uses(pc, Work)
    requires PcOk(pc', t) && Uses(pc', Work) && !pc.Overflow? && !pc'.Overflow?
    requires forall r {:trigger Uses(pc', r)} :: Uses(pc, r) ==> Uses(pc', r) && !Floating(pc, r)
    requires forall r, k {:trigger InReg(pc', t, r, k)} :: InReg(pc, t, r, k) && Uses(pc, r) ==> InReg(pc', t, r, k)
    requires InReg(pc', t, Work, Key(a, c))
    requires forall y {:trigger y in Items(v, Pending(a, c))} :: y in Items(v, Pending(a, c)) ==> y in keys && keys[y] == Key(a, c)
    requires Locals(pc', t, VMove(v, Pending(a, c), Local(t, Work)))
    requires forall d :: Refills(pc', d) ==> Refills(pc, d)
    requires forall r :: !Floating(pc, r)
    ensures ThreadOk(pc', t, VMove(v, Pending(a, c), Local(t, Work)), tails, count, keys)
  {
    hide VMove, Uses, Floating, InReg, Locals, PcOk, Refills;
    var q, work := Pending(a, c), Local(t, Work);
    var v' := VMove(v, q, work);
    forall d ensures BinOk(pc', t, v', count, d) {
      assert BinOk(pc, t, v, count, d);
    }
    forall r, y {:trigger y in Items(v', Local(t, r))} | y in Items(v', Local(t, r))
      ensures y in keys && InReg(pc', t, r, keys[y])
    {
      if r != Work {
        assert y in Items(v, Local(t, r)) && Uses(pc, r);
      }
    }
    forall r {:trigger Items(v', Local(t, r))} | !Uses(pc', r) ensures Items(v', Local(t, r)) == [] {
      assert Items(v, Local(t, r)) == [];
    }
    forall r {:trigger End(v', Local(t, r))} | !Floating(pc', r) ensures End(v', Local(t, r)) == 0 {
      assert End(v, Local(t, r)) == 0;
    }
    forall r: Reg {:trigger Items(v', Local(t, r))} | r.Out? && |Items(v', Local(t, r))| > 0
      ensures At(tails, Local(t, r)) == Last(Items(v', Local(t, r)))
    {
      assert At(tails, Local(t, r)) == Last(Items(v, Local(t, r)));
    }
  }

  lemma SwapOthers(h: Heap, v: View, h': Heap, t: nat, l: ListId)
    requires h'.tails == h.tails && h'.count == h.count && h'.pcs == h.pcs[t := PcIn(h'.pcs, t)]
    requires !Foreign(l, t)
    ensures OthersKept(h, v, h', VMove(v, l, Local(t, Work)), t)
  {
  }

  /** A thread that holds the class lock takes the whole pending queue. */
  lemma SwapInv(h: Heap, v: View, t: nat, a: nat, c: nat, pc: Pc)
    requires Inv(h, v) && !Uses(PcOf(h, t), Work)
    requires PcOk(pc, t) && Uses(pc, Work) && !PcOf(h, t).Overflow? && !pc.Overflow?
    requires forall r {:trigger Uses(pc, r)} :: Uses(PcOf(h, t), r) ==> Uses(pc, r)
    requires forall r, k {:trigger InReg(pc, t, r, k)} :: InReg(PcOf(h, t), t, r, k) && Uses(PcOf(h, t), r) ==> InReg(pc, t, r, k)
    requires InReg(pc, t, Work, Key(a, c))
    requires Locals(pc, t, VMove(v, Pending(a, c), Local(t, Work)))
    requires forall d :: Refills(pc, d) ==> Refills(PcOf(h, t), d)
    requires forall r :: !Floating(PcOf(h, t), r)
    requires Holds(pc, t) == Holds(PcOf(h, t), t)
    requires !PcOf(h, t).ExtractFrom? && !pc.ExtractFrom?
    ensures Inv(Goto(h, t, pc).(mem := Move(h.mem, Pending(a, c), Local(t, Work))), VMove(v, Pending(a, c), Local(t, Work)))
  {
    hide Inv, Core, Threads, ThreadOk, KeyMap, Separate, LocksOk, SlabLists, OthersKept, LocksKept, Holds, VMove, Locals;
    var q, work, keys := Pending(a, c), Local(t, Work), KeyMap(h.hdr, h.slabs);
    InvParts(h, v);
    ThreadPart(h, v, t);
    RegsOf(PcOf(h, t), t, v, h.tails, h.count, keys, Work);
    ListKeys(h.mem, h.hdr, h.slabs, h.live, v, q);
    SwapThread(PcOf(h, t), pc, t, v, h.tails, h.count, keys, a, c);
    var h' := Goto(h, t, pc).(mem := Move(h.mem, q, work));
    EndsAt(h.mem, h.hdr, h.slabs, h.live, v, q);
    SwapCore(h, v, t, q);
    LocksSame(h.locks, h.pcs, t, pc);
    LocksKeptBy(h.locks, t, Key(0, 0));
    SwapOthers(h, v, h', t, q);
    PrivateStep(h, v, h', VMove(v, q, work), t);
  }

  lemma SwapCore(h: Heap, v: View, t: nat, l: ListId)
    requires Core(h.mem, h.hdr, h.slabs, h.live, v)
    requires !l.SlabFree? && End(v, l) == 0 && l != Local(t, Work)
    requires Items(v, Local(t, Work)) == [] && End(v, Local(t, Work)) == 0
    ensures Core(Move(h.mem, l, Local(t, Work)), h.hdr, h.slabs, h.live, VMove(v, l, Local(t, Work)))
  {
    hide Core, KeyMap, VMove, Move;
    KeyFits(h.mem, h.hdr, h.slabs, h.live, v, l, Local(t, Work));
    MoveCore(h.mem, h.hdr, h.slabs, h.live, v, l, Local(t, Work));
  }

  // ----- Handing over the list of one arena ---------------------------------

  lemma TakeOutThread(t: nat, v: View, tails: map<ListId, int>, count: map<ListId, int>, keys: map<int, Key>,
                      c: nat, i: nat, flushing: bool)
    requires ThreadOk(Return(c, i, false, flushing), t, v, tails, count, keys) && i < NUM_ARENAS
    ensures ThreadOk(Fold(i, c, ToDrain(c, i, flushing)), t, VMove(v, Local(t, Out(i)), Local(t, Work)), tails, count, keys)
  {
    hide VMove;
    var pc, pc' := Return(c, i, false, flushing), Fold(i, c, ToDrain(c, i, flushing));
    var out, work := Local(t, Out(i)), Local(t, Work);
    var v' := VMove(v, out, work);
    forall d ensures BinOk(pc', t, v', count, d) {
      assert BinOk(pc, t, v, count, d);
    }
    forall r, y {:trigger y in Items(v', Local(t, r))} | y in Items(v', Local(t, r))
      ensures y in keys && InReg(pc', t, r, keys[y])
    {
      assert y in Items(v, if r == Work then out else Local(t, r));
    }
    forall r {:trigger Items(v', Local(t, r))} | !Uses(pc', r) ensures Items(v', Local(t, r)) == [] {
      assert r == Out(i) || Items(v, Local(t, r)) == [];
    }
    forall r {:trigger End(v', Local(t, r))} ensures End(v', Local(t, r)) == 0 {
      assert End(v, Local(t, r)) == 0;
    }
    forall r: Reg {:trigger Items(v', Local(t, r))} | r.Out? && |Items(v', Local(t, r))| > 0
      ensures At(tails, Local(t, r)) == Last(Items(v', Local(t, r)))
    {
      assert At(tails, Local(t, r)) == Last(Items(v, Local(t, r)));
    }
  }

  /** The class lock is free: fold the list into the slabs. */
  lemma ReturnLocked(h: Heap, v: View, t: nat, c: nat, i: nat, flushing: bool)
    requires Inv(h, v) && PcOf(h, t) == Return(c, i, false, flushing) && i < NUM_ARENAS && Key(i, c) !in h.locks
    requires Items(v, Local(t, Out(i))) != []
    ensures StepReturn(h, t, c, i, false, flushing).Ok?
    ensures Inv(StepReturn(h, t, c, i, false, flushing).heap, VMove(v, Local(t, Out(i)), Local(t, Work)))
  {
    hide Inv, Core, Threads, ThreadOk, KeyMap, Separate, LocksOk, SlabLists, OthersKept, LocksKept, VMove, Locals;
    var pc', out, work := Fold(i, c, ToDrain(c, i, flushing)), Local(t, Out(i)), Local(t, Work);
    InvParts(h, v);
    ThreadPart(h, v, t);
    RegsOf(PcOf(h, t), t, v, h.tails, h.count, KeyMap(h.hdr, h.slabs), Work);
    RegsOf(PcOf(h, t), t, v, h.tails, h.count, KeyMap(h.hdr, h.slabs), Out(i));
    TakeOutThread(t, v, h.tails, h.count, KeyMap(h.hdr, h.slabs), c, i, flushing);
    SwapCore(h, v, t, out);
    LocksAcquire(h.locks, h.pcs, t, pc', Key(i, c));
    LocksKeptBy(h.locks, t, Key(i, c));
    HeadNull(h, v, out);
    var h' := Goto(Acquire(h, t, Key(i, c)), t, pc').(mem := Move(h.mem, out, work));
    SwapOthers(h, v, h', t, out);
    PrivateStep(h, v, h', VMove(v, out, work), t);
  }

  lemma HeadNull(h: Heap, v: View, l: ListId)
    requires Inv(h, v) && End(v, l) == 0
    ensures Head(h.mem, l) == 0 <==> Items(v, l) == []
  {
    ListBlocks(h.mem, h.hdr, h.slabs, h.live, v, l);
  }

  /** Nothing to hand over at this arena, or no arena left. */
  lemma ReturnSkips(h: Heap, v: View, t: nat, c: nat, i: nat, defer: bool, flushing: bool)
    requires Inv(h, v) && PcOf(h, t) == Return(c, i, defer, flushing)
    requires i >= NUM_ARENAS || Items(v, Local(t, Out(i))) == []
    ensures StepReturn(h, t, c, i, defer, flushing).Ok? && Inv(StepReturn(h, t, c, i, defer, flushing).heap, v)
  {
    hide Inv;
    PcIsOk(h, v, t);
    if i >= NUM_ARENAS {
      GotoInv(h, v, t, if flushing then Flush(c + 1) else Idle);
    } else {
      HeadNull(h, v, Local(t, Out(i)));
      GotoInv(h, v, t, Return(c, i + 1, defer, flushing));
    }
  }

  /** The class lock is busy, or the hand-over is deferred: push onto the pending queue. */
  lemma ReturnPushes(h: Heap, v: View, t: nat, c: nat, i: nat, defer: bool, flushing: bool)
    requires Inv(h, v) && PcOf(h, t) == Return(c, i, defer, flushing)
    requires i < NUM_ARENAS && Items(v, Local(t, Out(i))) != [] && (defer || Key(i, c) in h.locks)
    ensures StepReturn(h, t, c, i, defer, flushing).Ok? && Inv(StepReturn(h, t, c, i, defer, flushing).heap, v)
  {
    hide Inv;
    PcIsOk(h, v, t);
    HeadNull(h, v, Local(t, Out(i)));
    TailRecorded(h, v, t, i);
    GotoInv(h, v, t, PushLoad(Out(i), At(h.tails, Local(t, Out(i))), i, c, ToReturn(c, i + 1, defer, flushing)));
  }

  lemma ReturnInv(h: Heap, v: View, t: nat, c: nat, i: nat, defer: bool, flushing: bool) returns (v': View)
    requires Inv(h, v) && PcOf(h, t) == Return(c, i, defer, flushing)
    ensures StepReturn(h, t, c, i, defer, flushing).Ok?
    ensures Inv(StepReturn(h, t, c, i, defer, flushing).heap, v')
    ensures QueuesKept(v, v')
  {
    hide Inv, VMove;
    var out := Local(t, Out(i));
    v' := v;
    if i >= NUM_ARENAS || Items(v, out) == [] {
      ReturnSkips(h, v, t, c, i, defer, flushing);
    } else if defer || Key(i, c) in h.locks {
      ReturnPushes(h, v, t, c, i, defer, flushing);
    } else {
      ReturnLocked(h, v, t, c, i, flushing);
      v' := VMove(v, out, Local(t, Work));
    }
  }

  lemma TailRecorded(h: Heap, v: View, t: nat, i: nat)
    requires Inv(h, v) && |Items(v, Local(t, Out(i)))| > 0
    ensures At(h.tails, Local(t, Out(i))) == Last(Items(v, Local(t, Out(i))))
  {
    ThreadPart(h, v, t);
    hide Inv, KeyMap;
    RegsOf(PcOf(h, t), t, v, h.tails, h.count, KeyMap(h.hdr, h.slabs), Out(i));
  }

  // ----- The pending push ---------------------------------------------------

  lemma PushLoadInv(h: Heap, v: View, t: nat, r: Reg, tl: int, a: nat, c: nat, after: After)
    requires Inv(h, v) && PcOf(h, t) == PushLoad(r, tl, a, c, after)
    ensures StepPushLoad(h, t, r, tl, a, c, after).Ok?
    ensures Inv(StepPushLoad(h, t, r, tl, a, c, after).heap, v)
  {
    hide Inv;
    PcIsOk(h, v, t);
    GotoInv(h, v, t, PushLink(r, tl, a, c, after, Head(h.mem, Pending(a, c))));
  }

  lemma PushLinkThread(t: nat, v: View, tails: map<ListId, int>, count: map<ListId, int>, keys: map<int, Key>,
                       r: Reg, tl: int, a: nat, c: nat, after: After, seen: int)
    requires ThreadOk(PushLink(r, tl, a, c, after, seen), t, v, tails, count, keys)
    ensures ThreadOk(PushCas(r, tl, a, c, after, seen), t, VRelink(v, Local(t, r), seen), tails, count, keys)
  {
    hide VRelink, AfterUses;
    var pc, pc', v' := PushLink(r, tl, a, c, after, seen), PushCas(r, tl, a, c, after, seen), VRelink(v, Local(t, r), seen);
    forall d ensures BinOk(pc', t, v', count, d) {
      assert BinOk(pc, t, v, count, d);
    }
    forall q, y {:trigger y in Items(v', Local(t, q))} | y in Items(v', Local(t, q))
      ensures y in keys && InReg(pc', t, q, keys[y])
    {
      assert y in Items(v, Local(t, q));
    }
  }

  lemma RelinkOthers(h: Heap, v: View, h': Heap, t: nat, r: Reg, p: int)
    requires h'.tails == h.tails && h'.count == h.count && h'.pcs == h.pcs[t := PcIn(h'.pcs, t)]
    ensures OthersKept(h, v, h', VRelink(v, Local(t, r), p), t)
  {
  }

  lemma PushLinkEffect(h: Heap, v: View, t: nat, r: Reg, seen: int)
    requires Core(h.mem, h.hdr, h.slabs, h.live, v) && |Items(v, Local(t, r))| > 0
    ensures var l := Local(t, r);
            && Last(Items(v, l)) in h.mem.next
            && Core(Relink(h.mem, Last(Items(v, l)), seen), h.hdr, h.slabs, h.live, VRelink(v, l, seen))
  {
    hide Core, VRelink, KeyMap;
    KeyFits(h.mem, h.hdr, h.slabs, h.live, v, Local(t, r), Local(t, r));
    RelinkCore(h.mem, h.hdr, h.slabs, h.live, v, Local(t, r), seen);
  }

  lemma PushLinkInv(h: Heap, v: View, t: nat, r: Reg, tl: int, a: nat, c: nat, after: After, seen: int)
    requires Inv(h, v) && PcOf(h, t) == PushLink(r, tl, a, c, after, seen)
    ensures StepPushLink(h, t, r, tl, a, c, after, seen).Ok?
    ensures Inv(StepPushLink(h, t, r, tl, a, c, after, seen).heap, VRelink(v, Local(t, r), seen))
  {
    hide Inv, Core, Threads, ThreadOk, KeyMap, Separate, LocksOk, SlabLists, OthersKept, LocksKept, VRelink, PcOk, Relink;
    InvParts(h, v);
    ThreadPart(h, v, t);
    RegsOf(PcOf(h, t), t, v, h.tails, h.count, KeyMap(h.hdr, h.slabs), r);
    PushLinkEffect(h, v, t, r, seen);
    PushLinkThread(t, v, h.tails, h.count, KeyMap(h.hdr, h.slabs), r, tl, a, c, after, seen);
    var h' := StepPushLink(h, t, r, tl, a, c, after, seen).heap;
    LocksSame(h.locks, h.pcs, t, PushCas(r, tl, a, c, after, seen));
    LocksKeptBy(h.locks, t, Key(0, 0));
    RelinkOthers(h, v, h', t, r, seen);
    PrivateStep(h, v, h', VRelink(v, Local(t, r), seen), t);
  }

  /** Where a push leads. */
  function Pushed(after: After): Pc
    requires after.ToSteal? || after.ToReturn?
  {
    match after
    case ToSteal(c, target, got) => Steal(c, target, got, 1)
    case ToReturn(c, i, defer, flushing) => Return(c, i, defer, flushing)
  }

  lemma PushCasThread(t: nat, v: View, tails: map<ListId, int>, count: map<ListId, int>, keys: map<int, Key>,
                      r: Reg, tl: int, a: nat, c: nat, after: After, seen: int)
    requires ThreadOk(PushCas(r, tl, a, c, after, seen), t, v, tails, count, keys)
    ensures ThreadOk(Pushed(after), t, VSplice(v, Local(t, r), Pending(a, c)), tails, count, keys)
  {
    hide VSplice;
    var pc, pc', v' := PushCas(r, tl, a, c, after, seen), Pushed(after), VSplice(v, Local(t, r), Pending(a, c));
    forall d ensures BinOk(pc', t, v', count, d) {
      assert BinOk(pc, t, v, count, d);
    }
    forall q, y {:trigger y in Items(v', Local(t, q))} | y in Items(v', Local(t, q))
      ensures y in keys && InReg(pc', t, q, keys[y])
    {
      assert q != r && y in Items(v, Local(t, q));
      assert Uses(pc, q);
    }
    forall q {:trigger Items(v', Local(t, q))} | !Uses(pc', q) ensures Items(v', Local(t, q)) == [] {
      assert q == r || Items(v, Local(t, q)) == [];
    }
    forall q {:trigger End(v', Local(t, q))} ensures End(v', Local(t, q)) == 0 {
      assert q == r || End(v, Local(t, q)) == 0;
    }
    forall q: Reg {:trigger Items(v', Local(t, q))} | q.Out? && |Items(v', Local(t, q))| > 0
      ensures At(tails, Local(t, q)) == Last(Items(v', Local(t, q)))
    {
      assert At(tails, Local(t, q)) == Last(Items(v, Local(t, q)));
    }
  }

  lemma SpliceOthers(h: Heap, v: View, h': Heap, t: nat, r: Reg, q: ListId)
    requires h'.tails == h.tails && h'.count == h.count && h'.pcs == h.pcs[t := PcIn(h'.pcs, t)] && q.Pending?
    ensures OthersKept(h, v, h', VSplice(v, Local(t, r), q), t)
  {
  }

  lemma PushCasComputes(h: Heap, t: nat, r: Reg, tl: int, a: nat, c: nat, after: After, seen: int)
    requires Head(h.mem, Pending(a, c)) == seen && (after.ToSteal? || after.ToReturn?)
    ensures StepPushCas(h, t, r, tl, a, c, after, seen, false)
         == Ok(Goto(h, t, Pushed(after)).(mem := Splice(h.mem, Local(t, r), Pending(a, c))))
  {
  }

  /** The swap succeeds: whatever happened to the queue since the load, its head is
      the block the list's tail points to, so list and queue join into one chain. */
  lemma PushCasJoins(h: Heap, v: View, t: nat, r: Reg, tl: int, a: nat, c: nat, after: After, seen: int)
    requires Inv(h, v) && PcOf(h, t) == PushCas(r, tl, a, c, after, seen) && Head(h.mem, Pending(a, c)) == seen
    ensures StepPushCas(h, t, r, tl, a, c, after, seen, false).Ok?
    ensures Inv(StepPushCas(h, t, r, tl, a, c, after, seen, false).heap, VSplice(v, Local(t, r), Pending(a, c)))
  {
    hide Inv, Core, Threads, ThreadOk, KeyMap, Separate, LocksOk, SlabLists, OthersKept, LocksKept, VSplice, StepPushCas, Splice, Head;
    var l, q := Local(t, r), Pending(a, c);
    InvParts(h, v);
    ThreadPart(h, v, t);
    RegsOf(PcOf(h, t), t, v, h.tails, h.count, KeyMap(h.hdr, h.slabs), r);
    PushFits(h, v, t, r, tl, a, c, after, seen);
    EndsAt(h.mem, h.hdr, h.slabs, h.live, v, q);
    SpliceCore(h.mem, h.hdr, h.slabs, h.live, v, l, q);
    PushCasThread(t, v, h.tails, h.count, KeyMap(h.hdr, h.slabs), r, tl, a, c, after, seen);
    PushCasComputes(h, t, r, tl, a, c, after, seen);
    var h' := StepPushCas(h, t, r, tl, a, c, after, seen, false).heap;
    LocksSame(h.locks, h.pcs, t, Pushed(after));
    LocksKeptBy(h.locks, t, Key(0, 0));
    SpliceOthers(h, v, h', t, r, q);
    PrivateStep(h, v, h', VSplice(v, l, q), t);
  }

  lemma PushFits(h: Heap, v: View, t: nat, r: Reg, tl: int, a: nat, c: nat, after: After, seen: int)
    requires Core(h.mem, h.hdr, h.slabs, h.live, v)
    requires ThreadOk(PushCas(r, tl, a, c, after, seen), t, v, h.tails, h.count, KeyMap(h.hdr, h.slabs))
    ensures forall y :: y in Items(v, Local(t, r)) ==>
              y in h.hdr && h.hdr[y].slab in h.slabs && Fits(h.hdr, h.slabs, y, Pending(a, c))
  {
    hide Core, ThreadOk, KeyMap;
    RegsOf(PushCas(r, tl, a, c, after, seen), t, v, h.tails, h.count, KeyMap(h.hdr, h.slabs), r);
    KeyFits(h.mem, h.hdr, h.slabs, h.live, v, Local(t, r), Pending(a, c));
  }

  lemma PushCasInv(h: Heap, v: View, t: nat, r: Reg, tl: int, a: nat, c: nat, after: After, seen: int, spurious: bool) returns (v': View)
    requires Inv(h, v) && PcOf(h, t) == PushCas(r, tl, a, c, after, seen)
    ensures StepPushCas(h, t, r, tl, a, c, after, seen, spurious).Ok?
    ensures Inv(StepPushCas(h, t, r, tl, a, c, after, seen, spurious).heap, v')
    ensures if Head(h.mem, Pending(a, c)) == seen && !spurious then v' == VSplice(v, Local(t, r), Pending(a, c)) else v' == v
  {
    hide Inv;
    if Head(h.mem, Pending(a, c)) == seen && !spurious {
      PushCasJoins(h, v, t, r, tl, a, c, after, seen);
      v' := VSplice(v, Local(t, r), Pending(a, c));
    } else {
      PcIsOk(h, v, t);
      GotoInv(h, v, t, PushLink(r, tl, a, c, after, Head(h.mem, Pending(a, c))));
      v' := v;
    }
  }
}
