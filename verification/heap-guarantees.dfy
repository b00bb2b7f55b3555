/** The invariant of the heap machine read as promises to the client and to the page heap. */
module HeapGuarantees {
  import opened Config
  import opened Links
  import opened Heap
  import opened HeapInvariant
  import opened HeapFrames
  import opened HeapCore
  import opened HeapReturn
  import opened HeapFeed
  import opened HeapFold
  import opened HeapClient
  import opened HeapTheorems

  // ----- Blocks -------------------------------------------------------------

  /** The memory decomposes into disjoint, duplicate-free lists which, together
      with the client's blocks, hold every carved block exactly once.  The shared lists end
      in null, and a list of a thread's own is not empty only inside a call of that thread. */
  ghost predicate EachInOnePlace(h: Heap, v: View) {
    && Rep(h.mem, v) && Ends(v)
    && (forall y {:trigger v.own[y]} :: y in v.own && v.own[y].Local? ==> !PcOf(h, v.own[y].thread).Idle?)
    && h.live + v.own.Keys == h.hdr.Keys && h.live !! v.own.Keys
    && (forall y :: y in v.own ==> h.hdr[y].slab in h.slabs && Fits(h.hdr, h.slabs, y, v.own[y]))
  }

  lemma EveryBlockInOnePlace(h: Heap)
    requires Reachable(h)
    ensures exists v :: EachInOnePlace(h, v)
  {
    var v := ReachableInv(h);
    InvPlaces(h, v);
  }

  /** A carved block lies in the span of its slab, behind the slab's header. */
  lemma BlockInItsSlab(h: Heap, v: View, y: int)
    requires Inv(h, v) && y in h.hdr
    ensures var b := h.hdr[y].slab;
            && b in h.slabs && h.slabs[b].cls == h.hdr[y].cls < NUM_SIZE_CLASSES && b % PAGE_SIZE == 0 && MIN_USER_PTR <= b
            && b + SLAB_HEADER <= y && y + ClassIndexToSize(h.hdr[y].cls) <= b + SlabBytes(h.hdr[y].cls) <= MAX_USER_PTR
            && Plausible(y)
  {
    hide Threads, LocksOk, SlabLists, ThreadOk, SlabBytes, BlockAt;
    assert BlockOk(h.hdr, h.slabs, y);
    var b := h.hdr[y].slab;
    assert SlabOk(h.hdr, h.slabs, v, b);
    var j: nat :| j < h.slabs[b].nextNew && y == BlockAt(b, h.slabs[b].cls, j);
    BlockInSpan(b, h.slabs[b].cls, j);
  }

  lemma SlabsApart(h: Heap, v: View, b: int, d: int)
    requires Inv(h, v) && b in h.slabs && d in h.slabs && b < d
    ensures b + SlabBytes(h.slabs[b].cls) <= d
  {
    hide Threads, LocksOk, SlabLists, SlabBytes, Blocks, Slabs, Rep;
  }

  lemma OneSlabApart(h: Heap, v: View, y: int, z: int)
    requires Inv(h, v) && y in h.hdr && z in h.hdr && h.hdr[y].slab == h.hdr[z].slab && y < z
    ensures y + ClassIndexToSize(h.hdr[y].cls) <= z
  {
    hide Threads, LocksOk, SlabLists, ThreadOk, SlabBytes, BlockAt, Slabs;
    assert BlockOk(h.hdr, h.slabs, y) && BlockOk(h.hdr, h.slabs, z);
    var b, c := h.hdr[y].slab, h.hdr[y].cls;
    var i: nat :| i < h.slabs[b].nextNew && y == BlockAt(b, c, i);
    var j: nat :| j < h.slabs[b].nextNew && z == BlockAt(b, c, j);
    if j < i { BlockAtMonotone(b, c, j, i); }
    if i < j { BlockAtMonotone(b, c, i, j); }
  }

  lemma TwoBlocks(h: Heap, v: View, y: int, z: int)
    requires Inv(h, v) && y in h.hdr && z in h.hdr && y < z
    ensures y + ClassIndexToSize(h.hdr[y].cls) <= z
  {
    hide Inv, SlabBytes, ClassIndexToSize, Plausible;
    BlockInItsSlab(h, v, y);
    BlockInItsSlab(h, v, z);
    var b, d := h.hdr[y].slab, h.hdr[z].slab;
    if b == d {
      OneSlabApart(h, v, y, z);
    } else if b < d {
      SlabsApart(h, v, b, d);
    } else {
      SlabsApart(h, v, d, b);
    }
  }

  /** No two blocks share a byte: in every reachable state each carved block ends before the next begins. */
  lemma BlocksApart(h: Heap, y: int, z: int)
    requires Reachable(h) && y in h.hdr && z in h.hdr && y < z
    ensures y + ClassIndexToSize(h.hdr[y].cls) <= z
  {
    hide Inv;
    var v := ReachableInv(h);
    TwoBlocks(h, v, y, z);
  }

  /** The actions that may answer a request: a hit, or the end of a refill. */
  predicate Answers(h: Heap, act: Action) {
    act.DoMalloc? || (act.DoStep? && PcOf(h, act.t).Finish?)
  }

  /** The class of the request. */
  function ClassAsked(h: Heap, act: Action): nat
    requires Answers(h, act)
  {
    if act.DoMalloc? then RequestToClass(act.size) else PcOf(h, act.t).cls
  }

  /** The client's set of blocks changes in three ways only: nothing, one block of the class asked for that it
      did not own is handed to it, or the block it frees is taken from it. */
  lemma NeverHandedOutTwice(h: Heap, act: Action)
    requires Reachable(h) && Enabled(h, act)
    ensures Apply(h, act).Ok?
    ensures var live' := Apply(h, act).heap.live;
            || live' == h.live
            || (act.DoFree? && live' == h.live - {act.block})
            || (Answers(h, act) && exists y :: y in h.hdr && y !in h.live && h.hdr[y].cls == ClassAsked(h, act) && live' == h.live + {y})
  {
    hide Inv, Malloc, Free, StepThread, StepFinish, FreshSpan;
    var v := ReachableInv(h);
    var v' := EveryStep(h, v, act);
    match act
    case DoMalloc(t, size) =>
      HitsAreFresh(h, v, t, RequestToClass(size));
    case DoFree(t, y) =>
      FreeInv(h, v, t, y);
    case DoStep(t, ch) =>
      StepsAreFresh(h, v, t, ch);
    case _ =>
  }

  lemma HitsAreFresh(h: Heap, v: View, t: nat, c: nat)
    requires Inv(h, v) && PcOf(h, t) == Idle && c < NUM_SIZE_CLASSES
    ensures Malloc(h, t, c).Ok?
    ensures var live' := Malloc(h, t, c).heap.live;
            live' == h.live || exists y :: y in h.hdr && y !in h.live && h.hdr[y].cls == c && live' == h.live + {y}
  {
    hide Inv, Malloc;
    if |Items(v, Bin(t, c))| > 0 {
      MallocHit(h, v, t, c);
      FirstCarved(h, v, Bin(t, c));
    } else {
      MallocMiss(h, v, t, c);
    }
  }

  lemma FirstCarved(h: Heap, v: View, l: ListId)
    requires Inv(h, v) && |Items(v, l)| > 0
    ensures Head(h.mem, l) in h.hdr
    ensures l.Bin? ==> h.hdr[Head(h.mem, l)].cls == l.cls
    ensures l.Local? ==> var pc := PcOf(h, l.thread); !pc.Idle? && h.hdr[Head(h.mem, l)].cls == pc.cls
  {
    ListBlocks(h.mem, h.hdr, h.slabs, h.live, v, l);
    var y := Items(v, l)[0];
    assert y in Items(v, l);
    if l.Local? { ThreadPart(h, v, l.thread); }
  }

  lemma StepsAreFresh(h: Heap, v: View, t: nat, ch: Choice)
    requires Inv(h, v) && StepThread(h, t, ch).Ok?
    ensures var live' := StepThread(h, t, ch).heap.live;
            live' == h.live || (PcOf(h, t).Finish? && exists y :: y in h.hdr && y !in h.live && h.hdr[y].cls == PcOf(h, t).cls && live' == h.live + {y})
  {
    if PcOf(h, t).Finish? {
      hide Inv, StepFinish, VFinish;
      var c, got := PcOf(h, t).cls, PcOf(h, t).got;
      if got == 0 {
        FinishEmpty(h, v, t, c);
      } else {
        FinishHands(h, v, t, c, got);
        FirstCarved(h, v, Local(t, Result));
      }
    }
  }

  // ----- Slabs --------------------------------------------------------------

  /** When a slab's span goes back to the page heap, every block ever carved from
      it is on the slab's own free list, except the one that is just coming back:
      none is with the client, in a bin, on a queue or later in any thread's list. */
  lemma ReleasedSlabIsIdle(h: Heap, act: Action, b: int)
    requires Reachable(h) && Enabled(h, act) && Apply(h, act).Ok?
    requires b in h.slabs && b !in Apply(h, act).heap.slabs
    ensures act.DoStep? && PcOf(h, act.t).Fold?
    ensures exists v :: EachInOnePlace(h, v) && IdleBut(h, v, b, Local(act.t, Work))
  {
    hide Inv, NodeGuard, StepFold, StepThread, FreshSpan;
    var v := ReachableInv(h);
    OnlyFoldReleases(h, act, b);
    FoldReleaseIsIdle(h, v, act.t, act.choice, b);
    assert IdleBut(h, v, b, Local(act.t, Work));
  }

  /** Every block carved from slab `b` is on its free list, or is the first of the list `work`. */
  ghost predicate IdleBut(h: Heap, v: View, b: int, work: ListId) {
    forall y :: y in Carved(h.hdr, b) ==>
      && y !in h.live && y in v.own
      && (v.own[y] == SlabFree(b) || (v.own[y] == work && |Items(v, work)| > 0 && y == Items(v, work)[0]))
  }

  lemma OnlyFoldReleases(h: Heap, act: Action, b: int)
    requires Apply(h, act).Ok? && b in h.slabs && b !in Apply(h, act).heap.slabs
    ensures act.DoStep? && PcOf(h, act.t).Fold?
  {
    hide StepThread, Plausible;
  }

  lemma FoldReleaseIsIdle(h: Heap, v: View, t: nat, ch: Choice, b: int)
    requires Inv(h, v) && PcOf(h, t).Fold? && StepThread(h, t, ch).Ok?
    requires b in h.slabs && b !in StepThread(h, t, ch).heap.slabs
    ensures EachInOnePlace(h, v)
    ensures forall y :: y in Carved(h.hdr, b) ==>
              && y !in h.live && y in v.own
              && (v.own[y] == SlabFree(b) || (v.own[y] == Local(t, Work) && |Items(v, Local(t, Work))| > 0 && y == Items(v, Local(t, Work))[0]))
  {
    hide Inv, NodeGuard, StepFold;
    var a, c, after := PcOf(h, t).arena, PcOf(h, t).cls, PcOf(h, t).after;
    InvParts(h, v);
    InvPlaces(h, v);
    var work := Local(t, Work);
    ReleaseNeedsBlock(h, v, t, a, c, after, b);
    FoldFacts(h, v, t, a, c, after);
    var p := Items(v, work)[0];
    FoldComputes(h, t, a, c, after, p);
    ReleasedWhich(h, t, a, c, after, p, b);
    ReturnCore(h.mem, h.hdr, h.slabs, h.live, v, work, b);
    var v1 := VReturn(v, work, b);
    EmptySlabIsHome(ReturnMem(h.mem, work, b), h.hdr, OneMoreFree(h.slabs, b), h.live, v1, b);
    OwnersBefore(h, v, work, b);
  }

  lemma InvPlaces(h: Heap, v: View)
    requires Inv(h, v)
    ensures EachInOnePlace(h, v)
  {
    InvParts(h, v);
    forall y {:trigger v.own[y]} | y in v.own && v.own[y].Local? ensures !PcOf(h, v.own[y].thread).Idle? {
      HeldInACall(h, v, y);
    }
  }

  lemma HeldInACall(h: Heap, v: View, y: int)
    requires Inv(h, v) && y in v.own && v.own[y].Local?
    ensures !PcOf(h, v.own[y].thread).Idle?
  {
    var t, r := v.own[y].thread, v.own[y].reg;
    assert y in Items(v, Local(t, r));
    assert ThreadOk(PcOf(h, t), t, v, h.tails, h.count, KeyMap(h.hdr, h.slabs));
  }

  lemma ReleaseNeedsBlock(h: Heap, v: View, t: nat, a: nat, c: nat, after: After, b: int)
    requires Inv(h, v) && PcOf(h, t) == Fold(a, c, after) && StepFold(h, t, a, c, after).Ok?
    requires b in h.slabs && b !in StepFold(h, t, a, c, after).heap.slabs
    ensures |Items(v, Local(t, Work))| > 0
  {
    hide Inv, NodeGuard;
    PcIsOk(h, v, t);
    HeadNull(h, v, Local(t, Work));
  }

  lemma ReleasedWhich(h: Heap, t: nat, a: nat, c: nat, after: After, p: int, b: int)
    requires Head(h.mem, Local(t, Work)) == p && p in h.hdr && h.hdr[p].slab in h.slabs && p in h.mem.next
    requires var d := h.hdr[p].slab;
             var h1 := Returned(h, t, Key(a, c), d);
             StepFold(h, t, a, c, after)
             == Ok(if h.slabs[d].freeBlocks + 1 == h.slabs[d].total then ReleaseSlab(h1, Key(a, c), d) else h1)
    requires b in h.slabs && b !in StepFold(h, t, a, c, after).heap.slabs
    ensures b == h.hdr[p].slab && h.slabs[b].freeBlocks + 1 == h.slabs[b].total
  {
    hide StepFold;
  }

  lemma OwnersBefore(h: Heap, v: View, work: ListId, b: int)
    requires Core(h.mem, h.hdr, h.slabs, h.live, v) && work.Local? && |Items(v, work)| > 0
    requires forall y :: y in Carved(h.hdr, b) <==> y in Items(VReturn(v, work, b), SlabFree(b))
    ensures forall y :: y in Carved(h.hdr, b) ==>
              && y !in h.live && y in v.own
              && (v.own[y] == SlabFree(b) || (v.own[y] == work && y == Items(v, work)[0]))
  {
    hide Core, VReturn, Carved;
    var p := Items(v, work)[0];
    assert p in Items(v, work);
    OwnedNotLive(h.mem, h.hdr, h.slabs, h.live, v, work, p);
    forall y | y in Carved(h.hdr, b)
      ensures y !in h.live && y in v.own && (v.own[y] == SlabFree(b) || (v.own[y] == work && y == p))
    {
      assert y == p || y in Items(v, SlabFree(b));
      if y in Items(v, SlabFree(b)) {
        OwnedNotLive(h.mem, h.hdr, h.slabs, h.live, v, SlabFree(b), y);
      }
    }
  }

  /** A slab no thread is extracting from is on exactly one list: the full list if it has
      no free block, the partial list if it has some but not all. */
  lemma SlabOnTheRightList(h: Heap, b: int)
    requires Reachable(h) && b in h.slabs
    requires forall t: nat :: !(PcOf(h, t).ExtractFrom? && PcOf(h, t).slab == b)
    ensures var s, k := h.slabs[b], SlabKey(h.slabs[b]);
            && (b in In(h.full, k) <==> s.freeBlocks == 0)
            && (b in In(h.partial, k) <==> 0 < s.freeBlocks < s.total)
            && (forall j :: j != k ==> b !in In(h.full, j) && b !in In(h.partial, j))
            && NoDup(In(h.full, k)) && NoDup(In(h.partial, k))
  {
    var v := ReachableInv(h);
    hide Core, Threads, LocksOk;
    var s, k := h.slabs[b], SlabKey(h.slabs[b]);
    InvParts(h, v);
    assert Listed(h.slabs, h.partial, h.full, h.locks, h.pcs, b);
    assert k in h.locks ==> !(PcOf(h, h.locks[k]).ExtractFrom? && PcOf(h, h.locks[k]).slab == b);
    FreeAtMost(h, v, b);
    assert ListOk(h.slabs, In(h.full, k), k) && ListOk(h.slabs, In(h.partial, k), k);
    forall j | j != k ensures b !in In(h.full, j) && b !in In(h.partial, j) {
      assert ListOk(h.slabs, In(h.full, j), j) && ListOk(h.slabs, In(h.partial, j), j);
    }
  }

  lemma FreeAtMost(h: Heap, v: View, b: int)
    requires Core(h.mem, h.hdr, h.slabs, h.live, v) && b in h.slabs
    ensures 0 <= h.slabs[b].freeBlocks
  {
    SlabFacts(h.mem, h.hdr, h.slabs, h.live, v, b);
  }

  /** A slab's free count is the length of its free list plus the blocks not carved yet. */
  lemma SlabCountsAreExact(h: Heap, b: int) returns (s: seq<int>)
    requires Reachable(h) && b in h.slabs
    ensures Chain(h.mem.next, Head(h.mem, SlabFree(b)), s, 0) && NoDup(s)
    ensures h.slabs[b].freeBlocks == |s| + h.slabs[b].total - h.slabs[b].nextNew
    ensures forall y :: y in s ==> y in Carved(h.hdr, b)
  {
    var v := ReachableInv(h);
    s := Items(v, SlabFree(b));
    SlabFacts(h.mem, h.hdr, h.slabs, h.live, v, b);
    ListBlocks(h.mem, h.hdr, h.slabs, h.live, v, SlabFree(b));
    assert NoDup(s);
  }

  // ----- Bins and batches ---------------------------------------------------

  /** The bin of an idle thread: its count is the length of its list, which stays
      below the limit and holds distinct blocks of the bin's class, none of them the client's. */
  lemma BinCountsAreExact(h: Heap, t: nat, c: nat) returns (s: seq<int>)
    requires Reachable(h) && PcOf(h, t).Idle?
    ensures Chain(h.mem.next, Head(h.mem, Bin(t, c)), s, 0) && NoDup(s)
    ensures At(h.count, Bin(t, c)) == |s| < CacheLimit(c)
    ensures forall y :: y in s ==> y in h.hdr && h.hdr[y].cls == c && y !in h.live
  {
    var v := ReachableInv(h);
    s := Items(v, Bin(t, c));
    BinChain(h, v, t, c);
    BinLength(h, v, t, c);
  }

  lemma BinChain(h: Heap, v: View, t: nat, c: nat)
    requires Inv(h, v)
    ensures Chain(h.mem.next, Head(h.mem, Bin(t, c)), Items(v, Bin(t, c)), 0) && NoDup(Items(v, Bin(t, c)))
    ensures forall y :: y in Items(v, Bin(t, c)) ==> y in h.hdr && h.hdr[y].cls == c && y !in h.live
  {
    ListBlocks(h.mem, h.hdr, h.slabs, h.live, v, Bin(t, c));
    EndsAt(h.mem, h.hdr, h.slabs, h.live, v, Bin(t, c));
    assert NoDup(Items(v, Bin(t, c)));
  }

  lemma BinLength(h: Heap, v: View, t: nat, c: nat)
    requires Inv(h, v)
    ensures At(h.count, Bin(t, c)) == |Items(v, Bin(t, c))|
    ensures !PcOf(h, t).Overflow? ==> |Items(v, Bin(t, c))| < CacheLimit(c)
  {
    hide Core, LocksOk, SlabLists, KeyMap;
    ThreadPart(h, v, t);
    assert BinOk(PcOf(h, t), t, v, h.count, c);
  }

  /** A finished batch is a null-terminated list of distinct blocks of the requested
      class; its length is exactly the count reported, and no block is the client's. */
  lemma BatchIsExact(h: Heap, t: nat) returns (s: seq<int>)
    requires Reachable(h) && PcOf(h, t).Finish?
    ensures Chain(h.mem.next, Head(h.mem, Local(t, Result)), s, 0) && NoDup(s)
    ensures |s| == PcOf(h, t).got <= RefillCap(PcOf(h, t).cls)
    ensures forall y :: y in s ==> y in h.hdr && h.hdr[y].cls == PcOf(h, t).cls && y !in h.live
  {
    var v := ReachableInv(h);
    s := Items(v, Local(t, Result));
    BatchChain(h, v, t);
  }

  lemma BatchChain(h: Heap, v: View, t: nat)
    requires Inv(h, v) && PcOf(h, t).Finish?
    ensures var s := Items(v, Local(t, Result));
            && Chain(h.mem.next, Head(h.mem, Local(t, Result)), s, 0) && NoDup(s)
            && |s| == PcOf(h, t).got <= RefillCap(PcOf(h, t).cls)
            && forall y :: y in s ==> y in h.hdr && h.hdr[y].cls == PcOf(h, t).cls && y !in h.live
  {
    hide Inv, Core, Rep, LocksOk, SlabLists, ThreadOk, Threads, Separate;
    var s := Items(v, Local(t, Result));
    InvParts(h, v);
    ListBlocks(h.mem, h.hdr, h.slabs, h.live, v, Local(t, Result));
    ListDistinct(h.mem, h.hdr, h.slabs, h.live, v, Local(t, Result));
    PcIsOk(h, v, t);
    ThreadPart(h, v, t);
    RegsOf(PcOf(h, t), t, v, h.tails, h.count, KeyMap(h.hdr, h.slabs), Result);
    forall y | y in s ensures y in h.hdr && h.hdr[y].cls == PcOf(h, t).cls && y !in h.live {
      OwnedNotLive(h.mem, h.hdr, h.slabs, h.live, v, Local(t, Result), y);
    }
  }

  /** The step ends the assembly of a batch. */
  predicate Finishes(o: Outcome, t: nat) {
    o.Ok? && PcOf(o.heap, t).Finish?
  }

  lemma GotoPc(t: nat)
    ensures forall h, pc {:trigger Goto(h, t, pc)} :: PcIn(Goto(h, t, pc).pcs, t) == pc
  {
  }

  /** A batch ends with no more blocks than asked for, and with none only when the arena
      has no partial slab of the class and no new slab could be made. */
  lemma EmptyBatchMeansExhausted(h: Heap, t: nat, ch: Choice)
    requires Reachable(h) && (PcOf(h, t).Extract? || PcOf(h, t).ExtractFrom?) && Finishes(StepThread(h, t, ch), t)
    ensures var pc, got := PcOf(h, t), PcOf(StepThread(h, t, ch).heap, t).got;
            && got <= pc.target
            && (got == 0 ==> pc.Extract? && In(h.partial, Key(Home(t), pc.cls)) == [] && ch.span == 0)
  {
    hide Inv, StepThread;
    var v := ReachableInv(h);
    if PcOf(h, t).Extract? {
      ExtractEnds(h, v, t, ch);
    } else {
      ExtractFromEnds(h, v, t, ch);
    }
  }

  lemma ExtractEnds(h: Heap, v: View, t: nat, ch: Choice)
    requires Inv(h, v) && PcOf(h, t).Extract? && StepThread(h, t, ch).Ok? && PcOf(StepThread(h, t, ch).heap, t).Finish?
    ensures var pc, got := PcOf(h, t), PcOf(StepThread(h, t, ch).heap, t).got;
            got <= pc.target && (got == 0 ==> In(h.partial, Key(Home(t), pc.cls)) == [] && ch.span == 0)
  {
    hide Inv, Core, Rep, LocksOk, SlabLists, ThreadOk, Threads, Separate, StepThread;
    var pc := PcOf(h, t);
    PcIsOk(h, v, t);
    InvParts(h, v);
    ThreadPart(h, v, t);
    RegsOf(pc, t, v, h.tails, h.count, KeyMap(h.hdr, h.slabs), Result);
    HeadNull(h, v, Local(t, Result));
    ExtractComputes(h, t, ch);
  }

  lemma ExtractComputes(h: Heap, t: nat, ch: Choice)
    requires PcOf(h, t).Extract? && Finishes(StepThread(h, t, ch), t) && PcOf(h, t).cls < NUM_SIZE_CLASSES
    ensures var pc, pc' := PcOf(h, t), PcOf(StepThread(h, t, ch).heap, t);
            && pc'.got == pc.got
            && (Head(h.mem, Local(t, Result)) != 0 || (In(h.partial, Key(Home(t), pc.cls)) == [] && ch.span == 0))
  {
    hide StepExtract;
    var pc := PcOf(h, t);
    assert StepThread(h, t, ch) == StepExtract(h, t, pc.cls, pc.target, pc.got, ch.span);
    hide StepThread;
    ExtractStops(h, t, pc.cls, pc.target, pc.got, ch.span);
  }

  lemma ExtractStops(h: Heap, t: nat, c: nat, target: nat, got: nat, span: int)
    requires Finishes(StepExtract(h, t, c, target, got, span), t) && c < NUM_SIZE_CLASSES
    ensures PcOf(StepExtract(h, t, c, target, got, span).heap, t).got == got
    ensures Head(h.mem, Local(t, Result)) != 0 || (In(h.partial, Key(Home(t), c)) == [] && span == 0)
  {
    hide Goto, PcIn, Acquire, Release, Victim, Home, Head, SlabBlocks;
    GotoPc(t);
  }

  lemma ExtractFromEnds(h: Heap, v: View, t: nat, ch: Choice)
    requires Inv(h, v) && PcOf(h, t).ExtractFrom? && StepThread(h, t, ch).Ok? && PcOf(StepThread(h, t, ch).heap, t).Finish?
    ensures 0 < PcOf(StepThread(h, t, ch).heap, t).got <= PcOf(h, t).target
  {
    hide Core, Rep, LocksOk, ThreadOk, Threads, Separate, Relink, Append, SlabAllocate;
    var pc := PcOf(h, t);
    InvParts(h, v);
    PcIsOk(h, v, t);
    assert ExtractOk(h.slabs, pc, t);
  }

  /** A pending queue is a null-terminated list of distinct blocks of its own arena and class, and only one list. */
  lemma QueueIsAList(h: Heap, a: nat, c: nat) returns (s: seq<int>)
    requires Reachable(h)
    ensures Chain(h.mem.next, Head(h.mem, Pending(a, c)), s, 0) && NoDup(s)
    ensures forall y :: y in s ==> && y in h.hdr && h.hdr[y].slab in h.slabs && y !in h.live
                                   && h.slabs[h.hdr[y].slab].arena == a && h.hdr[y].cls == c
    ensures forall s' :: Chain(h.mem.next, Head(h.mem, Pending(a, c)), s', 0) ==> s' == s
  {
    var v := ReachableInv(h);
    s := Items(v, Pending(a, c));
    ListBlocks(h.mem, h.hdr, h.slabs, h.live, v, Pending(a, c));
    EndsAt(h.mem, h.hdr, h.slabs, h.live, v, Pending(a, c));
    assert NoDup(s);
    hide Inv;
    forall s' | Chain(h.mem.next, Head(h.mem, Pending(a, c)), s', 0) ensures s' == s {
      ChainUnique(h.mem.next, Head(h.mem, Pending(a, c)), s, s');
    }
  }

  // ----- Waiting ------------------------------------------------------------

  /** A thread that waits for a class lock holds none, and the thread that holds
      the lock does not wait: no waiting is circular. */
  lemma HoldersDoNotWait(h: Heap, k: Key)
    requires Reachable(h) && k in h.locks
    ensures var pc := PcOf(h, h.locks[k]);
            !pc.Idle? && !pc.RefillLock? && !pc.PurgeLock?
  {
    var v := ReachableInv(h);
    hide Core, Threads, SlabLists;
    HeldBy(h.locks, h.pcs, h.locks[k], k);
  }
}
