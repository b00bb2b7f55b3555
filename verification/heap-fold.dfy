/** The steps that return blocks to slabs and release empty slabs. */
module HeapFold {
  import opened Config
  import opened Links
  import opened Heap
  import opened HeapInvariant
  import opened HeapFrames
  import opened HeapCore
  import opened HeapReturn
  import opened HeapLists

  // ----- One block back into its slab ---------------------------------------

  function VReturn(v: View, work: ListId, b: int): (v': View)
    requires |Items(v, work)| > 0 && work.Local?
    ensures forall k {:trigger Items(v', k)} :: k != work && k != SlabFree(b) ==> Items(v', k) == Items(v, k)
    ensures forall k {:trigger End(v', k)} :: End(v', k) == End(v, k)
    ensures Items(v', work) == Items(v, work)[1..]
    ensures Items(v', SlabFree(b)) == [Items(v, work)[0]] + Items(v, SlabFree(b))
  {
    VPush(VPop(v, work), SlabFree(b), Items(v, work)[0])
  }

  function ReturnMem(mem: Mem, work: ListId, b: int): Mem
    requires Head(mem, work) in mem.next
  {
    Push(Pop(mem, work), SlabFree(b), Head(mem, work))
  }

  function OneMoreFree(slabs: map<int, Slab>, b: int): map<int, Slab>
    requires b in slabs
  {
    slabs[b := slabs[b].(freeBlocks := slabs[b].freeBlocks + 1)]
  }

  lemma KeyMapSame(hdr: map<int, Header>, slabs: map<int, Slab>, b: int, slab: Slab)
    requires b in slabs && slab.arena == slabs[b].arena
    ensures KeyMap(hdr, slabs[b := slab]) == KeyMap(hdr, slabs)
  {
  }

  lemma ReturnRep(mem: Mem, v: View, work: ListId, b: int)
    requires Rep(mem, v) && work.Local? && |Items(v, work)| > 0 && End(v, SlabFree(b)) == 0
    ensures Head(mem, work) == Items(v, work)[0] && Head(mem, work) in mem.next
    ensures Rep(ReturnMem(mem, work, b), VReturn(v, work, b))
    ensures ReturnMem(mem, work, b).next.Keys == mem.next.Keys
  {
    hide Rep;
    PopRep(mem, v, work);
    PushRep(Pop(mem, work), VPop(v, work), SlabFree(b), Items(v, work)[0]);
  }

  lemma ReturnBlocks(mem: Mem, hdr: map<int, Header>, slabs: map<int, Slab>, live: set<int>, v: View, work: ListId, b: int)
    requires Blocks(mem, hdr, slabs, live, v) && Head(mem, work) in mem.next
    requires work.Local? && |Items(v, work)| > 0 && Items(v, work)[0] in v.own && b in slabs
    requires hdr[Items(v, work)[0]].slab == b
    requires ReturnMem(mem, work, b).next.Keys == mem.next.Keys
    ensures Blocks(ReturnMem(mem, work, b), hdr, OneMoreFree(slabs, b), live, VReturn(v, work, b))
  {
    var slabs', v' := OneMoreFree(slabs, b), VReturn(v, work, b);
    assert v'.own.Keys == v.own.Keys;
    forall y | y in hdr ensures BlockOk(hdr, slabs', y) {
      assert BlockOk(hdr, slabs, y);
    }
  }

  lemma ReturnSlabs(hdr: map<int, Header>, slabs: map<int, Slab>, v: View, work: ListId, b: int)
    requires Slabs(hdr, slabs, v) && b in slabs && work.Local? && |Items(v, work)| > 0
    ensures Slabs(hdr, OneMoreFree(slabs, b), VReturn(v, work, b))
  {
    hide VReturn, Carved;
    var slabs', v' := OneMoreFree(slabs, b), VReturn(v, work, b);
    forall c | c in slabs' ensures SlabOk(hdr, slabs', v', c) {
      assert SlabOk(hdr, slabs, v, c);
    }
  }

  lemma ReturnCore(mem: Mem, hdr: map<int, Header>, slabs: map<int, Slab>, live: set<int>, v: View, work: ListId, b: int)
    requires Core(mem, hdr, slabs, live, v)
    requires work.Local? && |Items(v, work)| > 0 && b in slabs
    requires Items(v, work)[0] in hdr && hdr[Items(v, work)[0]].slab == b
    ensures Head(mem, work) == Items(v, work)[0] && Head(mem, work) in mem.next
    ensures Core(ReturnMem(mem, work, b), hdr, OneMoreFree(slabs, b), live, VReturn(v, work, b))
  {
    hide Core, Rep, Blocks, Slabs, VReturn, ReturnMem, OneMoreFree, Apart;
    CoreParts(mem, hdr, slabs, live, v);
    ReturnRep(mem, v, work, b);
    FirstOwned(mem, v, work);
    ReturnBlocks(mem, hdr, slabs, live, v, work, b);
    ReturnSlabs(hdr, slabs, v, work, b);
    ReturnApart(slabs, b);
    CoreIntro(ReturnMem(mem, work, b), hdr, OneMoreFree(slabs, b), live, VReturn(v, work, b));
  }

  lemma ReturnApart(slabs: map<int, Slab>, b: int)
    requires Apart(slabs) && b in slabs
    ensures Apart(OneMoreFree(slabs, b))
  {
    hide SlabBytes;
  }

  // ----- Releasing an empty slab --------------------------------------------

  /** All blocks of a slab whose free count is its total are on its own free list:
      none is with the client, in a bin, on a queue or in a thread's hands. */
  lemma EmptySlabIsHome(mem: Mem, hdr: map<int, Header>, slabs: map<int, Slab>, live: set<int>, v: View, b: int)
    requires Core(mem, hdr, slabs, live, v) && b in slabs && slabs[b].freeBlocks == slabs[b].total
    ensures forall y :: y in Carved(hdr, b) <==> y in Items(v, SlabFree(b))
    ensures forall y :: y in Carved(hdr, b) ==> y in v.own && v.own[y] == SlabFree(b) && y !in live
  {
    var s := Items(v, SlabFree(b));
    assert SlabOk(hdr, slabs, v, b);
    assert NoDup(s);
    ListBlocks(mem, hdr, slabs, live, v, SlabFree(b));
    hide Core, Rep;
    forall i | 0 <= i < |s| ensures s[i] in Carved(hdr, b) {
      assert s[i] in s;
    }
    DistinctFits(s, Carved(hdr, b));
    forall y | y in Carved(hdr, b) ensures y in v.own && v.own[y] == SlabFree(b) && y !in live {
      assert y in s;
      OwnedNotLive(mem, hdr, slabs, live, v, SlabFree(b), y);
    }
  }

  lemma OwnedNotLive(mem: Mem, hdr: map<int, Header>, slabs: map<int, Slab>, live: set<int>, v: View, l: ListId, y: int)
    requires Core(mem, hdr, slabs, live, v) && y in Items(v, l)
    ensures y in v.own && v.own[y] == l && y !in live
  {
  }

  lemma ReleaseBlocks(mem: Mem, hdr: map<int, Header>, slabs: map<int, Slab>, live: set<int>, v: View, b: int)
    requires Blocks(mem, hdr, slabs, live, v) && b in slabs
    requires forall y :: y in Carved(hdr, b) ==> y in v.own && v.own[y] == SlabFree(b) && y !in live
    ensures var gone := Carved(hdr, b);
            Blocks(Mem(mem.next - gone, mem.head[SlabFree(b) := 0]), hdr - gone, slabs - {b}, live, VDrop(v, SlabFree(b)))
  {
    var gone := Carved(hdr, b);
    var hdr', slabs', v' := hdr - gone, slabs - {b}, VDrop(v, SlabFree(b));
    forall y ensures y in v'.own.Keys <==> y in v.own.Keys - gone {
      if y in v.own { assert Fits(hdr, slabs, y, v.own[y]); }
    }
    assert v'.own.Keys == v.own.Keys - gone;
    forall y ensures y in live + v'.own.Keys <==> y in hdr'.Keys {
      assert y in live + v.own.Keys <==> y in hdr.Keys;
    }
    assert live + v'.own.Keys == hdr'.Keys;
    forall y | y in hdr' ensures BlockOk(hdr', slabs', y) {
      assert BlockOk(hdr, slabs, y);
    }
    forall y | y in v'.own ensures Fits(hdr', slabs', y, v'.own[y]) {
      assert Fits(hdr, slabs, y, v.own[y]);
    }
  }

  lemma ReleaseSlabs(hdr: map<int, Header>, slabs: map<int, Slab>, v: View, b: int)
    requires Slabs(hdr, slabs, v) && b in slabs
    ensures Slabs(hdr - Carved(hdr, b), slabs - {b}, VDrop(v, SlabFree(b)))
  {
    var hdr', slabs', v' := hdr - Carved(hdr, b), slabs - {b}, VDrop(v, SlabFree(b));
    forall c | c in slabs' ensures SlabOk(hdr', slabs', v', c) {
      assert SlabOk(hdr, slabs, v, c);
      assert Carved(hdr', c) == Carved(hdr, c);
    }
  }

  lemma ReleaseCore(mem: Mem, hdr: map<int, Header>, slabs: map<int, Slab>, live: set<int>, v: View, b: int)
    requires Core(mem, hdr, slabs, live, v) && b in slabs && slabs[b].freeBlocks == slabs[b].total
    ensures var gone := Carved(hdr, b);
            Core(Mem(mem.next - gone, mem.head[SlabFree(b) := 0]), hdr - gone, slabs - {b}, live, VDrop(v, SlabFree(b)))
  {
    EmptySlabIsHome(mem, hdr, slabs, live, v, b);
    hide Core, Rep, Blocks, Slabs, VDrop, Carved;
    var gone := Carved(hdr, b);
    CoreParts(mem, hdr, slabs, live, v);
    DropRep(mem, v, SlabFree(b), gone);
    ReleaseBlocks(mem, hdr, slabs, live, v, b);
    ReleaseSlabs(hdr, slabs, v, b);
    CoreIntro(Mem(mem.next - gone, mem.head[SlabFree(b) := 0]), hdr - gone, slabs - {b}, live, VDrop(v, SlabFree(b)));
  }

  // ----- The step -----------------------------------------------------------

  lemma FoldThread(t: nat, v: View, tails: map<ListId, int>, count: map<ListId, int>, keys: map<int, Key>,
                   a: nat, c: nat, after: After, b: int)
    requires ThreadOk(Fold(a, c, after), t, v, tails, count, keys) && |Items(v, Local(t, Work))| > 0
    ensures ThreadOk(Fold(a, c, after), t, VReturn(v, Local(t, Work), b), tails, count, keys)
  {
    hide VReturn, AfterUses, PcOk, Refills, InReg;
    var pc, v' := Fold(a, c, after), VReturn(v, Local(t, Work), b);
    forall d ensures BinOk(pc, t, v', count, d) {
      assert BinOk(pc, t, v, count, d);
    }
    forall r, y {:trigger y in Items(v', Local(t, r))} | y in Items(v', Local(t, r))
      ensures y in keys && InReg(pc, t, r, keys[y])
    {
      assert y in Items(v, Local(t, r));
    }
    forall r {:trigger Items(v', Local(t, r))} | !Uses(pc, r) ensures Items(v', Local(t, r)) == [] {
      assert Items(v, Local(t, r)) == [];
    }
    forall r {:trigger End(v', Local(t, r))} ensures End(v', Local(t, r)) == 0 {
      assert End(v, Local(t, r)) == 0;
    }
    forall r: Reg {:trigger Items(v', Local(t, r))} | r.Out? && |Items(v', Local(t, r))| > 0
      ensures At(tails, Local(t, r)) == Last(Items(v', Local(t, r)))
    {
      assert At(tails, Local(t, r)) == Last(Items(v, Local(t, r)));
    }
  }

  lemma FoldThreads(h: Heap, v: View, h1: Heap, t: nat, a: nat, c: nat, after: After, b: int)
    requires Threads(h, v) && Separate(v) && PcOf(h, t) == Fold(a, c, after) && |Items(v, Local(t, Work))| > 0
    requires h1.hdr == h.hdr && h1.pcs == h.pcs && h1.tails == h.tails && h1.count == h.count
    requires b in h.slabs && h1.slabs == OneMoreFree(h.slabs, b)
    ensures Threads(h1, VReturn(v, Local(t, Work), b))
  {
    hide ThreadOk, Threads, Separate, VReturn, KeyMap, KeysKept;
    ThreadPart(h, v, t);
    KeyMapSame(h.hdr, h.slabs, b, h1.slabs[b]);
    KeysSame(KeyMap(h.hdr, h.slabs), v);
    FoldThread(t, v, h.tails, h.count, KeyMap(h.hdr, h.slabs), a, c, after, b);
    ThreadsFrame(h, v, h1, VReturn(v, Local(t, Work), b), t);
  }

  lemma ReleaseThreads(h: Heap, v: View, h': Heap, b: int)
    requires Threads(h, v) && Separate(v)
    requires forall y :: y in Carved(h.hdr, b) ==> y in v.own && v.own[y] == SlabFree(b)
    requires h'.hdr == h.hdr - Carved(h.hdr, b) && h'.slabs == h.slabs - {b}
    requires h'.pcs == h.pcs && h'.tails == h.tails && h'.count == h.count
    ensures Threads(h', VDrop(v, SlabFree(b)))
  {
    hide ThreadOk, KeyMap, VDrop, KeysKept, Separate, Carved;
    var keys, keys', v' := KeyMap(h.hdr, h.slabs), KeyMap(h'.hdr, h'.slabs), VDrop(v, SlabFree(b));
    ReleaseKeys(h.hdr, h.slabs, v, b);
    forall t: nat ensures ThreadOk(PcIn(h'.pcs, t), t, v', h'.tails, h'.count, keys') {
      ReleaseThread(h, v, t, b, keys, keys');
    }
  }

  lemma ReleaseKeys(hdr: map<int, Header>, slabs: map<int, Slab>, v: View, b: int)
    requires forall y :: y in Carved(hdr, b) ==> y in v.own && v.own[y] == SlabFree(b)
    ensures KeysKept(KeyMap(hdr, slabs), v, KeyMap(hdr - Carved(hdr, b), slabs - {b}))
  {
  }

  lemma ReleaseThread(h: Heap, v: View, t: nat, b: int, keys: map<int, Key>, keys': map<int, Key>)
    requires ThreadOk(PcIn(h.pcs, t), t, v, h.tails, h.count, keys) && Separate(v) && KeysKept(keys, v, keys')
    ensures ThreadOk(PcIn(h.pcs, t), t, VDrop(v, SlabFree(b)), h.tails, h.count, keys')
  {
    hide ThreadOk, VDrop, Separate;
    ThreadFrame(PcIn(h.pcs, t), t, v, h.tails, h.count, keys, VDrop(v, SlabFree(b)), h.tails, h.count, keys');
  }

  /** What the node tests and the lock say about the first block of the list. */
  lemma FoldFacts(h: Heap, v: View, t: nat, a: nat, c: nat, after: After)
    requires Inv(h, v) && PcOf(h, t) == Fold(a, c, after) && |Items(v, Local(t, Work))| > 0
    ensures var p := Items(v, Local(t, Work))[0];
            && p in h.hdr && h.hdr[p].slab in h.slabs
            && var b := h.hdr[p].slab;
               && SlabKey(h.slabs[b]) == Key(a, c) && SlabOk(h.hdr, h.slabs, v, b)
               && Key(a, c) in h.locks && h.locks[Key(a, c)] == t
               && Head(h.mem, Local(t, Work)) == p && NodeGuard(h, p) == Stop(p, 1) && p != 0
               && Head(h.mem, SlabFree(b)) != p
  {
    hide Inv, Core, Threads, ThreadOk, KeyMap, LocksOk, SlabLists, NodeGuard, SlabOk;
    var work := Local(t, Work);
    InvParts(h, v);
    ThreadPart(h, v, t);
    RegsOf(PcOf(h, t), t, v, h.tails, h.count, KeyMap(h.hdr, h.slabs), Work);
    NodePasses(h, v, work);
    var p := Items(v, work)[0];
    assert p in Items(v, work);
    SlabOfBlock(h.mem, h.hdr, h.slabs, h.live, v, p);
    HeldBy(h.locks, h.pcs, t, Key(a, c));
    SlabFacts(h.mem, h.hdr, h.slabs, h.live, v, h.hdr[p].slab);
    EndsAt(h.mem, h.hdr, h.slabs, h.live, v, SlabFree(h.hdr[p].slab));
    HeadElsewhere(h.mem, h.hdr, h.slabs, h.live, v, work, SlabFree(h.hdr[p].slab));
  }

  lemma SlabFacts(mem: Mem, hdr: map<int, Header>, slabs: map<int, Slab>, live: set<int>, v: View, b: int)
    requires Core(mem, hdr, slabs, live, v) && b in slabs
    ensures SlabOk(hdr, slabs, v, b)
  {
  }

  /** The first block of one list is not the head of another. */
  lemma HeadElsewhere(mem: Mem, hdr: map<int, Header>, slabs: map<int, Slab>, live: set<int>, v: View, l: ListId, l': ListId)
    requires Core(mem, hdr, slabs, live, v) && |Items(v, l)| > 0 && l != l' && End(v, l') == 0
    ensures Head(mem, l') != Items(v, l)[0]
  {
    CoreRep(mem, hdr, slabs, live, v);
    HeadIsFirst(mem, v, l');
    FirstMapped(mem, v, l);
    if |Items(v, l')| > 0 && Items(v, l')[0] == Items(v, l)[0] {
      OnOneList(mem, v, l, l', 0, 0);
    }
  }

  /** The heap after one block went back to slab `b`. */
  function Returned(h: Heap, t: nat, k: Key, b: int): Heap
    requires Head(h.mem, Local(t, Work)) in h.mem.next && b in h.slabs
  {
    var wasFull := h.slabs[b].freeBlocks == 0;
    h.(mem := ReturnMem(h.mem, Local(t, Work), b), slabs := OneMoreFree(h.slabs, b),
       partial := Refilled(h.partial, k, b, wasFull), full := Unfilled(h.full, k, b, wasFull))
  }

  lemma FoldComputes(h: Heap, t: nat, a: nat, c: nat, after: After, p: int)
    requires Head(h.mem, Local(t, Work)) == p && p != 0 && NodeGuard(h, p) == Stop(p, 1)
    requires p in h.hdr && h.hdr[p].slab in h.slabs && p in h.mem.next && Head(h.mem, SlabFree(h.hdr[p].slab)) != p
    ensures var b := h.hdr[p].slab;
            var h1 := Returned(h, t, Key(a, c), b);
            StepFold(h, t, a, c, after)
            == Ok(if h.slabs[b].freeBlocks + 1 == h.slabs[b].total then ReleaseSlab(h1, Key(a, c), b) else h1)
  {
    hide NodeGuard;
    var b := h.hdr[p].slab;
    assert ReturnBlock(h, Key(a, c), Local(t, Work), p) == Returned(h, t, Key(a, c), b);
  }

  lemma FoldKeeps(h: Heap, v: View, t: nat, a: nat, c: nat, after: After, b: int)
    requires Inv(h, v) && PcOf(h, t) == Fold(a, c, after) && |Items(v, Local(t, Work))| > 0
    requires Items(v, Local(t, Work))[0] in h.hdr && h.hdr[Items(v, Local(t, Work))[0]].slab == b
    requires b in h.slabs && SlabKey(h.slabs[b]) == Key(a, c) && SlabOk(h.hdr, h.slabs, v, b)
    requires Key(a, c) in h.locks && h.locks[Key(a, c)] == t
    requires h.slabs[b].freeBlocks + 1 != h.slabs[b].total
    ensures Head(h.mem, Local(t, Work)) in h.mem.next
    ensures Inv(Returned(h, t, Key(a, c), b), VReturn(v, Local(t, Work), b))
  {
    hide Inv, Core, Threads, LocksOk, SlabLists, Separate, VReturn, ReturnMem, Refilled, Unfilled, SlabOk;
    var k, work := Key(a, c), Local(t, Work);
    InvParts(h, v);
    FreeNotNegative(h.hdr, h.slabs, v, b);
    ReturnCore(h.mem, h.hdr, h.slabs, h.live, v, work, b);
    FreeBelowTotal(h, v, t, b);
    ReturnLists(h.slabs, h.partial, h.full, h.locks, h.pcs, t, k, b);
    var h1 := Returned(h, t, k, b);
    FoldThreads(h, v, h1, t, a, c, after, b);
    InvIntro(h1, VReturn(v, work, b));
  }

  lemma FreeNotNegative(hdr: map<int, Header>, slabs: map<int, Slab>, v: View, b: int)
    requires b in slabs && SlabOk(hdr, slabs, v, b)
    ensures 0 <= slabs[b].freeBlocks
  {
  }

  /** A block that is out of its slab makes the slab's free count fall short of its total. */
  lemma FreeBelowTotal(h: Heap, v: View, t: nat, b: int)
    requires Core(h.mem, h.hdr, h.slabs, h.live, v) && b in h.slabs
    requires |Items(v, Local(t, Work))| > 0
    requires Items(v, Local(t, Work))[0] in h.hdr && h.hdr[Items(v, Local(t, Work))[0]].slab == b
    ensures h.slabs[b].freeBlocks < h.slabs[b].total
  {
    var p := Items(v, Local(t, Work))[0];
    var s := Items(v, SlabFree(b));
    SlabFacts(h.mem, h.hdr, h.slabs, h.live, v, b);
    ListBlocks(h.mem, h.hdr, h.slabs, h.live, v, SlabFree(b));
    assert p in Items(v, Local(t, Work));
    assert NoDup(s) && p !in s;
    hide Core, Rep;
    var others := Carved(h.hdr, b) - {p};
    forall i | 0 <= i < |s| ensures s[i] in others {
      assert s[i] in s;
    }
    DistinctFits(s, others);
  }

  lemma FoldReleases(h: Heap, v: View, t: nat, a: nat, c: nat, after: After, b: int)
    requires Inv(h, v) && PcOf(h, t) == Fold(a, c, after) && |Items(v, Local(t, Work))| > 0
    requires Items(v, Local(t, Work))[0] in h.hdr && h.hdr[Items(v, Local(t, Work))[0]].slab == b
    requires b in h.slabs && SlabKey(h.slabs[b]) == Key(a, c)
    requires Key(a, c) in h.locks && h.locks[Key(a, c)] == t
    requires h.slabs[b].freeBlocks + 1 == h.slabs[b].total
    ensures Head(h.mem, Local(t, Work)) in h.mem.next
    ensures Inv(ReleaseSlab(Returned(h, t, Key(a, c), b), Key(a, c), b), VDrop(VReturn(v, Local(t, Work), b), SlabFree(b)))
  {
    hide Inv, Core, Threads, LocksOk, SlabLists, Separate, VReturn, VDrop, ReturnMem, Refilled, Unfilled, Carved;
    var k, work := Key(a, c), Local(t, Work);
    InvParts(h, v);
    ReturnCore(h.mem, h.hdr, h.slabs, h.live, v, work, b);
    var h1, v1 := Returned(h, t, k, b), VReturn(v, work, b);
    FoldThreads(h, v, h1, t, a, c, after, b);
    ReleaseCore(h1.mem, h1.hdr, h1.slabs, h1.live, v1, b);
    EmptySlabIsHome(h1.mem, h1.hdr, h1.slabs, h1.live, v1, b);
    ReleaseLists(h.slabs, h.partial, h.full, h.locks, h.pcs, t, k, b);
    assert h1.slabs - {b} == h.slabs - {b};
    CoreSeparate(h1.mem, h1.hdr, h1.slabs, h1.live, v1);
    var h2 := ReleaseSlab(h1, k, b);
    ReleaseThreads(h1, v1, h2, b);
    InvIntro(h2, VDrop(v1, SlabFree(b)));
  }

  lemma CoreSeparate(mem: Mem, hdr: map<int, Header>, slabs: map<int, Slab>, live: set<int>, v: View)
    requires Core(mem, hdr, slabs, live, v)
    ensures Separate(v)
  {
  }

  lemma FoldOne(h: Heap, v: View, t: nat, a: nat, c: nat, after: After) returns (v': View)
    requires Inv(h, v) && PcOf(h, t) == Fold(a, c, after) && |Items(v, Local(t, Work))| > 0
    ensures StepFold(h, t, a, c, after).Ok?
    ensures Inv(StepFold(h, t, a, c, after).heap, v')
    ensures QueuesKept(v, v')
  {
    hide Inv, VReturn, VDrop, Returned, ReleaseSlab, StepFold, NodeGuard, SlabOk;
    var work := Local(t, Work);
    FoldFacts(h, v, t, a, c, after);
    var p := Items(v, work)[0];
    var b := h.hdr[p].slab;
    if h.slabs[b].freeBlocks + 1 == h.slabs[b].total {
      FoldReleases(h, v, t, a, c, after, b);
      v' := VDrop(VReturn(v, work, b), SlabFree(b));
    } else {
      FoldKeeps(h, v, t, a, c, after, b);
      v' := VReturn(v, work, b);
    }
    FoldComputes(h, t, a, c, after, p);
  }

  lemma FoldedForRefill(h: Heap, v: View, t: nat, a: nat, c: nat, after: After)
    requires Inv(h, v) && PcOf(h, t) == Fold(a, c, after) && Items(v, Local(t, Work)) == []
    requires after.ToSteal? || after.ToStealRelease?
    ensures Inv(Continue(h, t, Key(a, c), after), v)
  {
    hide Inv;
    PcIsOk(h, v, t);
    if after.ToSteal? {
      GotoInv(h, v, t, Steal(c, after.target, after.got, 1));
    } else {
      ReleaseInv(h, v, t, Steal(c, after.target, after.got, after.off + 1), Key(a, c));
    }
  }

  lemma FoldedForReturn(h: Heap, v: View, t: nat, a: nat, c: nat, after: After)
    requires Inv(h, v) && PcOf(h, t) == Fold(a, c, after) && Items(v, Local(t, Work)) == []
    requires after.ToDrain? || after.ToRelease?
    ensures Inv(Continue(h, t, Key(a, c), after), v)
  {
    hide Inv;
    PcIsOk(h, v, t);
    if after.ToDrain? {
      GotoInv(h, v, t, Drain(c, a, after.flushing));
    } else {
      ReleaseInv(h, v, t, Return(c, a + 1, false, after.flushing), Key(a, c));
    }
  }

  lemma FoldedForPurge(h: Heap, v: View, t: nat, a: nat, c: nat, after: After)
    requires Inv(h, v) && PcOf(h, t) == Fold(a, c, after) && Items(v, Local(t, Work)) == []
    requires after.ToPurge?
    ensures Inv(Continue(h, t, Key(a, c), after), v)
  {
    hide Inv;
    PcIsOk(h, v, t);
    ReleaseInv(h, v, t, if c + 1 < NUM_SIZE_CLASSES then PurgeLock(c + 1, a) else PurgeLock(0, a + 1), Key(a, c));
  }

  /** The list is folded in: the thread goes on, and drops the lock where the code does. */
  lemma FoldDone(h: Heap, v: View, t: nat, a: nat, c: nat, after: After)
    requires Inv(h, v) && PcOf(h, t) == Fold(a, c, after) && Items(v, Local(t, Work)) == []
    ensures Inv(Continue(h, t, Key(a, c), after), v)
  {
    hide Inv, Continue;
    PcIsOk(h, v, t);
    if after.ToSteal? || after.ToStealRelease? {
      FoldedForRefill(h, v, t, a, c, after);
    } else if after.ToPurge? {
      FoldedForPurge(h, v, t, a, c, after);
    } else {
      FoldedForReturn(h, v, t, a, c, after);
    }
  }

  lemma FoldInv(h: Heap, v: View, t: nat, a: nat, c: nat, after: After) returns (v': View)
    requires Inv(h, v) && PcOf(h, t) == Fold(a, c, after)
    ensures StepFold(h, t, a, c, after).Ok?
    ensures Inv(StepFold(h, t, a, c, after).heap, v')
    ensures QueuesKept(v, v')
  {
    if |Items(v, Local(t, Work))| > 0 {
      v' := FoldOne(h, v, t, a, c, after);
    } else {
      hide Inv, Continue, NodeGuard;
      PcIsOk(h, v, t);
      HeadNull(h, v, Local(t, Work));
      FoldDone(h, v, t, a, c, after);
      v' := v;
    }
  }
}
