/** The steps that take blocks out of slabs. */
module HeapExtract {
  import opened Config
  import opened Links
  import opened Heap
  import opened HeapInvariant
  import opened HeapFrames
  import opened HeapCore
  import opened HeapReturn
  import opened HeapLists
  import opened HeapFold

  // ----- A new slab ---------------------------------------------------------

  function NewSlab(t: nat, c: nat): Slab
    requires c < NUM_SIZE_CLASSES
  {
    Slab(Home(t), c, SlabBlocks(c), SlabBlocks(c), 0)
  }

  lemma FreshIsNew(h: Heap, span: int, c: nat)
    requires c < NUM_SIZE_CLASSES && FreshSpan(h, span, SlabBytes(c))
    requires forall b :: b in h.slabs ==> h.slabs[b].cls < NUM_SIZE_CLASSES
    ensures span !in h.slabs
  {
    SlabHoldsABlock(c);
    if span in h.slabs { SlabHoldsABlock(h.slabs[span].cls); }
  }

  lemma NewBlocks(mem: Mem, hdr: map<int, Header>, slabs: map<int, Slab>, live: set<int>, v: View, span: int, slab: Slab)
    requires Blocks(mem, hdr, slabs, live, v) && span !in slabs
    ensures Blocks(mem, hdr, slabs[span := slab], live, v)
    ensures Carved(hdr, span) == {} && KeyMap(hdr, slabs[span := slab]) == KeyMap(hdr, slabs)
  {
    var slabs' := slabs[span := slab];
    forall y | y in hdr ensures BlockOk(hdr, slabs', y) {
      assert BlockOk(hdr, slabs, y);
    }
    forall y | y in hdr ensures hdr[y].slab in slabs {
      assert BlockOk(hdr, slabs, y);
    }
    forall y | y in v.own ensures Fits(hdr, slabs', y, v.own[y]) {
      assert Fits(hdr, slabs, y, v.own[y]);
    }
  }

  lemma NewSlabs(hdr: map<int, Header>, slabs: map<int, Slab>, v: View, span: int, t: nat, c: nat)
    requires Slabs(hdr, slabs, v) && span !in slabs && c < NUM_SIZE_CLASSES
    requires Carved(hdr, span) == {} && Items(v, SlabFree(span)) == []
    requires span % PAGE_SIZE == 0 && MIN_USER_PTR <= span && span + SlabBytes(c) <= MAX_USER_PTR
    ensures Slabs(hdr, slabs[span := NewSlab(t, c)], v)
  {
    hide Carved, SlabBytes;
    var slabs' := slabs[span := NewSlab(t, c)];
    forall b | b in slabs' ensures SlabOk(hdr, slabs', v, b) {
      if b != span { assert SlabOk(hdr, slabs, v, b); }
    }
  }

  lemma NewApart(h: Heap, span: int, slab: Slab)
    requires Apart(h.slabs) && FreshSpan(h, span, SlabBytes(slab.cls)) && span !in h.slabs
    requires forall b :: b in h.slabs ==> 0 < SlabBytes(h.slabs[b].cls)
    requires 0 < SlabBytes(slab.cls)
    ensures Apart(h.slabs[span := slab])
  {
    hide SlabBytes;
  }

  lemma SlabClasses(mem: Mem, hdr: map<int, Header>, slabs: map<int, Slab>, live: set<int>, v: View)
    requires Core(mem, hdr, slabs, live, v)
    ensures forall b :: b in slabs ==> slabs[b].cls < NUM_SIZE_CLASSES && 0 < SlabBytes(slabs[b].cls)
  {
    forall b | b in slabs ensures slabs[b].cls < NUM_SIZE_CLASSES && 0 < SlabBytes(slabs[b].cls) {
      assert SlabOk(hdr, slabs, v, b);
      SlabHoldsABlock(slabs[b].cls);
    }
  }

  /** A fresh span becomes a slab with no carved block. */
  lemma NewSlabCore(h: Heap, v: View, t: nat, c: nat, span: int)
    requires Core(h.mem, h.hdr, h.slabs, h.live, v) && c < NUM_SIZE_CLASSES && FreshSpan(h, span, SlabBytes(c))
    ensures span !in h.slabs
    ensures Core(h.mem, h.hdr, h.slabs[span := NewSlab(t, c)], h.live, v)
    ensures KeyMap(h.hdr, h.slabs[span := NewSlab(t, c)]) == KeyMap(h.hdr, h.slabs)
  {
    hide Core, Rep, Blocks, Slabs, Apart, KeyMap, Carved, SlabBytes;
    SlabClasses(h.mem, h.hdr, h.slabs, h.live, v);
    FreshIsNew(h, span, c);
    CoreParts(h.mem, h.hdr, h.slabs, h.live, v);
    NewBlocks(h.mem, h.hdr, h.slabs, h.live, v, span, NewSlab(t, c));
    NothingFree(h.mem, h.hdr, h.slabs, h.live, v, span);
    NewSlabs(h.hdr, h.slabs, v, span, t, c);
    SlabHoldsABlock(c);
    NewApart(h, span, NewSlab(t, c));
    CoreIntro(h.mem, h.hdr, h.slabs[span := NewSlab(t, c)], h.live, v);
  }

  lemma NothingFree(mem: Mem, hdr: map<int, Header>, slabs: map<int, Slab>, live: set<int>, v: View, b: int)
    requires Core(mem, hdr, slabs, live, v) && b !in slabs
    ensures Items(v, SlabFree(b)) == []
  {
    var s := Items(v, SlabFree(b));
    if |s| > 0 {
      var y := s[0];
      assert y in s;
      ListBlocks(mem, hdr, slabs, live, v, SlabFree(b));
    }
  }

  // ----- Starting to extract ------------------------------------------------

  /** Other threads' extractions are untouched by a thread that starts or ends one. */
  lemma BusyElsewhere(slabs: map<int, Slab>, locks: map<Key, nat>, pcs: map<nat, Pc>, locks': map<Key, nat>,
                      pcs': map<nat, Pc>, t: nat, b: int, c: int)
    requires c in slabs && c != b
    requires LocksKept(locks, locks', t) && PcsKept(pcs, pcs', t)
    requires PcIn(pcs, t).ExtractFrom? ==> PcIn(pcs, t).slab == b
    requires PcIn(pcs', t).ExtractFrom? ==> PcIn(pcs', t).slab == b
    ensures Busy(slabs, locks', pcs', c) == Busy(slabs, locks, pcs, c)
  {
    var k := SlabKey(slabs[c]);
    if k in locks' && locks'[k] != t {
      assert PcIn(pcs', locks'[k]) == PcIn(pcs, locks'[k]);
    }
  }

  /** The lists once a thread extracts from the partial slab `b`. */
  lemma StartLists(slabs: map<int, Slab>, partial: map<Key, seq<int>>, full: map<Key, seq<int>>,
                   locks: map<Key, nat>, pcs: map<nat, Pc>, pcs': map<nat, Pc>, t: nat, k: Key, b: int)
    requires SlabLists(slabs, partial, full, locks, pcs) && PcsKept(pcs, pcs', t)
    requires b in In(partial, k) && b in slabs && SlabKey(slabs[b]) == k
    requires k in locks && locks[k] == t && !PcIn(pcs, t).ExtractFrom?
    requires PcIn(pcs', t).ExtractFrom? && PcIn(pcs', t).slab == b && ExtractOk(slabs, PcIn(pcs', t), t)
    ensures SlabLists(slabs, partial, full, locks, pcs')
  {
    NotBusy(slabs, locks, pcs, t, b);
    assert Listed(slabs, partial, full, locks, pcs, b);
    assert ListOk(slabs, In(partial, k), k) && ListOk(slabs, In(full, k), k);
    forall c | c in slabs && c != b ensures Busy(slabs, locks, pcs', c) == Busy(slabs, locks, pcs, c) {
      BusyElsewhere(slabs, locks, pcs, locks, pcs', t, b, c);
    }
    forall t': nat {:trigger PcIn(pcs', t')} ensures ExtractOk(slabs, PcIn(pcs', t'), t') {
      assert t' == t || ExtractOk(slabs, PcIn(pcs, t'), t');
    }
    ListsAt(slabs, partial, full, locks, pcs, slabs, partial, full, locks, pcs', k, b);
  }

  /** The lists once a thread extracts from the new slab `span`. */
  lemma NewLists(slabs: map<int, Slab>, partial: map<Key, seq<int>>, full: map<Key, seq<int>>,
                 locks: map<Key, nat>, pcs: map<nat, Pc>, pcs': map<nat, Pc>, t: nat, k: Key, span: int, slab: Slab)
    requires SlabLists(slabs, partial, full, locks, pcs) && PcsKept(pcs, pcs', t)
    requires span !in slabs && SlabKey(slab) == k
    requires k in locks && locks[k] == t && !PcIn(pcs, t).ExtractFrom?
    requires PcIn(pcs', t).ExtractFrom? && PcIn(pcs', t).slab == span && ExtractOk(slabs[span := slab], PcIn(pcs', t), t)
    ensures SlabLists(slabs[span := slab], partial[k := [span] + In(partial, k)], full, locks, pcs')
  {
    var slabs', partial' := slabs[span := slab], partial[k := [span] + In(partial, k)];
    assert ListOk(slabs, In(partial, k), k) && ListOk(slabs, In(full, k), k);
    assert span !in In(partial, k) && span !in In(full, k);
    forall c | c in slabs && c != span ensures Busy(slabs, locks, pcs', c) == Busy(slabs, locks, pcs, c) {
      BusyElsewhere(slabs, locks, pcs, locks, pcs', t, span, c);
    }
    forall t': nat {:trigger PcIn(pcs', t')} ensures ExtractOk(slabs', PcIn(pcs', t'), t') {
      assert t' == t || ExtractOk(slabs, PcIn(pcs, t'), t');
    }
    assert OnlySlab(slabs, partial, full, slabs', partial', full, k, span);
    ListsAt(slabs, partial, full, locks, pcs, slabs', partial', full, locks, pcs', k, span);
  }

  lemma StartThread(t: nat, v: View, tails: map<ListId, int>, count: map<ListId, int>, keys: map<int, Key>,
                    c: nat, target: nat, got: nat, b: int)
    requires ThreadOk(Extract(c, target, got), t, v, tails, count, keys) && Items(v, Local(t, Result)) == []
    ensures ThreadOk(ExtractFrom(c, target, got, b, 0), t, v, tails, count, keys)
  {
    var pc, pc' := Extract(c, target, got), ExtractFrom(c, target, got, b, 0);
    forall d ensures BinOk(pc', t, v, count, d) {
      assert BinOk(pc, t, v, count, d);
    }
  }

  lemma ExtractOld(h: Heap, v: View, t: nat, c: nat, target: nat, got: nat)
    requires Inv(h, v) && PcOf(h, t) == Extract(c, target, got) && Items(v, Local(t, Result)) == []
    requires |In(h.partial, Key(Home(t), c))| > 0
    ensures Inv(Goto(h, t, ExtractFrom(c, target, got, In(h.partial, Key(Home(t), c))[0], 0)), v)
  {
    hide Inv, Core, Threads, ThreadOk, LocksOk, SlabLists, Separate, KeyMap, OthersKept;
    var k := Key(Home(t), c);
    var b := In(h.partial, k)[0];
    var pc' := ExtractFrom(c, target, got, b, 0);
    var h' := Goto(h, t, pc');
    InvParts(h, v);
    ThreadPart(h, v, t);
    PcIsOk(h, v, t);
    StartThread(t, v, h.tails, h.count, KeyMap(h.hdr, h.slabs), c, target, got, b);
    GotoOthers(h, v, h', t);
    KeysSame(KeyMap(h.hdr, h.slabs), v);
    ThreadsFrame(h, v, h', v, t);
    HeldBy(h.locks, h.pcs, t, k);
    LocksSame(h.locks, h.pcs, t, pc');
    PartialSlab(h.slabs, h.partial, h.full, h.locks, h.pcs, k, b);
    NotBusy(h.slabs, h.locks, h.pcs, t, b);
    FreeAtMostTotal(h.mem, h.hdr, h.slabs, h.live, v, b);
    StartLists(h.slabs, h.partial, h.full, h.locks, h.pcs, h'.pcs, t, k, b);
    InvIntro(h', v);
  }

  lemma PartialSlab(slabs: map<int, Slab>, partial: map<Key, seq<int>>, full: map<Key, seq<int>>,
                    locks: map<Key, nat>, pcs: map<nat, Pc>, k: Key, b: int)
    requires SlabLists(slabs, partial, full, locks, pcs) && b in In(partial, k)
    ensures b in slabs && SlabKey(slabs[b]) == k
    ensures !Busy(slabs, locks, pcs, b) ==> slabs[b].freeBlocks != 0
  {
    assert ListOk(slabs, In(partial, k), k);
    assert Listed(slabs, partial, full, locks, pcs, b);
  }

  lemma ExtractNew(h: Heap, v: View, t: nat, c: nat, target: nat, got: nat, span: int)
    requires Inv(h, v) && PcOf(h, t) == Extract(c, target, got) && Items(v, Local(t, Result)) == []
    requires c < NUM_SIZE_CLASSES && FreshSpan(h, span, SlabBytes(c))
    ensures var k := Key(Home(t), c);
            Inv(Goto(h, t, ExtractFrom(c, target, got, span, 0))
                .(slabs := h.slabs[span := NewSlab(t, c)], partial := h.partial[k := [span] + In(h.partial, k)]), v)
  {
    hide Inv, Core, Threads, ThreadOk, LocksOk, SlabLists, Separate, KeyMap, OthersKept, FreshSpan;
    var k := Key(Home(t), c);
    var pc' := ExtractFrom(c, target, got, span, 0);
    var h' := Goto(h, t, pc').(slabs := h.slabs[span := NewSlab(t, c)], partial := h.partial[k := [span] + In(h.partial, k)]);
    InvParts(h, v);
    ThreadPart(h, v, t);
    PcIsOk(h, v, t);
    NewSlabCore(h, v, t, c, span);
    StartThread(t, v, h.tails, h.count, KeyMap(h.hdr, h.slabs), c, target, got, span);
    GotoOthers(h, v, h', t);
    KeysSame(KeyMap(h.hdr, h.slabs), v);
    ThreadsFrame(h, v, h', v, t);
    HeldBy(h.locks, h.pcs, t, k);
    LocksSame(h.locks, h.pcs, t, pc');
    SlabHoldsABlock(c);
    NewLists(h.slabs, h.partial, h.full, h.locks, h.pcs, h'.pcs, t, k, span, NewSlab(t, c));
    InvIntro(h', v);
  }

  /** Null is returned only if nothing was fed or stolen, the arena has no
      partial slab and the page heap has no span. */
  lemma ExtractInv(h: Heap, v: View, t: nat, c: nat, target: nat, got: nat, span: int)
    requires Inv(h, v) && PcOf(h, t) == Extract(c, target, got)
    requires span != 0 ==> FreshSpan(h, span, SlabBytes(c))
    ensures StepExtract(h, t, c, target, got, span).Ok?
    ensures Inv(StepExtract(h, t, c, target, got, span).heap, v)
  {
    hide Inv, FreshSpan;
    var k := Key(Home(t), c);
    PcIsOk(h, v, t);
    HeadNull(h, v, Local(t, Result));
    if Items(v, Local(t, Result)) != [] {
      ReleaseInv(h, v, t, Finish(c, got), k);
    } else if |In(h.partial, k)| > 0 {
      ExtractOld(h, v, t, c, target, got);
    } else if span == 0 {
      ReleaseInv(h, v, t, Finish(c, got), k);
    } else {
      ExtractNew(h, v, t, c, target, got, span);
    }
  }

  // ----- Taking one block ---------------------------------------------------

  lemma FreeAtMostTotal(mem: Mem, hdr: map<int, Header>, slabs: map<int, Slab>, live: set<int>, v: View, b: int)
    requires Core(mem, hdr, slabs, live, v) && b in slabs
    ensures 0 <= slabs[b].freeBlocks <= slabs[b].total
  {
    var s := Items(v, SlabFree(b));
    SlabFacts(mem, hdr, slabs, live, v, b);
    ListBlocks(mem, hdr, slabs, live, v, SlabFree(b));
    assert NoDup(s);
    hide Core, Rep;
    forall i | 0 <= i < |s| ensures s[i] in Carved(hdr, b) {
      assert s[i] in s;
    }
    DistinctFits(s, Carved(hdr, b));
  }

  /** The view once the free block `y` of slab `b` is the last of the batch. */
  function VTake(mem: Mem, v: View, b: int, result: ListId): (v': View)
    requires result.Local? && |Items(v, SlabFree(b))| > 0 && Items(v, SlabFree(b))[0] in mem.next
    ensures forall k {:trigger Items(v', k)} :: k != result && k != SlabFree(b) ==> Items(v', k) == Items(v, k)
    ensures forall k {:trigger End(v', k)} :: k != result ==> End(v', k) == End(v, k)
    ensures Items(v', SlabFree(b)) == Items(v, SlabFree(b))[1..]
    ensures Items(v', result) == Items(v, result) + [Items(v, SlabFree(b))[0]]
  {
    VAppend(mem, VPop(v, SlabFree(b)), result, Items(v, SlabFree(b))[0])
  }

  function TakeMem(mem: Mem, b: int, result: ListId, tl: int): Mem
    requires Head(mem, SlabFree(b)) in mem.next
  {
    Append(Pop(mem, SlabFree(b)), result, tl, Head(mem, SlabFree(b)))
  }

  function OneLessFree(slabs: map<int, Slab>, b: int): map<int, Slab>
    requires b in slabs
  {
    slabs[b := slabs[b].(freeBlocks := slabs[b].freeBlocks - 1)]
  }

  lemma TakeRep(mem: Mem, v: View, b: int, result: ListId)
    requires Rep(mem, v) && result.Local? && |Items(v, SlabFree(b))| > 0
    ensures Head(mem, SlabFree(b)) == Items(v, SlabFree(b))[0] && Head(mem, SlabFree(b)) in mem.next
    ensures Rep(TakeMem(mem, b, result, Last(Items(v, result))), VTake(mem, v, b, result))
    ensures TakeMem(mem, b, result, Last(Items(v, result))).next.Keys == mem.next.Keys
  {
    hide Rep;
    PopRep(mem, v, SlabFree(b));
    if |Items(v, result)| > 0 { LastMapped(mem, v, result); }
    assert Items(VPop(v, SlabFree(b)), result) == Items(v, result);
    AppendRep(Pop(mem, SlabFree(b)), VPop(v, SlabFree(b)), result, Items(v, SlabFree(b))[0]);
  }

  lemma TakeBlocks(mem: Mem, hdr: map<int, Header>, slabs: map<int, Slab>, live: set<int>, v: View, b: int, result: ListId, mem': Mem)
    requires Blocks(mem, hdr, slabs, live, v) && mem'.next.Keys == mem.next.Keys && b in slabs
    requires result.Local? && |Items(v, SlabFree(b))| > 0 && Items(v, SlabFree(b))[0] in v.own && Items(v, SlabFree(b))[0] in mem.next
    ensures Blocks(mem', hdr, OneLessFree(slabs, b), live, VTake(mem, v, b, result))
  {
    var slabs', v' := OneLessFree(slabs, b), VTake(mem, v, b, result);
    assert v'.own.Keys == v.own.Keys;
    forall y | y in hdr ensures BlockOk(hdr, slabs', y) {
      assert BlockOk(hdr, slabs, y);
    }
  }

  lemma TakeSlabs(mem: Mem, hdr: map<int, Header>, slabs: map<int, Slab>, v: View, b: int, result: ListId)
    requires Slabs(hdr, slabs, v) && b in slabs && result.Local?
    requires |Items(v, SlabFree(b))| > 0 && Items(v, SlabFree(b))[0] in mem.next
    ensures Slabs(hdr, OneLessFree(slabs, b), VTake(mem, v, b, result))
  {
    hide VTake, Carved;
    var slabs', v' := OneLessFree(slabs, b), VTake(mem, v, b, result);
    forall c | c in slabs' ensures SlabOk(hdr, slabs', v', c) {
      assert SlabOk(hdr, slabs, v, c);
    }
  }

  lemma TakeApart(slabs: map<int, Slab>, b: int, slab: Slab)
    requires Apart(slabs) && b in slabs && slab.cls == slabs[b].cls
    ensures Apart(slabs[b := slab])
  {
    hide SlabBytes;
  }

  lemma TakeCore(mem: Mem, hdr: map<int, Header>, slabs: map<int, Slab>, live: set<int>, v: View, b: int, result: ListId)
    requires Core(mem, hdr, slabs, live, v) && b in slabs && result.Local? && |Items(v, SlabFree(b))| > 0
    ensures Head(mem, SlabFree(b)) == Items(v, SlabFree(b))[0] && Head(mem, SlabFree(b)) in mem.next
    ensures Core(TakeMem(mem, b, result, Last(Items(v, result))), hdr, OneLessFree(slabs, b), live, VTake(mem, v, b, result))
  {
    hide Core, Rep, Blocks, Slabs, VTake, TakeMem, Apart;
    CoreParts(mem, hdr, slabs, live, v);
    TakeRep(mem, v, b, result);
    FirstOwned(mem, v, SlabFree(b));
    var mem' := TakeMem(mem, b, result, Last(Items(v, result)));
    TakeBlocks(mem, hdr, slabs, live, v, b, result, mem');
    TakeSlabs(mem, hdr, slabs, v, b, result);
    TakeApart(slabs, b, slabs[b].(freeBlocks := slabs[b].freeBlocks - 1));
    CoreIntro(mem', hdr, OneLessFree(slabs, b), live, VTake(mem, v, b, result));
  }

  // ----- Carving one block --------------------------------------------------

  /** The address of the next virgin block is in no slab's carved part. */
  lemma CarveIsFresh(mem: Mem, hdr: map<int, Header>, slabs: map<int, Slab>, live: set<int>, v: View, b: int)
    requires Core(mem, hdr, slabs, live, v) && b in slabs && slabs[b].nextNew < slabs[b].total
    ensures var y := BlockAt(b, slabs[b].cls, slabs[b].nextNew);
            Plausible(y) && y !in hdr
  {
    hide Core, SlabBytes, SlabBlocks, BlockAt, Blocks, Slabs, Apart, Rep;
    var s := slabs[b];
    var y := BlockAt(b, s.cls, s.nextNew);
    Geometry(mem, hdr, slabs, live, v);
    BlockInSpan(b, s.cls, s.nextNew);
    BlockAtAligned(b, s.cls, s.nextNew);
    CoreParts(mem, hdr, slabs, live, v);
    if y in hdr {
      CarvedBlock(mem, hdr, slabs, live, v, y);
      CarvedElsewhere(hdr, slabs, b, y);
    }
  }

  lemma CarvedBlock(mem: Mem, hdr: map<int, Header>, slabs: map<int, Slab>, live: set<int>, v: View, y: int)
    requires Core(mem, hdr, slabs, live, v) && y in hdr
    ensures BlockOk(hdr, slabs, y)
  {
  }

  lemma Geometry(mem: Mem, hdr: map<int, Header>, slabs: map<int, Slab>, live: set<int>, v: View)
    requires Core(mem, hdr, slabs, live, v)
    ensures forall c {:trigger slabs[c]} :: c in slabs ==>
              && slabs[c].cls < NUM_SIZE_CLASSES && slabs[c].nextNew <= slabs[c].total == SlabBlocks(slabs[c].cls)
              && c % 16 == 0 && MIN_USER_PTR <= c && c + SlabBytes(slabs[c].cls) <= MAX_USER_PTR
  {
    hide SlabBytes, SlabBlocks, Carved, Rep;
    forall c | c in slabs
      ensures && slabs[c].cls < NUM_SIZE_CLASSES && slabs[c].nextNew <= slabs[c].total == SlabBlocks(slabs[c].cls)
              && c % 16 == 0 && MIN_USER_PTR <= c && c + SlabBytes(slabs[c].cls) <= MAX_USER_PTR
    {
      assert SlabOk(hdr, slabs, v, c);
      PageAligned(c);
    }
  }

  lemma PageAligned(b: int)
    requires b % PAGE_SIZE == 0
    ensures b % 16 == 0
  {
  }

  lemma CarvedElsewhere(hdr: map<int, Header>, slabs: map<int, Slab>, b: int, y: int)
    requires Apart(slabs) && y in hdr && BlockOk(hdr, slabs, y) && b in slabs
    requires forall c :: c in slabs ==> slabs[c].cls < NUM_SIZE_CLASSES && slabs[c].nextNew <= slabs[c].total == SlabBlocks(slabs[c].cls)
    requires slabs[b].nextNew < slabs[b].total
    ensures y != BlockAt(b, slabs[b].cls, slabs[b].nextNew)
  {
    hide SlabBytes, SlabBlocks;
    var c := hdr[y].slab;
    var j: nat :| j < slabs[c].nextNew && y == BlockAt(c, slabs[c].cls, j);
    BlockInSpan(c, slabs[c].cls, j);
    BlockInSpan(b, slabs[b].cls, slabs[b].nextNew);
    if c == b {
      BlockAtMonotone(b, slabs[b].cls, j, slabs[b].nextNew);
    }
  }

  lemma CarveRep(mem: Mem, v: View, result: ListId, y: int, junk: int)
    requires Rep(mem, v) && y !in mem.next && y != 0 && y !in v.own
    ensures var mem1 := mem.(next := mem.next[y := junk]);
            && Rep(Append(mem1, result, Last(Items(v, result)), y), VAppend(mem1, v, result, y))
            && Append(mem1, result, Last(Items(v, result)), y).next.Keys == mem.next.Keys + {y}
  {
    hide Rep;
    var mem1 := mem.(next := mem.next[y := junk]);
    WriteRep(mem, v, y, junk);
    if |Items(v, result)| > 0 { LastMapped(mem, v, result); }
    AppendRep(mem1, v, result, y);
  }

  lemma CarveBlocks(mem: Mem, hdr: map<int, Header>, slabs: map<int, Slab>, live: set<int>, v: View, b: int, result: ListId,
                    mem1: Mem, mem': Mem)
    requires Blocks(mem, hdr, slabs, live, v) && b in slabs && result.Local?
    requires var y := BlockAt(b, slabs[b].cls, slabs[b].nextNew);
             Plausible(y) && y !in hdr && mem'.next.Keys == mem.next.Keys + {y} && y in mem1.next
    ensures var y := BlockAt(b, slabs[b].cls, slabs[b].nextNew);
            Blocks(mem', hdr[y := Header(b, slabs[b].cls)], slabs[b := OneCarved(slabs[b])], live, VAppend(mem1, v, result, y))
  {
    hide BlockAt;
    var y := BlockAt(b, slabs[b].cls, slabs[b].nextNew);
    var hdr', slabs', v' := hdr[y := Header(b, slabs[b].cls)], slabs[b := OneCarved(slabs[b])], VAppend(mem1, v, result, y);
    assert v'.own.Keys == v.own.Keys + {y};
    forall z | z in hdr' ensures BlockOk(hdr', slabs', z) {
      if z != y {
        assert BlockOk(hdr, slabs, z);
        CarveKeepsBlock(hdr, slabs, hdr', slabs', b, z);
      }
    }
    forall z | z in v'.own ensures Fits(hdr', slabs', z, v'.own[z]) {
      if z != y { assert Fits(hdr, slabs, z, v.own[z]); }
    }
  }

  lemma CarveKeepsBlock(hdr: map<int, Header>, slabs: map<int, Slab>, hdr': map<int, Header>, slabs': map<int, Slab>, b: int, z: int)
    requires z in hdr && z in hdr' && hdr'[z] == hdr[z] && BlockOk(hdr, slabs, z)
    requires b in slabs && slabs' == slabs[b := OneCarved(slabs[b])]
    ensures BlockOk(hdr', slabs', z)
  {
    hide BlockAt;
    var c := hdr[z].slab;
    var j: nat :| j < slabs[c].nextNew && z == BlockAt(c, slabs[c].cls, j);
    assert j < slabs'[c].nextNew;
  }

  lemma CarveSlabs(hdr: map<int, Header>, slabs: map<int, Slab>, v: View, b: int, y: int, v': View)
    requires Slabs(hdr, slabs, v) && b in slabs && slabs[b].nextNew < slabs[b].total && y !in hdr
    requires forall c {:trigger Items(v', SlabFree(c))} :: Items(v', SlabFree(c)) == Items(v, SlabFree(c))
    ensures Slabs(hdr[y := Header(b, slabs[b].cls)], slabs[b := OneCarved(slabs[b])], v')
  {
    var hdr', slabs' := hdr[y := Header(b, slabs[b].cls)], slabs[b := OneCarved(slabs[b])];
    hide SlabOk;
    forall c | c in slabs' ensures SlabOk(hdr', slabs', v', c) {
      CarveSlab(hdr, slabs, v, b, y, v', c);
    }
  }

  lemma CarveSlab(hdr: map<int, Header>, slabs: map<int, Slab>, v: View, b: int, y: int, v': View, c: int)
    requires c in slabs && SlabOk(hdr, slabs, v, c) && b in slabs && slabs[b].nextNew < slabs[b].total && y !in hdr
    requires Items(v', SlabFree(c)) == Items(v, SlabFree(c))
    ensures SlabOk(hdr[y := Header(b, slabs[b].cls)], slabs[b := OneCarved(slabs[b])], v', c)
  {
    hide SlabBytes, SlabBlocks, Items;
    CarvedMore(hdr, b, slabs[b].cls, y, c);
    hide Carved;
  }

  lemma CarvedMore(hdr: map<int, Header>, b: int, cls: nat, y: int, c: int)
    requires y !in hdr
    ensures Carved(hdr[y := Header(b, cls)], c) == if c == b then Carved(hdr, b) + {y} else Carved(hdr, c)
    ensures y !in Carved(hdr, b)
  {
  }

  lemma CarveCore(mem: Mem, hdr: map<int, Header>, slabs: map<int, Slab>, live: set<int>, v: View, b: int, result: ListId, junk: int)
    requires Core(mem, hdr, slabs, live, v) && b in slabs && result.Local? && slabs[b].nextNew < slabs[b].total
    ensures var y := BlockAt(b, slabs[b].cls, slabs[b].nextNew);
            var mem1 := mem.(next := mem.next[y := junk]);
            && Plausible(y) && y !in hdr
            && Core(Append(mem1, result, Last(Items(v, result)), y), hdr[y := Header(b, slabs[b].cls)],
                    slabs[b := OneCarved(slabs[b])], live, VAppend(mem1, v, result, y))
  {
    hide Core, Rep, Slabs, VAppend, Apart, BlockAt, Append, BlockOk, Fits;
    CoreParts(mem, hdr, slabs, live, v);
    CarveIsFresh(mem, hdr, slabs, live, v, b);
    var y := BlockAt(b, slabs[b].cls, slabs[b].nextNew);
    CarveRep(mem, v, result, y, junk);
    var mem1 := mem.(next := mem.next[y := junk]);
    var mem' := Append(mem1, result, Last(Items(v, result)), y);
    CarveBlocks(mem, hdr, slabs, live, v, b, result, mem1, mem');
    CarveSlabs(hdr, slabs, v, b, y, VAppend(mem1, v, result, y));
    TakeApart(slabs, b, OneCarved(slabs[b]));
    CoreIntro(mem', hdr[y := Header(b, slabs[b].cls)], slabs[b := OneCarved(slabs[b])], live, VAppend(mem1, v, result, y));
  }

  // ----- The extraction steps -----------------------------------------------

  lemma TookThread(t: nat, v: View, v': View, tails: map<ListId, int>, count: map<ListId, int>, keys: map<int, Key>,
                   keys': map<int, Key>, c: nat, target: nat, got: nat, b: int, tl: int, y: int)
    requires ThreadOk(ExtractFrom(c, target, got, b, tl), t, v, tails, count, keys) && got < target
    requires forall l {:trigger Items(v', l)} :: l != Local(t, Result) && !l.SlabFree? ==> Items(v', l) == Items(v, l)
    requires forall l {:trigger End(v', l)} :: l != Local(t, Result) ==> End(v', l) == End(v, l)
    requires Items(v', Local(t, Result)) == Items(v, Local(t, Result)) + [y]
    requires y in keys' && keys'[y].cls == c
    requires forall z {:trigger z in Items(v, Local(t, Result))} :: z in Items(v, Local(t, Result)) && z in keys ==>
               z in keys' && keys'[z] == keys[z]
    ensures ThreadOk(ExtractFrom(c, target, got + 1, b, y), t, v', tails, count, keys')
  {
    var pc, pc' := ExtractFrom(c, target, got, b, tl), ExtractFrom(c, target, got + 1, b, y);
    forall d ensures BinOk(pc', t, v', count, d) {
      assert BinOk(pc, t, v, count, d);
    }
    forall r, z {:trigger z in Items(v', Local(t, r))} | z in Items(v', Local(t, r))
      ensures z in keys' && InReg(pc', t, r, keys'[z])
    {
      assert r == Result;
      assert z == y || z in Items(v, Local(t, Result));
    }
    forall r {:trigger Items(v', Local(t, r))} | !Uses(pc', r) ensures Items(v', Local(t, r)) == [] {
      assert Items(v, Local(t, r)) == [];
    }
    forall r {:trigger End(v', Local(t, r))} | !Floating(pc', r) ensures End(v', Local(t, r)) == 0 {
      assert End(v, Local(t, r)) == 0;
    }
  }

  /** The slab stays on the partial list while blocks are taken out. */
  lemma TookLists(slabs: map<int, Slab>, partial: map<Key, seq<int>>, full: map<Key, seq<int>>,
                  locks: map<Key, nat>, pcs: map<nat, Pc>, pcs': map<nat, Pc>, t: nat, k: Key, b: int, slab': Slab)
    requires SlabLists(slabs, partial, full, locks, pcs) && LocksOk(locks, pcs) && PcsKept(pcs, pcs', t)
    requires b in slabs && SlabKey(slabs[b]) == k && SlabKey(slab') == k && k in locks && locks[k] == t
    requires PcIn(pcs, t).ExtractFrom? && PcIn(pcs, t).slab == b
    requires PcIn(pcs', t).ExtractFrom? && PcIn(pcs', t).slab == b && ExtractOk(slabs[b := slab'], PcIn(pcs', t), t)
    ensures SlabLists(slabs[b := slab'], partial, full, locks, pcs')
  {
    var slabs' := slabs[b := slab'];
    assert Busy(slabs, locks, pcs, b) && Busy(slabs', locks, pcs', b);
    assert Listed(slabs, partial, full, locks, pcs, b);
    assert ListOk(slabs, In(partial, k), k) && ListOk(slabs, In(full, k), k);
    forall c | c in slabs && c != b ensures Busy(slabs, locks, pcs', c) == Busy(slabs, locks, pcs, c) {
      BusyElsewhere(slabs, locks, pcs, locks, pcs', t, b, c);
    }
    forall t': nat {:trigger PcIn(pcs', t')} ensures ExtractOk(slabs', PcIn(pcs', t'), t') {
      assert t' == t || ExtractOk(slabs, PcIn(pcs, t'), t');
      if t' != t && PcIn(pcs, t').ExtractFrom? { ExtractsElsewhere(slabs, locks, pcs, t, k, t'); }
    }
    ListsAt(slabs, partial, full, locks, pcs, slabs', partial, full, locks, pcs', k, b);
  }

  lemma TookOthers(h: Heap, v: View, h': Heap, v': View, t: nat)
    requires forall l {:trigger Items(v', l)} :: l != Local(t, Result) && !l.SlabFree? ==> Items(v', l) == Items(v, l)
    requires forall l {:trigger End(v', l)} :: l != Local(t, Result) ==> End(v', l) == End(v, l)
    requires h'.tails == h.tails && h'.count == h.count && h'.pcs == h.pcs[t := PcIn(h'.pcs, t)]
    ensures OthersKept(h, v, h', v', t)
  {
  }

  /** What a thread knows when it extracts: the lock, the slab and the batch. */
  lemma ExtractFacts(h: Heap, v: View, t: nat, c: nat, target: nat, got: nat, b: int, tl: int)
    requires Inv(h, v) && PcOf(h, t) == ExtractFrom(c, target, got, b, tl)
    ensures var k := Key(Home(t), c);
            && b in h.slabs && SlabKey(h.slabs[b]) == k && k in h.locks && h.locks[k] == t
            && TargetOk(c, target, got) && got == |Items(v, Local(t, Result))| && tl == Last(Items(v, Local(t, Result)))
            && 0 <= h.slabs[b].freeBlocks <= h.slabs[b].total
            && (if got > 0 then h.slabs[b].freeBlocks < h.slabs[b].total else h.slabs[b].freeBlocks > 0)
  {
    hide Inv, Core, Threads, ThreadOk, LocksOk;
    InvParts(h, v);
    PcIsOk(h, v, t);
    HeldBy(h.locks, h.pcs, t, Key(Home(t), c));
    assert ExtractOk(h.slabs, PcIn(h.pcs, t), t);
    FreeAtMostTotal(h.mem, h.hdr, h.slabs, h.live, v, b);
  }

  /** A step that appended block `y` of slab `b` to the batch keeps the invariant. */
  lemma TookInv(h: Heap, v: View, t: nat, c: nat, target: nat, got: nat, b: int, tl: int,
                h': Heap, v': View, y: int, slab': Slab)
    requires Inv(h, v) && PcOf(h, t) == ExtractFrom(c, target, got, b, tl) && got < target
    requires b in h.slabs && h.slabs[b].freeBlocks > 0
    requires Core(h'.mem, h'.hdr, h'.slabs, h'.live, v')
    requires forall l {:trigger Items(v', l)} :: l != Local(t, Result) && !l.SlabFree? ==> Items(v', l) == Items(v, l)
    requires forall l {:trigger End(v', l)} :: l != Local(t, Result) ==> End(v', l) == End(v, l)
    requires Items(v', Local(t, Result)) == Items(v, Local(t, Result)) + [y]
    requires y in KeyMap(h'.hdr, h'.slabs) && KeyMap(h'.hdr, h'.slabs)[y].cls == c
    requires forall z {:trigger z in KeyMap(h'.hdr, h'.slabs)} :: z in KeyMap(h.hdr, h.slabs) ==>
               z in KeyMap(h'.hdr, h'.slabs) && KeyMap(h'.hdr, h'.slabs)[z] == KeyMap(h.hdr, h.slabs)[z]
    requires h'.slabs == h.slabs[b := slab'] && SlabKey(slab') == SlabKey(h.slabs[b])
    requires slab'.freeBlocks == h.slabs[b].freeBlocks - 1 && slab'.total == h.slabs[b].total
    requires h'.partial == h.partial && h'.full == h.full && h'.locks == h.locks
    requires h'.tails == h.tails && h'.count == h.count
    requires h'.pcs == h.pcs[t := ExtractFrom(c, target, got + 1, b, y)]
    ensures Inv(h', v')
  {
    hide Inv, Core, Threads, ThreadOk, LocksOk, SlabLists, Separate, KeyMap, OthersKept;
    var k, pc' := Key(Home(t), c), ExtractFrom(c, target, got + 1, b, y);
    var keys, keys' := KeyMap(h.hdr, h.slabs), KeyMap(h'.hdr, h'.slabs);
    ExtractFacts(h, v, t, c, target, got, b, tl);
    InvParts(h, v);
    ThreadPart(h, v, t);
    TookThread(t, v, v', h.tails, h.count, keys, keys', c, target, got, b, tl, y);
    TookOthers(h, v, h', v', t);
    assert KeysKept(keys, v, keys');
    ThreadsFrame(h, v, h', v', t);
    LocksSame(h.locks, h.pcs, t, pc');
    PcsOfOthers(h, v, h', v', t);
    TookLists(h.slabs, h.partial, h.full, h.locks, h.pcs, h'.pcs, t, k, b, slab');
    InvIntro(h', v');
  }

  /** A block of the slab's free list joins the batch. */
  lemma ExtractTakes(h: Heap, v: View, t: nat, c: nat, target: nat, got: nat, b: int, tl: int, junk: int)
    requires Inv(h, v) && PcOf(h, t) == ExtractFrom(c, target, got, b, tl) && got < target
    requires b in h.slabs && h.slabs[b].freeBlocks > 0 && |Items(v, SlabFree(b))| > 0
    ensures Items(v, SlabFree(b))[0] in h.mem.next
    ensures StepExtractFrom(h, t, c, target, got, b, tl, junk).Ok?
    ensures Inv(StepExtractFrom(h, t, c, target, got, b, tl, junk).heap, VTake(h.mem, v, b, Local(t, Result)))
  {
    hide Inv, Core, VTake, TakeMem, KeyMap;
    var result, y := Local(t, Result), Items(v, SlabFree(b))[0];
    var slab' := h.slabs[b].(freeBlocks := h.slabs[b].freeBlocks - 1);
    ExtractFacts(h, v, t, c, target, got, b, tl);
    InvParts(h, v);
    TakeCore(h.mem, h.hdr, h.slabs, h.live, v, b, result);
    TakenBlock(h, v, b);
    KeyMapSame(h.hdr, h.slabs, b, slab');
    var h' := h.(mem := TakeMem(h.mem, b, result, tl), slabs := h.slabs[b := slab'],
                 pcs := h.pcs[t := ExtractFrom(c, target, got + 1, b, y)]);
    TakeComputes(h, t, c, target, got, b, tl, junk);
    TookInv(h, v, t, c, target, got, b, tl, h', VTake(h.mem, v, b, result), y, slab');
  }

  lemma TakeComputes(h: Heap, t: nat, c: nat, target: nat, got: nat, b: int, tl: int, junk: int)
    requires b in h.slabs && h.slabs[b].freeBlocks > 0 && got < target
    requires Head(h.mem, SlabFree(b)) in h.mem.next && Plausible(Head(h.mem, SlabFree(b)))
    ensures var y := Head(h.mem, SlabFree(b));
            StepExtractFrom(h, t, c, target, got, b, tl, junk)
            == Ok(h.(mem := TakeMem(h.mem, b, Local(t, Result), tl),
                     slabs := h.slabs[b := h.slabs[b].(freeBlocks := h.slabs[b].freeBlocks - 1)],
                     pcs := h.pcs[t := ExtractFrom(c, target, got + 1, b, y)]))
  {
  }

  lemma TakenBlock(h: Heap, v: View, b: int)
    requires Core(h.mem, h.hdr, h.slabs, h.live, v) && |Items(v, SlabFree(b))| > 0
    ensures var y := Items(v, SlabFree(b))[0];
            && Plausible(y) && y in KeyMap(h.hdr, h.slabs) && b in h.slabs
            && KeyMap(h.hdr, h.slabs)[y].cls == h.slabs[b].cls
  {
    hide Core, KeyMap;
    var y := Items(v, SlabFree(b))[0];
    assert y in Items(v, SlabFree(b));
    ListBlocks(h.mem, h.hdr, h.slabs, h.live, v, SlabFree(b));
    SlabOfBlock(h.mem, h.hdr, h.slabs, h.live, v, y);
  }

  /** A virgin block is carved and joins the batch. */
  lemma ExtractCarves(h: Heap, v: View, t: nat, c: nat, target: nat, got: nat, b: int, tl: int, junk: int)
    requires Inv(h, v) && PcOf(h, t) == ExtractFrom(c, target, got, b, tl) && got < target
    requires b in h.slabs && h.slabs[b].freeBlocks > 0 && Items(v, SlabFree(b)) == []
    ensures var y := BlockAt(b, c, h.slabs[b].nextNew);
            && StepExtractFrom(h, t, c, target, got, b, tl, junk).Ok?
            && Inv(StepExtractFrom(h, t, c, target, got, b, tl, junk).heap,
                   VAppend(h.mem.(next := h.mem.next[y := junk]), v, Local(t, Result), y))
  {
    hide Inv, Core, VAppend, KeyMap, BlockAt, Append, SlabOk;
    var result, y := Local(t, Result), BlockAt(b, c, h.slabs[b].nextNew);
    ExtractFacts(h, v, t, c, target, got, b, tl);
    InvParts(h, v);
    VirginLeft(h, v, b);
    CarveCore(h.mem, h.hdr, h.slabs, h.live, v, b, result, junk);
    var mem1 := h.mem.(next := h.mem.next[y := junk]);
    var hdr' := h.hdr[y := Header(b, c)];
    var h' := h.(mem := Append(mem1, result, tl, y), hdr := hdr', slabs := h.slabs[b := OneCarved(h.slabs[b])],
                 pcs := h.pcs[t := ExtractFrom(c, target, got + 1, b, y)]);
    CarvedKeys(h.hdr, h.slabs, b, y);
    CarveComputes(h, t, c, target, got, b, tl, junk);
    TookInv(h, v, t, c, target, got, b, tl, h', VAppend(mem1, v, result, y), y, OneCarved(h.slabs[b]));
  }

  lemma CarveComputes(h: Heap, t: nat, c: nat, target: nat, got: nat, b: int, tl: int, junk: int)
    requires b in h.slabs && h.slabs[b].cls == c && h.slabs[b].freeBlocks > 0 && got < target
    requires Head(h.mem, SlabFree(b)) == 0 && h.slabs[b].nextNew < h.slabs[b].total
    requires Plausible(BlockAt(b, c, h.slabs[b].nextNew))
    ensures var y := BlockAt(b, c, h.slabs[b].nextNew);
            StepExtractFrom(h, t, c, target, got, b, tl, junk)
            == Ok(h.(mem := Append(h.mem.(next := h.mem.next[y := junk]), Local(t, Result), tl, y),
                     hdr := h.hdr[y := Header(b, c)], slabs := h.slabs[b := OneCarved(h.slabs[b])],
                     pcs := h.pcs[t := ExtractFrom(c, target, got + 1, b, y)]))
  {
    hide BlockAt, Append;
  }

  lemma VirginLeft(h: Heap, v: View, b: int)
    requires Core(h.mem, h.hdr, h.slabs, h.live, v) && b in h.slabs && h.slabs[b].freeBlocks > 0
    requires Items(v, SlabFree(b)) == []
    ensures h.slabs[b].nextNew < h.slabs[b].total && Head(h.mem, SlabFree(b)) == 0
  {
    SlabFacts(h.mem, h.hdr, h.slabs, h.live, v, b);
    ListBlocks(h.mem, h.hdr, h.slabs, h.live, v, SlabFree(b));
  }

  lemma CarvedKeys(hdr: map<int, Header>, slabs: map<int, Slab>, b: int, y: int)
    requires b in slabs && y !in hdr
    ensures var keys, keys' := KeyMap(hdr, slabs), KeyMap(hdr[y := Header(b, slabs[b].cls)], slabs[b := OneCarved(slabs[b])]);
            && y in keys' && keys'[y].cls == slabs[b].cls
            && forall z {:trigger z in keys'} :: z in keys ==> z in keys' && keys'[z] == keys[z]
  {
  }

  // ----- The end of an extraction -------------------------------------------

  /** A slab that ran out goes to the full list, any other one stays partial. */
  lemma EndLists(slabs: map<int, Slab>, partial: map<Key, seq<int>>, full: map<Key, seq<int>>,
                 locks: map<Key, nat>, pcs: map<nat, Pc>, pcs': map<nat, Pc>, t: nat, k: Key, b: int)
    requires SlabLists(slabs, partial, full, locks, pcs) && LocksOk(locks, pcs) && PcsKept(pcs, pcs', t)
    requires b in slabs && SlabKey(slabs[b]) == k && k in locks && locks[k] == t
    requires PcIn(pcs, t).ExtractFrom? && PcIn(pcs, t).slab == b && !PcIn(pcs', t).ExtractFrom?
    requires slabs[b].freeBlocks == 0 || slabs[b].freeBlocks < slabs[b].total
    ensures if slabs[b].freeBlocks == 0
            then SlabLists(slabs, partial[k := Without(In(partial, k), b)], full[k := [b] + In(full, k)], locks - {k}, pcs')
            else SlabLists(slabs, partial, full, locks - {k}, pcs')
  {
    var locks' := locks - {k};
    var ends := slabs[b].freeBlocks == 0;
    var partial' := if ends then partial[k := Without(In(partial, k), b)] else partial;
    var full' := if ends then full[k := [b] + In(full, k)] else full;
    assert Busy(slabs, locks, pcs, b) && !Busy(slabs, locks', pcs', b);
    assert Listed(slabs, partial, full, locks, pcs, b);
    assert ListOk(slabs, In(partial, k), k) && ListOk(slabs, In(full, k), k);
    WithoutMembers(In(partial, k), b);
    LocksKeptBy(locks, t, k);
    forall c | c in slabs && c != b ensures Busy(slabs, locks', pcs', c) == Busy(slabs, locks, pcs, c) {
      BusyElsewhere(slabs, locks, pcs, locks', pcs', t, b, c);
    }
    forall t': nat {:trigger PcIn(pcs', t')} ensures ExtractOk(slabs, PcIn(pcs', t'), t') {
      assert t' == t || ExtractOk(slabs, PcIn(pcs, t'), t');
    }
    assert OnlySlab(slabs, partial, full, slabs, partial', full', k, b);
    ListsAt(slabs, partial, full, locks, pcs, slabs, partial', full', locks', pcs', k, b);
  }

  lemma EndThread(t: nat, v: View, tails: map<ListId, int>, count: map<ListId, int>, keys: map<int, Key>,
                  c: nat, target: nat, got: nat, b: int, tl: int)
    requires ThreadOk(ExtractFrom(c, target, got, b, tl), t, v, tails, count, keys)
    ensures ThreadOk(Finish(c, got), t, VRelink(v, Local(t, Result), 0), tails, count, keys)
  {
    hide VRelink;
    var pc, pc', v' := ExtractFrom(c, target, got, b, tl), Finish(c, got), VRelink(v, Local(t, Result), 0);
    forall d ensures BinOk(pc', t, v', count, d) {
      assert BinOk(pc, t, v, count, d);
    }
    forall r, y {:trigger y in Items(v', Local(t, r))} | y in Items(v', Local(t, r))
      ensures y in keys && InReg(pc', t, r, keys[y])
    {
      assert y in Items(v, Local(t, r));
    }
    forall r {:trigger End(v', Local(t, r))} ensures End(v', Local(t, r)) == 0 {
      assert r == Result || End(v, Local(t, r)) == 0;
    }
  }

  lemma EndCore(mem: Mem, hdr: map<int, Header>, slabs: map<int, Slab>, live: set<int>, v: View, l: ListId)
    requires Core(mem, hdr, slabs, live, v) && l.Local? && |Items(v, l)| > 0
    ensures Last(Items(v, l)) != 0
    ensures Core(Relink(mem, Last(Items(v, l)), 0), hdr, slabs, live, VRelink(v, l, 0))
  {
    hide Core, Rep, VRelink, KeyMap, Chain;
    CoreRep(mem, hdr, slabs, live, v);
    LastMapped(mem, v, l);
    KeyFits(mem, hdr, slabs, live, v, l, l);
    RelinkCore(mem, hdr, slabs, live, v, l, 0);
  }

  /** The heap after an extraction ended. */
  function Ended(h: Heap, t: nat, c: nat, got: nat, b: int, tl: int): Heap
    requires b in h.slabs
  {
    var k := Key(Home(t), c);
    var h1 := h.(mem := Relink(h.mem, tl, 0), locks := h.locks - {k}, pcs := h.pcs[t := Finish(c, got)]);
    if h.slabs[b].freeBlocks == 0
    then h1.(partial := h.partial[k := Without(In(h.partial, k), b)], full := h.full[k := [b] + In(h.full, k)])
    else h1
  }

  lemma ExtractEnds(h: Heap, v: View, t: nat, c: nat, target: nat, got: nat, b: int, tl: int, junk: int)
    requires Inv(h, v) && PcOf(h, t) == ExtractFrom(c, target, got, b, tl)
    requires b in h.slabs && !(got < target && h.slabs[b].freeBlocks != 0)
    ensures StepExtractFrom(h, t, c, target, got, b, tl, junk).Ok?
    ensures Inv(StepExtractFrom(h, t, c, target, got, b, tl, junk).heap, VRelink(v, Local(t, Result), 0))
  {
    hide Inv, Core, Threads, ThreadOk, LocksOk, SlabLists, Separate, KeyMap, OthersKept, VRelink, SlabAllocate, Ended;
    var k, result := Key(Home(t), c), Local(t, Result);
    ExtractFacts(h, v, t, c, target, got, b, tl);
    InvParts(h, v);
    ThreadPart(h, v, t);
    EndCore(h.mem, h.hdr, h.slabs, h.live, v, result);
    EndThread(t, v, h.tails, h.count, KeyMap(h.hdr, h.slabs), c, target, got, b, tl);
    var h' := Ended(h, t, c, got, b, tl);
    EndedParts(h, t, c, got, b, tl);
    EndComputes(h, t, c, target, got, b, tl, junk);
    RelinkOthers(h, v, h', t, Result, 0);
    KeysSame(KeyMap(h.hdr, h.slabs), v);
    ThreadsFrame(h, v, h', VRelink(v, result, 0), t);
    HeldBy(h.locks, h.pcs, t, k);
    LocksRelease(h.locks, h.pcs, t, Finish(c, got), k);
    PcsOfOthers(h, v, h', VRelink(v, result, 0), t);
    EndLists(h.slabs, h.partial, h.full, h.locks, h.pcs, h'.pcs, t, k, b);
    InvIntro(h', VRelink(v, result, 0));
  }

  lemma EndedParts(h: Heap, t: nat, c: nat, got: nat, b: int, tl: int)
    requires b in h.slabs
    ensures var k, h' := Key(Home(t), c), Ended(h, t, c, got, b, tl);
            && h'.mem == Relink(h.mem, tl, 0) && h'.hdr == h.hdr && h'.slabs == h.slabs && h'.live == h.live
            && h'.locks == h.locks - {k} && h'.pcs == h.pcs[t := Finish(c, got)] && h'.tails == h.tails && h'.count == h.count
            && (if h.slabs[b].freeBlocks == 0
                then h'.partial == h.partial[k := Without(In(h.partial, k), b)] && h'.full == h.full[k := [b] + In(h.full, k)]
                else h'.partial == h.partial && h'.full == h.full)
  {
  }

  lemma EndComputes(h: Heap, t: nat, c: nat, target: nat, got: nat, b: int, tl: int, junk: int)
    requires b in h.slabs && !(got < target && h.slabs[b].freeBlocks != 0) && tl != 0
    ensures StepExtractFrom(h, t, c, target, got, b, tl, junk) == Ok(Ended(h, t, c, got, b, tl))
  {
  }

  lemma ExtractFromInv(h: Heap, v: View, t: nat, c: nat, target: nat, got: nat, b: int, tl: int, junk: int) returns (v': View)
    requires Inv(h, v) && PcOf(h, t) == ExtractFrom(c, target, got, b, tl)
    ensures StepExtractFrom(h, t, c, target, got, b, tl, junk).Ok?
    ensures Inv(StepExtractFrom(h, t, c, target, got, b, tl, junk).heap, v')
    ensures QueuesKept(v, v')
  {
    hide Inv, StepExtractFrom, VTake, VAppend, VRelink, BlockAt;
    var result := Local(t, Result);
    ExtractFacts(h, v, t, c, target, got, b, tl);
    if got < target && h.slabs[b].freeBlocks != 0 {
      if |Items(v, SlabFree(b))| > 0 {
        ExtractTakes(h, v, t, c, target, got, b, tl, junk);
        v' := VTake(h.mem, v, b, result);
      } else {
        ExtractCarves(h, v, t, c, target, got, b, tl, junk);
        var y := BlockAt(b, c, h.slabs[b].nextNew);
        v' := VAppend(h.mem.(next := h.mem.next[y := junk]), v, result, y);
      }
    } else {
      ExtractEnds(h, v, t, c, target, got, b, tl, junk);
      v' := VRelink(v, result, 0);
    }
  }
}
