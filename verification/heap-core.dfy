/** What each list operation does to the blocks, the slabs and the lists. */
module HeapCore {
  import opened Config
  import opened Links
  import opened Heap
  import opened HeapInvariant
  import opened HeapFrames

  /** Moving a whole list keeps the core, if its blocks may be on the new list. */
  lemma MoveCore(mem: Mem, hdr: map<int, Header>, slabs: map<int, Slab>, live: set<int>, v: View, l: ListId, l': ListId)
    requires Core(mem, hdr, slabs, live, v)
    requires l != l' && !l.SlabFree? && !l'.SlabFree?
    requires Items(v, l') == [] && End(v, l) == 0 && End(v, l') == 0
    requires forall y :: y in Items(v, l) ==> y in hdr && hdr[y].slab in slabs && Fits(hdr, slabs, y, l')
    ensures Core(Move(mem, l, l'), hdr, slabs, live, VMove(v, l, l'))
  {
    hide Core, Rep, Fits;
    CoreRep(mem, hdr, slabs, live, v);
    MoveRep(mem, v, l, l');
    RerouteCore(mem, hdr, slabs, live, v, Move(mem, l, l'), VMove(v, l, l'), l, l');
  }

  lemma CoreRep(mem: Mem, hdr: map<int, Header>, slabs: map<int, Slab>, live: set<int>, v: View)
    requires Core(mem, hdr, slabs, live, v)
    ensures Rep(mem, v)
  {
  }

  lemma CutCore(mem: Mem, hdr: map<int, Header>, slabs: map<int, Slab>, live: set<int>, v: View,
                l: ListId, l': ListId, n: nat)
    requires Core(mem, hdr, slabs, live, v)
    requires l != l' && !l.SlabFree? && l'.Local?
    requires Items(v, l') == [] && End(v, l) == 0 && End(v, l') == 0
    requires 0 < n <= |Items(v, l)|
    requires forall y :: y in Items(v, l) ==> y in hdr && hdr[y].slab in slabs
    ensures Items(v, l)[n - 1] in mem.next
    ensures Core(Cut(mem, l, l', Items(v, l)[n - 1]), hdr, slabs, live, VCut(v, l, l', n))
  {
    hide Core, Rep;
    CoreRep(mem, hdr, slabs, live, v);
    CutRep(mem, v, l, l', n);
    assert mem.next[Items(v, l)[n - 1] := 0].Keys == mem.next.Keys;
    RerouteCore(mem, hdr, slabs, live, v, Cut(mem, l, l', Items(v, l)[n - 1]), VCut(v, l, l', n), l, l');
  }

  lemma RelinkCore(mem: Mem, hdr: map<int, Header>, slabs: map<int, Slab>, live: set<int>, v: View, l: ListId, p: int)
    requires Core(mem, hdr, slabs, live, v)
    requires l.Local? && |Items(v, l)| > 0
    requires forall y :: y in Items(v, l) ==> y in hdr && hdr[y].slab in slabs
    ensures Last(Items(v, l)) in mem.next
    ensures Core(Relink(mem, Last(Items(v, l)), p), hdr, slabs, live, VRelink(v, l, p))
  {
    hide Core, Rep;
    CoreRep(mem, hdr, slabs, live, v);
    LastMapped(mem, v, l);
    RelinkRep(mem, v, l, p);
    assert mem.next[Last(Items(v, l)) := p].Keys == mem.next.Keys;
    RerouteCore(mem, hdr, slabs, live, v, Relink(mem, Last(Items(v, l)), p), VRelink(v, l, p), l, l);
  }

  lemma LastMapped(mem: Mem, v: View, l: ListId)
    requires Rep(mem, v) && |Items(v, l)| > 0
    ensures Last(Items(v, l)) in mem.next && Last(Items(v, l)) != 0
  {
    assert Chain(mem.next, Head(mem, l), Items(v, l), End(v, l));
  }

  lemma SpliceCore(mem: Mem, hdr: map<int, Header>, slabs: map<int, Slab>, live: set<int>, v: View, l: ListId, l': ListId)
    requires Core(mem, hdr, slabs, live, v)
    requires l.Local? && l != l' && !l'.SlabFree? && |Items(v, l)| > 0
    requires End(v, l) == Head(mem, l') && End(v, l') == 0
    requires forall y :: y in Items(v, l) ==> y in hdr && hdr[y].slab in slabs && Fits(hdr, slabs, y, l')
    ensures Core(Splice(mem, l, l'), hdr, slabs, live, VSplice(v, l, l'))
  {
    hide Core, Rep, Fits;
    CoreRep(mem, hdr, slabs, live, v);
    SpliceRep(mem, v, l, l');
    RerouteCore(mem, hdr, slabs, live, v, Splice(mem, l, l'), VSplice(v, l, l'), l, l');
  }

  /** Every block on a list is mapped, plausible and of the list's kind. */
  lemma ListBlocks(mem: Mem, hdr: map<int, Header>, slabs: map<int, Slab>, live: set<int>, v: View, l: ListId)
    requires Core(mem, hdr, slabs, live, v)
    ensures forall y {:trigger y in Items(v, l)} :: y in Items(v, l) ==>
              && y in hdr && hdr[y].slab in slabs && y in mem.next
              && Fits(hdr, slabs, y, l) && Plausible(y)
    ensures Chain(mem.next, Head(mem, l), Items(v, l), End(v, l))
    ensures Head(mem, l) == 0 <==> |Items(v, l)| == 0 && End(v, l) == 0
  {
    forall y | y in Items(v, l)
      ensures y in hdr && hdr[y].slab in slabs && y in mem.next && Fits(hdr, slabs, y, l) && Plausible(y)
    {
      assert y in v.own && v.own[y] == l;
      assert BlockOk(hdr, slabs, y);
    }
    assert Chain(mem.next, Head(mem, l), Items(v, l), End(v, l));
  }

  lemma CoreParts(mem: Mem, hdr: map<int, Header>, slabs: map<int, Slab>, live: set<int>, v: View)
    requires Core(mem, hdr, slabs, live, v)
    ensures Rep(mem, v) && Blocks(mem, hdr, slabs, live, v) && Slabs(hdr, slabs, v) && Apart(slabs) && Ends(v)
  {
  }

  lemma CoreIntro(mem: Mem, hdr: map<int, Header>, slabs: map<int, Slab>, live: set<int>, v: View)
    requires Rep(mem, v) && Blocks(mem, hdr, slabs, live, v) && Slabs(hdr, slabs, v) && Apart(slabs) && Ends(v)
    ensures Core(mem, hdr, slabs, live, v)
  {
  }

  lemma SlabsFrame(hdr: map<int, Header>, slabs: map<int, Slab>, v: View, v': View)
    requires Slabs(hdr, slabs, v)
    requires forall b {:trigger Items(v', SlabFree(b))} :: Items(v', SlabFree(b)) == Items(v, SlabFree(b))
    ensures Slabs(hdr, slabs, v')
  {
    forall b | b in slabs ensures SlabOk(hdr, slabs, v', b) {
      assert SlabOk(hdr, slabs, v, b);
    }
  }

  lemma PopBlocks(mem: Mem, hdr: map<int, Header>, slabs: map<int, Slab>, live: set<int>, v: View, l: ListId)
    requires Blocks(mem, hdr, slabs, live, v)
    requires |Items(v, l)| > 0 && Items(v, l)[0] in v.own && Head(mem, l) in mem.next
    ensures Blocks(Pop(mem, l), hdr, slabs, live + {Items(v, l)[0]}, VPop(v, l))
  {
    hide BlockOk, Fits;
    assert VPop(v, l).own.Keys == v.own.Keys - {Items(v, l)[0]};
  }

  lemma FirstOwned(mem: Mem, v: View, l: ListId)
    requires Rep(mem, v) && |Items(v, l)| > 0
    ensures Items(v, l)[0] in v.own && v.own[Items(v, l)[0]] == l
  {
    assert Items(v, l)[0] in Items(v, l);
  }

  /** The first block of a list goes to the client. */
  lemma PopCore(mem: Mem, hdr: map<int, Header>, slabs: map<int, Slab>, live: set<int>, v: View, l: ListId)
    requires Core(mem, hdr, slabs, live, v)
    requires !l.SlabFree? && |Items(v, l)| > 0
    ensures Head(mem, l) == Items(v, l)[0] && Head(mem, l) in mem.next && Head(mem, l) !in live
    ensures Core(Pop(mem, l), hdr, slabs, live + {Head(mem, l)}, VPop(v, l))
  {
    hide Core, Rep, Slabs, Apart, BlockOk, Fits;
    CoreParts(mem, hdr, slabs, live, v);
    PopRep(mem, v, l);
    FirstOwned(mem, v, l);
    PopBlocks(mem, hdr, slabs, live, v, l);
    SlabsFrame(hdr, slabs, v, VPop(v, l));
    CoreIntro(Pop(mem, l), hdr, slabs, live + {Head(mem, l)}, VPop(v, l));
  }

  lemma PushBlocks(mem: Mem, hdr: map<int, Header>, slabs: map<int, Slab>, live: set<int>, v: View, l: ListId, y: int)
    requires Blocks(mem, hdr, slabs, live, v)
    requires y in live && hdr[y].slab in slabs && Fits(hdr, slabs, y, l)
    ensures Blocks(Push(mem, l, y), hdr, slabs, live - {y}, VPush(v, l, y))
    ensures y !in v.own && y != 0
  {
    assert BlockOk(hdr, slabs, y);
    hide BlockOk, Fits;
    assert VPush(v, l, y).own.Keys == v.own.Keys + {y};
    assert mem.next[y := Head(mem, l)].Keys == mem.next.Keys;
  }

  /** A block the client gives back goes in front of a list that may hold it. */
  lemma PushCore(mem: Mem, hdr: map<int, Header>, slabs: map<int, Slab>, live: set<int>, v: View, l: ListId, y: int)
    requires Core(mem, hdr, slabs, live, v)
    requires !l.SlabFree? && !l.Local? && y in live
    requires y in hdr && hdr[y].slab in slabs && Fits(hdr, slabs, y, l)
    ensures Core(Push(mem, l, y), hdr, slabs, live - {y}, VPush(v, l, y))
  {
    hide Core, Rep, Slabs, Apart, BlockOk, Fits;
    CoreParts(mem, hdr, slabs, live, v);
    PushBlocks(mem, hdr, slabs, live, v, l, y);
    PushRep(mem, v, l, y);
    SlabsFrame(hdr, slabs, v, VPush(v, l, y));
    CoreIntro(Push(mem, l, y), hdr, slabs, live - {y}, VPush(v, l, y));
  }

  /** The client writes into a block of its own. */
  lemma WriteCore(mem: Mem, hdr: map<int, Header>, slabs: map<int, Slab>, live: set<int>, v: View, y: int, value: int)
    requires Core(mem, hdr, slabs, live, v) && y in live
    ensures Core(mem.(next := mem.next[y := value]), hdr, slabs, live, v)
  {
    WriteRep(mem, v, y, value);
    assert mem.next[y := value].Keys == mem.next.Keys;
    hide Rep, Chain, Apart;
    CoreFrame(mem, hdr, slabs, live, v, mem.(next := mem.next[y := value]), v);
  }

  /** Blocks of a shared list have the list's class and arena. */
  lemma ListKeys(mem: Mem, hdr: map<int, Header>, slabs: map<int, Slab>, live: set<int>, v: View, l: ListId)
    requires Core(mem, hdr, slabs, live, v)
    ensures forall y {:trigger y in Items(v, l)} :: y in Items(v, l) ==> y in KeyMap(hdr, slabs)
    ensures forall y {:trigger y in Items(v, l)} :: y in Items(v, l) && l.Bin? ==> KeyMap(hdr, slabs)[y].cls == l.cls
    ensures forall y {:trigger y in Items(v, l)} :: y in Items(v, l) && l.Pending? ==>
              KeyMap(hdr, slabs)[y] == Key(l.arena, l.cls)
  {
    ListBlocks(mem, hdr, slabs, live, v, l);
    hide Core;
  }

  /** Blocks of one arena and class may be pushed onto its pending queue. */
  lemma KeyFits(mem: Mem, hdr: map<int, Header>, slabs: map<int, Slab>, live: set<int>, v: View, l: ListId, l': ListId)
    requires Core(mem, hdr, slabs, live, v)
    requires l'.Pending? ==> forall y :: y in Items(v, l) ==>
               y in KeyMap(hdr, slabs) && KeyMap(hdr, slabs)[y] == Key(l'.arena, l'.cls)
    requires l'.Bin? ==> forall y :: y in Items(v, l) ==> y in KeyMap(hdr, slabs) && KeyMap(hdr, slabs)[y].cls == l'.cls
    requires !l'.SlabFree?
    ensures forall y :: y in Items(v, l) ==> y in hdr && hdr[y].slab in slabs && Fits(hdr, slabs, y, l')
  {
    ListBlocks(mem, hdr, slabs, live, v, l);
    hide Core;
  }

  /** A block of the client is mapped, plausible, and laid out in a slab of its class. */
  lemma LiveBlock(mem: Mem, hdr: map<int, Header>, slabs: map<int, Slab>, live: set<int>, v: View, y: int)
    requires Core(mem, hdr, slabs, live, v) && y in live
    ensures y in hdr && Plausible(y) && y in mem.next && hdr[y].slab in slabs && hdr[y].cls < NUM_SIZE_CLASSES
  {
    assert BlockOk(hdr, slabs, y);
    assert SlabOk(hdr, slabs, v, hdr[y].slab);
  }

  lemma EndsAt(mem: Mem, hdr: map<int, Header>, slabs: map<int, Slab>, live: set<int>, v: View, l: ListId)
    requires Core(mem, hdr, slabs, live, v) && !l.Local?
    ensures End(v, l) == 0
  {
  }

  /** The head of a list is not a block of the client. */
  lemma NotOnList(mem: Mem, hdr: map<int, Header>, slabs: map<int, Slab>, live: set<int>, v: View, l: ListId, y: int)
    requires Core(mem, hdr, slabs, live, v) && y in live && End(v, l) == 0
    ensures Head(mem, l) != y && y !in Items(v, l)
  {
    assert BlockOk(hdr, slabs, y);
    assert Chain(mem.next, Head(mem, l), Items(v, l), End(v, l));
    if |Items(v, l)| > 0 {
      assert Items(v, l)[0] in Items(v, l);
    }
  }

  // ----- Moving one block to the end of another list ------------------------

  /** Take the first block of `l` and make it the last one of `l'`, ending in null. */
  function Shift(mem: Mem, l: ListId, l': ListId, tl: int): Mem
    requires Head(mem, l) in mem.next
  {
    Relink(Append(Pop(mem, l), l', tl, Head(mem, l)), Head(mem, l), 0)
  }

  function VShift(mem: Mem, v: View, l: ListId, l': ListId): (v': View)
    requires |Items(v, l)| > 0 && Items(v, l)[0] in mem.next
    ensures forall k {:trigger Items(v', k)} :: k != l && k != l' ==> Items(v', k) == Items(v, k)
    ensures forall k {:trigger End(v', k)} :: k != l' ==> End(v', k) == End(v, k)
    ensures l != l' ==> Items(v', l) == Items(v, l)[1..] && Items(v', l') == Items(v, l') + [Items(v, l)[0]] && End(v', l') == 0
  {
    VRelink(VAppend(mem, VPop(v, l), l', Items(v, l)[0]), l', 0)
  }

  lemma ShiftRep(mem: Mem, v: View, l: ListId, l': ListId)
    requires Rep(mem, v) && l != l' && |Items(v, l)| > 0
    ensures Head(mem, l) == Items(v, l)[0] && Head(mem, l) in mem.next
    ensures Rep(Shift(mem, l, l', Last(Items(v, l'))), VShift(mem, v, l, l'))
    ensures Shift(mem, l, l', Last(Items(v, l'))).next.Keys == mem.next.Keys
  {
    hide Rep;
    PopRep(mem, v, l);
    if |Items(v, l')| > 0 { LastMapped(mem, v, l'); }
    var p := Items(v, l)[0];
    var m1, v1 := Pop(mem, l), VPop(v, l);
    assert Items(v1, l') == Items(v, l');
    AppendRep(m1, v1, l', p);
    RelinkRep(Append(m1, l', Last(Items(v1, l')), p), VAppend(m1, v1, l', p), l', 0);
  }

  lemma VShiftRerouted(mem: Mem, v: View, l: ListId, l': ListId)
    requires Separate(v) && l != l' && |Items(v, l)| > 0 && Items(v, l)[0] in mem.next && End(v, l') == 0
    ensures Rerouted(v, VShift(mem, v, l, l'), l, l')
  {
    assert Items(v, l)[0] in Items(v, l);
    assert VShift(mem, v, l, l').own.Keys == v.own.Keys;
  }

  lemma ShiftCore(mem: Mem, hdr: map<int, Header>, slabs: map<int, Slab>, live: set<int>, v: View, l: ListId, l': ListId)
    requires Core(mem, hdr, slabs, live, v)
    requires l != l' && l.Local? && l'.Local? && |Items(v, l)| > 0 && End(v, l') == 0
    ensures Head(mem, l) == Items(v, l)[0] && Head(mem, l) in mem.next
    ensures Core(Shift(mem, l, l', Last(Items(v, l'))), hdr, slabs, live, VShift(mem, v, l, l'))
  {
    ListBlocks(mem, hdr, slabs, live, v, l);
    assert Separate(v);
    hide Core, Rep, Separate, VShift, Shift, Chain;
    CoreRep(mem, hdr, slabs, live, v);
    ShiftRep(mem, v, l, l');
    VShiftRerouted(mem, v, l, l');
    RerouteCore(mem, hdr, slabs, live, v, Shift(mem, l, l', Last(Items(v, l'))), VShift(mem, v, l, l'), l, l');
  }

  /** The slab a block's header names is a slab of a real arena at a plausible address. */
  lemma SlabOfBlock(mem: Mem, hdr: map<int, Header>, slabs: map<int, Slab>, live: set<int>, v: View, y: int)
    requires Core(mem, hdr, slabs, live, v) && y in hdr
    ensures hdr[y].slab in slabs && hdr[y].cls == slabs[hdr[y].slab].cls
    ensures Plausible(hdr[y].slab) && slabs[hdr[y].slab].arena < NUM_ARENAS && hdr[y].cls < NUM_SIZE_CLASSES
    ensures Plausible(y) && y in mem.next
    ensures y in KeyMap(hdr, slabs) && KeyMap(hdr, slabs)[y] == Key(slabs[hdr[y].slab].arena, hdr[y].cls)
  {
    assert BlockOk(hdr, slabs, y);
    assert SlabOk(hdr, slabs, v, hdr[y].slab);
    SlabHoldsABlock(hdr[y].cls);
  }

  lemma ListDistinct(mem: Mem, hdr: map<int, Header>, slabs: map<int, Slab>, live: set<int>, v: View, l: ListId)
    requires Core(mem, hdr, slabs, live, v)
    ensures NoDup(Items(v, l))
  {
  }
}
