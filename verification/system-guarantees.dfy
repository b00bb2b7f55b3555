/** The arena heap on the page heap, read as promises to the client: its runs are runs of both heaps, and no memory is given out twice. */
module SystemGuarantees {
  import opened Config
  import H = Heap
  import HI = HeapInvariant
  import HT = HeapTheorems
  import HG = HeapGuarantees
  import P = PageHeap
  import PI = PageHeapInvariant
  import PageHeapTiles
  import PT = PageHeapTheorems
  import opened System
  import opened SystemProofs
  import opened SystemTheorems

  // ----- Runs of the two heaps ----------------------------------------------------------

  /** At most one action of the arena heap, and a client's free only if that is what `act` is. */
  ghost predicate HeapMoves(h: H.Heap, h': H.Heap, act: Action) {
    h' == h || exists a :: H.Enabled(h, a) && H.Apply(h, a) == H.Ok(h') && (a.DoFree? ==> act == Call(a))
  }

  /** At most one action of the page heap. */
  ghost predicate PagesMove(p: P.State, p': P.State) {
    p' == p || exists a :: P.Enabled(p, a) && P.Apply(p, a) == p'
  }

  lemma StepEnabled(s: State, t: nat, ch: Choice)
    requires Sound(s) && Outside(s, t)
    ensures H.Enabled(s.heap, H.DoStep(t, H.Choice(ch.spurious, SpanFor(s, t), ch.junk)))
  {
    hide PT.Good, Accounted, HeapSound, HI.Inv, H.FreshSpan, InUserSpace;
    var v := SomeView(s.heap);
    if SpanFor(s, t) != 0 { GivenIsFresh(s, v, t); }
  }

  lemma HeapTurnMoves(s: State, t: nat, ch: Choice)
    requires Sound(s) && Outside(s, t) && HeapTurn(s, t, ch).Ok?
    ensures HeapMoves(s.heap, HeapTurn(s, t, ch).state.heap, Turn(t, ch)) && PagesMove(s.pages, HeapTurn(s, t, ch).state.pages)
  {
    hide Sound, H.Enabled, H.StepThread, GivesUp, H.FoldSlab, H.WantsSlab, SlabSpan, SlabPages;
    var a, pc := H.DoStep(t, H.Choice(ch.spurious, SpanFor(s, t), ch.junk)), H.PcOf(s.heap, t);
    var s' := HeapTurn(s, t, ch).state;
    if Asks(s, t) {
      AsksEnabled(s, t);
      assert P.Apply(s.pages, P.Allocate(t, SlabPages(pc.cls))) == s'.pages;
    } else {
      StepEnabled(s, t, ch);
      assert H.Apply(s.heap, a) == HeapStep(s, t, ch) == H.Ok(s'.heap);
      var h' := s'.heap;
      if GivesUp(s.heap, h', t) {
        SlabWas(s.heap, h', t);
        var x := SlabSpan(H.FoldSlab(s.heap, t), s.heap.slabs[H.FoldSlab(s.heap, t)].cls);
        assert P.Enabled(s.pages, P.Free(t, x)) && P.Apply(s.pages, P.Free(t, x)) == s'.pages;
      } else if pc.PurgeLock? && pc.arena >= NUM_ARENAS {
        assert P.Enabled(s.pages, P.Purge(t)) && P.Apply(s.pages, P.Purge(t)) == s'.pages;
      }
    }
  }

  lemma AsksEnabled(s: State, t: nat)
    requires Sound(s) && Outside(s, t) && Asks(s, t)
    ensures P.Enabled(s.pages, P.Allocate(t, SlabPages(H.PcOf(s.heap, t).cls)))
  {
    hide PT.Good, Accounted, HeapSound, HI.Inv, InUserSpace, SlabPages;
    var v := SomeView(s.heap);
    MakingIsWanting(s.heap, v, t);
    SlabPagesAre(H.PcOf(s.heap, t).cls);
  }

  lemma ActionMoves(s: State, act: Action)
    requires Sound(s) && Enabled(s, act) && Apply(s, act).Ok?
    ensures HeapMoves(s.heap, Apply(s, act).state.heap, act) && PagesMove(s.pages, Apply(s, act).state.pages)
  {
    hide Sound, H.Enabled, H.Apply, HeapTurn, P.Step, HeapMoves;
    match act
    case Call(a) => CallMoves(s.heap, a);
    case LargeMalloc(t, n) =>
      assert P.Enabled(s.pages, P.Allocate(t, n)) && P.Apply(s.pages, P.Allocate(t, n)) == P.BeginAllocate(s.pages, t, n);
      HeapStays(s.heap, act);
    case LargeFree(t, x) =>
      LargeHeld(s, x);
      assert P.Enabled(s.pages, P.Free(t, x)) && P.Apply(s.pages, P.Free(t, x)) == P.BeginFree(s.pages, t, x);
      HeapStays(s.heap, act);
    case LargeRemap(t, x, y) =>
      assert P.Apply(s.pages, P.Remap(t, x, y)) == P.Remapped(s.pages, x, y);
      HeapStays(s.heap, act);
    case Turn(t, ch) =>
      if s.pages.pcs[t] == P.Out {
        HeapTurnMoves(s, t, ch);
      } else {
        assert P.Apply(s.pages, P.Run(t, ch.os)) == P.Step(s.pages, t, ch.os);
        HeapStays(s.heap, act);
      }
  }

  lemma CallMoves(h: H.Heap, a: H.Action)
    requires H.Enabled(h, a) && H.Apply(h, a).Ok?
    ensures HeapMoves(h, H.Apply(h, a).heap, Call(a))
  {
    hide H.Enabled, H.Apply;
  }

  lemma HeapStays(h: H.Heap, act: Action)
    ensures HeapMoves(h, h, act)
  {
  }

  lemma LargeHeld(s: State, x: P.Span)
    requires Sound(s) && x in s.large
    ensures x in s.pages.client
  {
    hide PT.Good, HeapSound, Coupled, InUserSpace, Accounted;
    assert Owns(s, ByLarge, x);
    OwnerHas(s, ByLarge, x);
  }

  /** What a run reaches, each heap has reached in a run of its own. */
  ghost predicate Reached(s: State, start: P.State) {
    Sound(s) && HT.Reachable(s.heap) && PT.Reaches(start, s.pages)
  }

  lemma ActionReached(s: State, act: Action, start: P.State)
    requires Reached(s, start) && Enabled(s, act)
    ensures Apply(s, act).Ok? && Reached(Apply(s, act).state, start)
  {
    hide Sound, Enabled, Apply, H.Enabled, H.Apply, P.Enabled, P.Apply, HT.Reachable, PT.Reaches;
    ActionSound(s, act);
    ActionMoves(s, act);
    var s' := Apply(s, act).state;
    if s'.heap != s.heap {
      var a :| H.Enabled(s.heap, a) && H.Apply(s.heap, a) == H.Ok(s'.heap);
      HT.ReachableNext(s.heap, a);
    }
    if s'.pages != s.pages {
      var a :| P.Enabled(s.pages, a) && P.Apply(s.pages, a) == s'.pages;
      PT.One(start, s.pages, a);
    }
  }

  lemma {:induction false} RunReached(s: State, acts: seq<Action>, start: P.State)
    requires Reached(s, start) && IsRun(s, acts)
    ensures Run(s, acts).Ok? && Reached(Run(s, acts).state, start)
    decreases |acts|
  {
    if |acts| > 0 {
      ActionReached(s, acts[0], start);
      hide Reached, Apply, Enabled;
      RunReached(Apply(s, acts[0]).state, acts[1..], start);
    }
  }

  /** The arena heap and the page heap inside any run of the two together are in states that runs of
      their own reach, so that all theorems about each apply. */
  lemma RunsOfBoth(limit: nat, threads: nat, acts: seq<Action>)
    requires PI.Fits(P.Start(limit, threads)) && IsRun(Start(limit, threads), acts)
    ensures var o := Run(Start(limit, threads), acts);
            o.Ok? && HT.Reachable(o.state.heap) && PT.Reaches(P.Start(limit, threads), o.state.pages)
  {
    hide Apply, Enabled, Sound, IsRun, Run, HT.Reachable, PT.Reaches;
    StartSound(limit, threads);
    HT.EmptyReachable();
    PT.Stay(P.Start(limit, threads));
    RunReached(Start(limit, threads), acts, P.Start(limit, threads));
  }

  // ----- Memory -------------------------------------------------------------------------

  function BlockEnd(h: H.Heap, y: int): int
    requires y in h.hdr
  {
    y + ClassIndexToSize(h.hdr[y].cls)
  }

  ghost predicate SmallApart(h: H.Heap) {
    forall y, z :: y in h.hdr && z in h.hdr && y < z ==> BlockEnd(h, y) <= z
  }

  /** No block has a byte of the span. */
  ghost predicate ClearOfBlocks(h: H.Heap, x: P.Span) {
    forall y :: y in h.hdr ==> BlockEnd(h, y) <= x.base * PAGE_SIZE || (x.base + x.pages) * PAGE_SIZE <= y
  }

  predicate Apart(x: P.Span, y: P.Span) {
    x.base + x.pages <= y.base || y.base + y.pages <= x.base
  }

  ghost predicate Cached(s: State, x: P.Span) {
    x.base in P.Bin(s.pages.bins, x.pages)
  }

  /** No two blocks share a byte, small or large, and none has a byte of a cached span. */
  ghost predicate MemoryApart(s: State) {
    && SmallApart(s.heap)
    && (forall x :: x in s.large || Cached(s, x) ==> ClearOfBlocks(s.heap, x))
    && (forall x, y :: x in s.large && (y in s.large || Cached(s, y)) && x != y ==> Apart(x, y))
    && (forall x :: x in s.large ==> !Cached(s, x))
  }

  /** The span of the slab a block lies in. */
  function SpanOf(h: H.Heap, y: int): P.Span
    requires y in h.hdr
  {
    SlabSpan(h.hdr[y].slab, h.hdr[y].cls)
  }

  lemma BlockInSpanOf(s: State, y: int)
    requires Sound(s) && y in s.heap.hdr
    ensures var x := SpanOf(s.heap, y);
            x in s.pages.client && x !in s.large && x.base * PAGE_SIZE <= y && BlockEnd(s.heap, y) <= (x.base + x.pages) * PAGE_SIZE
  {
    hide PT.Good, HI.Inv, HeapSound, Coupled, InUserSpace, SlabBytes, ClassIndexToSize, SlabPages, Plausible;
    var v := SomeView(s.heap);
    HG.BlockInItsSlab(s.heap, v, y);
    var b, c := s.heap.hdr[y].slab, s.heap.hdr[y].cls;
    SlabPagesAre(c);
    var x := SpanOf(s.heap, y);
    assert Owns(s, BySlab(b), x);
    assert x in s.large ==> Owns(s, ByLarge, x);
  }

  lemma SmallAndLarge(s: State, y: int, x: P.Span)
    requires Sound(s) && y in s.heap.hdr && x in s.large
    ensures BlockEnd(s.heap, y) <= x.base * PAGE_SIZE || (x.base + x.pages) * PAGE_SIZE <= y
  {
    BlockInSpanOf(s, y);
    LargeHeld(s, x);
    hide HeapSound, PT.Good, Coupled, Accounted, InUserSpace, SlabSpan, BlockEnd;
    SpansApart(s, SpanOf(s.heap, y), x);
  }

  lemma SmallAndCached(s: State, y: int, x: P.Span)
    requires Sound(s) && y in s.heap.hdr && Cached(s, x)
    ensures BlockEnd(s.heap, y) <= x.base * PAGE_SIZE || (x.base + x.pages) * PAGE_SIZE <= y
  {
    BlockInSpanOf(s, y);
    GoodTiles(s);
    hide Sound, PageHeapTiles.Tiled, SlabSpan, BlockEnd, P.Bin;
    PT.CachedApart(s.pages, SpanOf(s.heap, y), x.pages, x.base);
  }

  lemma GoodTiles(s: State)
    requires Sound(s)
    ensures PageHeapTiles.Tiled(s.pages)
  {
    hide HeapSound, Coupled, Accounted, InUserSpace, PageHeapTiles.Tiled;
  }

  lemma LargeAndOther(s: State, x: P.Span, y: P.Span)
    requires Sound(s) && x in s.large && (y in s.large || Cached(s, y)) && (x != y || Cached(s, y))
    ensures Apart(x, y) && (Cached(s, y) ==> y.pages > 0)
  {
    LargeHeld(s, x);
    GoodTiles(s);
    hide HeapSound, PT.Good, Coupled, Accounted, InUserSpace, PageHeapTiles.Tiled, P.Bin;
    if Cached(s, y) {
      PT.CachedApart(s.pages, x, y.pages, y.base);
      PT.CachedPages(s.pages, y.pages, y.base);
    } else {
      LargeHeld(s, y);
      SpansApart(s, x, y);
    }
  }

  lemma SoundSmallApart(s: State)
    requires Sound(s)
    ensures SmallApart(s.heap)
  {
    hide HI.Inv, ClassIndexToSize, PT.Good, Coupled, Accounted, InUserSpace;
    var v := SomeView(s.heap);
    forall y, z | y in s.heap.hdr && z in s.heap.hdr && y < z ensures BlockEnd(s.heap, y) <= z {
      HG.TwoBlocks(s.heap, v, y, z);
    }
  }

  lemma SoundApart(s: State)
    requires Sound(s)
    ensures MemoryApart(s)
  {
    hide Sound, Apart, Cached, BlockEnd;
    SoundSmallApart(s);
    forall x | x in s.large || Cached(s, x) ensures ClearOfBlocks(s.heap, x) {
      forall y | y in s.heap.hdr ensures BlockEnd(s.heap, y) <= x.base * PAGE_SIZE || (x.base + x.pages) * PAGE_SIZE <= y {
        if x in s.large { SmallAndLarge(s, y, x); } else { SmallAndCached(s, y, x); }
      }
    }
    forall x, y | x in s.large && (y in s.large || Cached(s, y)) && x != y ensures Apart(x, y) { LargeAndOther(s, x, y); }
    forall x | x in s.large ensures !Cached(s, x) { NotCached(s, x); }
  }

  lemma NotCached(s: State, x: P.Span)
    requires Sound(s) && x in s.large
    ensures !Cached(s, x)
  {
    hide Sound, Cached;
    if Cached(s, x) { LargeAndOther(s, x, x); }
  }

  /** In every state that a run reaches, no byte is in two blocks, small or large, or in a block and a cached span. */
  lemma NoByteTwice(limit: nat, threads: nat, acts: seq<Action>)
    requires PI.Fits(P.Start(limit, threads)) && IsRun(Start(limit, threads), acts)
    ensures var o := Run(Start(limit, threads), acts); o.Ok? && MemoryApart(o.state)
  {
    hide Apply, Enabled, Sound, IsRun, Run, MemoryApart, Start;
    StartSound(limit, threads);
    RunSound(Start(limit, threads), acts);
    SoundApart(Run(Start(limit, threads), acts).state);
  }
}
