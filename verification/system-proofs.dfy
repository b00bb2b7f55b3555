/** The arena heap on the page heap: every action keeps both heaps sound and every span accounted for. */
module SystemProofs {
  import opened Config
  import L = Links
  import H = Heap
  import HI = HeapInvariant
  import HF = HeapFrames
  import HR = HeapReturn
  import HO = HeapFold
  import HS = HeapSteps
  import HT = HeapTheorems
  import P = PageHeap
  import PI = PageHeapInvariant
  import PageHeapTiles
  import PS = PageHeapSteps
  import PT = PageHeapTheorems
  import opened System

  ghost predicate HeapSound(h: H.Heap) {
    exists v :: HI.Inv(h, v)
  }

  ghost predicate Sound(s: State) {
    HeapSound(s.heap) && PT.Good(s.pages) && Coupled(s) && Accounted(s) && InUserSpace(s)
  }

  // ----- Owners ---------------------------------------------------------------------

  lemma SameOwners(s: State, s': State)
    requires Accounted(s) && s'.pages.client == s.pages.client
    requires forall o, x {:trigger Owns(s', o, x)} :: Owns(s', o, x) <==> Owns(s, o, x)
    ensures Accounted(s')
  {
    hide Owns;
    forall x | x in s'.pages.client ensures Owned(s', x) {
      assert Owned(s, x);
      var o :| Owns(s, o, x);
      assert Owns(s', o, x);
    }
  }

  lemma NewOwner(s: State, s': State, o': Owner, x': P.Span)
    requires Accounted(s) && x' !in s.pages.client && s'.pages.client == s.pages.client + {x'}
    requires forall o, x {:trigger Owns(s', o, x)} :: Owns(s', o, x) <==> Owns(s, o, x) || (o == o' && x == x')
    ensures Accounted(s')
  {
    hide Owns;
    forall x | x in s'.pages.client ensures Owned(s', x) {
      if x == x' {
        assert Owns(s', o', x');
      } else {
        assert Owned(s, x);
        var o :| Owns(s, o, x);
        assert Owns(s', o, x);
      }
    }
  }

  lemma LostOwner(s: State, s': State, o': Owner, x': P.Span)
    requires Accounted(s) && Owns(s, o', x') && s'.pages.client == s.pages.client - {x'}
    requires forall o, x {:trigger Owns(s', o, x)} :: Owns(s', o, x) <==> Owns(s, o, x) && !(o == o' && x == x')
    ensures Accounted(s')
  {
    hide Owns;
    forall x | x in s'.pages.client ensures Owned(s', x) {
      assert Owned(s, x);
      var o :| Owns(s, o, x);
      assert Owns(s', o, x);
    }
  }

  lemma NextOwner(s: State, s': State, o1: Owner, o2: Owner, x': P.Span)
    requires Accounted(s) && Owns(s, o1, x') && s'.pages.client == s.pages.client
    requires forall o, x {:trigger Owns(s', o, x)} ::
               Owns(s', o, x) <==> (o == o2 && x == x') || (Owns(s, o, x) && !(o == o1 && x == x'))
    ensures Accounted(s')
  {
    hide Owns;
    forall x | x in s'.pages.client ensures Owned(s', x) {
      assert Owned(s, x);
      var o :| Owns(s, o, x);
      if x == x' { assert Owns(s', o2, x'); } else { assert Owns(s', o, x); }
    }
  }

  // ----- The two heaps ----------------------------------------------------------------

  lemma SlabPagesAre(c: nat)
    requires c < NUM_SIZE_CLASSES
    ensures 1 <= SlabPages(c) <= P.MAX_PAGES && SlabPages(c) * PAGE_SIZE == SlabBytes(c)
  {
    SlabBytesRange(c);
  }

  lemma SlabAligned(h: H.Heap, v: L.View, b: int)
    requires HI.Inv(h, v) && b in h.slabs
    ensures b % PAGE_SIZE == 0 && b != 0 && h.slabs[b].cls < NUM_SIZE_CLASSES
  {
    HF.InvParts(h, v);
    hide HI.Inv, HI.Core;
    HO.SlabFacts(h.mem, h.hdr, h.slabs, h.live, v, b);
  }

  /** A thread that has no blocks yet has an empty list, and the other way round. */
  lemma MakingIsWanting(h: H.Heap, v: L.View, t: nat)
    requires HI.Inv(h, v) && H.PcOf(h, t).Extract?
    ensures Making(h, t) <==> H.WantsSlab(h, t, H.PcOf(h, t).cls)
  {
    HR.PcIsOk(h, v, t);
    HR.HeadNull(h, v, L.Local(t, L.Result));
    hide HI.Inv;
  }

  lemma LocksDiffer(locks: map<H.Key, nat>, pcs: map<nat, H.Pc>, t: nat, u: nat, j: H.Key, k: H.Key)
    requires HI.LocksOk(locks, pcs) && t != u && j in HI.Holds(H.PcIn(pcs, t), t) && k in HI.Holds(H.PcIn(pcs, u), u)
    ensures j != k
  {
    HF.HeldBy(locks, pcs, t, j);
    HF.HeldBy(locks, pcs, u, k);
  }

  lemma InvLocks(h: H.Heap, v: L.View)
    requires HI.Inv(h, v)
    ensures HI.LocksOk(h.locks, h.pcs)
  {
  }

  /** A step touches only partial lists of classes its thread has locked. */
  lemma WorksOn(h: H.Heap, h': H.Heap, t: nat, span: int, k: H.Key)
    requires HS.Framed(h, h', t, H.PcOf(h, t), span)
    requires forall j {:trigger j in HI.Holds(H.PcOf(h, t), t)} :: j in HI.Holds(H.PcOf(h, t), t) ==> j != k
    ensures H.In(h'.partial, k) == H.In(h.partial, k)
  {
    var pc := H.PcOf(h, t);
    if pc.Fold? {
      assert H.Key(pc.arena, pc.cls) in HI.Holds(pc, t);
    } else if pc.Extract? || pc.ExtractFrom? {
      assert H.Key(H.Home(t), pc.cls) in HI.Holds(pc, t);
    }
    hide HI.Holds, H.Home;
  }

  /** The class a thread makes a slab for is its own until it is done. */
  lemma MakingKept(h: H.Heap, v: L.View, h': H.Heap, t: nat, span: int, u: nat)
    requires HI.Inv(h, v) && u != t && Making(h, u) && HS.Framed(h, h', t, H.PcOf(h, t), span)
    ensures Making(h', u) && H.PcOf(h', u) == H.PcOf(h, u)
  {
    hide HI.Inv, HI.LocksOk, H.Home;
    HS.PcKept(h, h', t, u);
    var k := H.Key(H.Home(u), H.PcOf(h, u).cls);
    InvLocks(h, v);
    assert k in HI.Holds(H.PcOf(h, u), u);
    forall j {:trigger j in HI.Holds(H.PcOf(h, t), t)} | j in HI.Holds(H.PcOf(h, t), t) ensures j != k {
      LocksDiffer(h.locks, h.pcs, t, u, j, k);
    }
    hide HI.Holds;
    WorksOn(h, h', t, span, k);
  }

  ghost predicate FitsThere(h: H.Heap, t: nat, span: int) {
    H.PcOf(h, t).Extract? && H.FreshSpan(h, span, SlabBytes(H.PcOf(h, t).cls))
  }

  /** What the page heap gave a thread is as fresh as the arena heap needs it. */
  lemma GivenIsFresh(s: State, v: L.View, t: nat)
    requires HI.Inv(s.heap, v) && PT.Good(s.pages) && Coupled(s) && Accounted(s) && InUserSpace(s)
    requires t in s.made && s.made[t] != 0
    ensures s.made[t] !in s.heap.slabs && FitsThere(s.heap, t, s.made[t])
  {
    hide HI.Inv, PT.Good, SlabBytes;
    var b, c := s.made[t], H.PcOf(s.heap, t).cls;
    var x := SlabSpan(b, c);
    SlabPagesAre(c);
    assert Owns(s, ByThread(t), x);
    SpanInUserSpace(s, x);
    forall d | d in s.heap.slabs
      ensures d != b && (b + SlabBytes(c) <= d || d + SlabBytes(s.heap.slabs[d].cls) <= b)
    {
      SlabAligned(s.heap, v, d);
      SlabPagesAre(s.heap.slabs[d].cls);
      var y := SlabSpan(d, s.heap.slabs[d].cls);
      assert Owns(s, BySlab(d), y);
      SpansApart(s, x, y);
    }
  }

  lemma SpanInUserSpace(s: State, x: P.Span)
    requires PT.Good(s.pages) && InUserSpace(s) && x in s.pages.client
    ensures FIRST_PAGE <= x.base && x.base + x.pages <= LAST_PAGE
  {
    hide PI.Control, PI.Bytes, PageHeapTiles.Tiled;
    PT.CallersApart(s.pages, x, x);
    assert x.base in s.pages.held && x.base + x.pages - 1 in s.pages.held;
  }

  lemma SpansApart(s: State, x: P.Span, y: P.Span)
    requires PT.Good(s.pages) && x in s.pages.client && y in s.pages.client && x != y
    ensures x.base + x.pages <= y.base || y.base + y.pages <= x.base
  {
    hide PI.Control, PI.Bytes, PageHeapTiles.Tiled;
    PT.CallersApart(s.pages, x, y);
  }

  // ----- A turn in the page heap --------------------------------------------------------

  /** What one step does to the page heap, as its callers see it. */
  ghost predicate PageFacts(p: P.State, p': P.State, t: nat, os: P.Choice)
    requires t < |p.pcs|
  {
    && PT.Good(p') && |p'.pcs| == |p.pcs| && p'.pcs == p.pcs[t := p'.pcs[t]]
    && PT.Delivers(p, p', t, os)
    && (PT.Gives(p.pcs[t], os) || p.pcs[t].OsMap? ==> PT.Asked(p.pcs[t]) > 0)
  }

  lemma PageStepFacts(p: P.State, t: nat, os: P.Choice)
    requires PT.Good(p) && t < |p.pcs| && P.Enabled(p, P.Run(t, os))
    ensures PageFacts(p, P.Step(p, t, os), t, os)
  {
    hide P.Step, P.Enabled, PI.LocksOk, PI.HintsOk, PI.Bytes, PageHeapTiles.Tiled, PI.PcOk, PT.Delivers;
    PT.StepGood(p, t, os);
    PT.AllocationDelivers(p, t, os);
    PS.StepFacts(p, t, os);
    if PT.Gives(p.pcs[t], os) || p.pcs[t].OsMap? { PT.GivesAsked(p.pcs[t], os); }
  }

  lemma PageTurnUserSpace(s: State, t: nat, ch: Choice)
    requires InUserSpace(s) && Enabled(s, Turn(t, ch)) && t < |s.pages.pcs|
    ensures InUserSpace(PageTurn(s, t, ch.os))
  {
    hide P.Step, PT.Asked;
    PT.HeldFromOs(s.pages, t, ch.os);
  }

  lemma PageTurnCoupled(s: State, t: nat, os: P.Choice)
    requires Coupled(s) && t < |s.pages.pcs| && s.pages.pcs[t] != P.Out
    requires PageFacts(s.pages, P.Step(s.pages, t, os), t, os)
    ensures Coupled(PageTurn(s, t, os))
  {
    hide P.Step, PT.Asked, PT.Good, Making, PT.Given;
    var s' := PageTurn(s, t, os);
    assert Visits(s.heap, t, s.pages.pcs[t]);
    forall u: nat | u < |s'.pages.pcs| && s'.pages.pcs[u] != P.Out ensures u !in s'.made && Visits(s'.heap, u, s'.pages.pcs[u]) {
      if u != t { assert s'.pages.pcs[u] == s.pages.pcs[u]; }
    }
    forall u: nat | u in s'.made ensures Outside(s', u) && Making(s'.heap, u) && s'.made[u] % PAGE_SIZE == 0 {
      if u != t {
        assert u in s.made;
        assert s'.pages.pcs[u] == s.pages.pcs[u];
      }
    }
  }

  lemma PageTurnAccounted(s: State, t: nat, os: P.Choice)
    requires Coupled(s) && Accounted(s) && t < |s.pages.pcs| && s.pages.pcs[t] != P.Out
    requires PageFacts(s.pages, P.Step(s.pages, t, os), t, os) && InUserSpace(PageTurn(s, t, os))
    ensures Accounted(PageTurn(s, t, os))
  {
    hide P.Step, PT.Asked, PT.Good, Making, Accounted, SlabPages;
    var s', pc := PageTurn(s, t, os), s.pages.pcs[t];
    assert Visits(s.heap, t, pc) && t !in s.made;
    var x := P.Span(PT.Given(pc, os), PT.Asked(pc));
    if !PT.Gives(pc, os) {
      SameOwners(s, s');
    } else if H.PcOf(s.heap, t).Extract? {
      SpanInUserSpace(s', x);
      assert SlabSpan(x.base * PAGE_SIZE, H.PcOf(s.heap, t).cls) == x;
      NewOwner(s, s', ByThread(t), x);
    } else {
      NewOwner(s, s', ByLarge, x);
    }
  }

  lemma PageTurnSound(s: State, t: nat, ch: Choice)
    requires Sound(s) && Enabled(s, Turn(t, ch)) && t < |s.pages.pcs| && s.pages.pcs[t] != P.Out
    ensures Sound(PageTurn(s, t, ch.os))
  {
    hide PT.Good, Coupled, Accounted, InUserSpace, HeapSound, P.Step, PageFacts, P.Enabled;
    PageStepFacts(s.pages, t, ch.os);
    PageTurnUserSpace(s, t, ch);
    PageTurnCoupled(s, t, ch.os);
    PageTurnAccounted(s, t, ch.os);
    GoodAfter(s.pages, t, ch.os);
  }

  lemma GoodAfter(p: P.State, t: nat, os: P.Choice)
    requires t < |p.pcs| && PageFacts(p, P.Step(p, t, os), t, os)
    ensures PT.Good(P.Step(p, t, os))
  {
    hide P.Step, PT.Good, PT.Delivers;
  }

  // ----- Entering the page heap -----------------------------------------------------------

  lemma EnterCoupled(s: State, s': State, t: nat)
    requires Coupled(s) && Outside(s, t) && t !in s.made && s'.heap == s.heap && s'.made == s.made
    requires |s'.pages.pcs| == |s.pages.pcs| && s'.pages.pcs == s.pages.pcs[t := s'.pages.pcs[t]]
    requires Visits(s.heap, t, s'.pages.pcs[t])
    ensures Coupled(s')
  {
    hide Visits, Making;
    forall u: nat | u < |s'.pages.pcs| && s'.pages.pcs[u] != P.Out ensures u !in s'.made && Visits(s'.heap, u, s'.pages.pcs[u]) {
      if u != t { assert s'.pages.pcs[u] == s.pages.pcs[u]; }
    }
    forall u: nat | u in s'.made ensures Outside(s', u) && Making(s'.heap, u) && s'.made[u] % PAGE_SIZE == 0 {
      assert s'.pages.pcs[u] == s.pages.pcs[u];
    }
  }

  lemma EnterGood(p: P.State, act: P.Action)
    requires PT.Good(p) && P.Enabled(p, act) && !act.Run? && !act.Remap?
    ensures PT.Good(P.Apply(p, act)) && P.Apply(p, act).held == p.held
  {
    PT.EnterGood(p, act);
    hide PT.Good;
  }

  lemma AllocateSound(s: State, t: nat, n: nat)
    requires Sound(s) && Outside(s, t) && t !in s.made && n >= 1
    requires H.PcOf(s.heap, t) == H.Idle || (Making(s.heap, t) && n == SlabPages(H.PcOf(s.heap, t).cls))
    ensures Sound(s.(pages := P.BeginAllocate(s.pages, t, n)))
  {
    hide PT.Good, Accounted, HeapSound, SlabPages;
    var s' := s.(pages := P.BeginAllocate(s.pages, t, n));
    EnterGood(s.pages, P.Allocate(t, n));
    EnterCoupled(s, s', t);
    SameOwners(s, s');
  }

  lemma PurgeSound(s: State, t: nat)
    requires Sound(s) && Outside(s, t) && t !in s.made && H.PcOf(s.heap, t) == H.Idle
    ensures Sound(s.(pages := P.BeginPurge(s.pages, t)))
  {
    hide PT.Good, Accounted, HeapSound, Making;
    var s' := s.(pages := P.BeginPurge(s.pages, t));
    EnterGood(s.pages, P.Purge(t));
    EnterCoupled(s, s', t);
    SameOwners(s, s');
  }

  /** Freeing is no allocation. */
  lemma FreeAsksNothing(p: P.State, t: nat, x: P.Span)
    requires t < |p.pcs|
    ensures var p' := P.BeginFree(p, t, x); |p'.pcs| == |p.pcs| && p'.pcs == p.pcs[t := p'.pcs[t]] && PT.Asked(p'.pcs[t]) == 0
  {
  }

  lemma LargeFreeSound(s: State, t: nat, x: P.Span)
    requires Sound(s) && Outside(s, t) && t !in s.made && H.PcOf(s.heap, t) == H.Idle && x in s.large
    ensures Sound(s.(pages := P.BeginFree(s.pages, t, x), large := s.large - {x}))
  {
    hide PT.Good, Accounted, HeapSound, Making, PT.Asked;
    var s' := s.(pages := P.BeginFree(s.pages, t, x), large := s.large - {x});
    assert Owns(s, ByLarge, x);
    assert x in s.pages.client by { OwnerHas(s, ByLarge, x); }
    EnterGood(s.pages, P.Free(t, x));
    FreeAsksNothing(s.pages, t, x);
    EnterCoupled(s, s', t);
    LostOwner(s, s', ByLarge, x);
  }

  /** A large block shrunk, grown or moved past the page heap. */
  lemma LargeRemapSound(s: State, t: nat, x: P.Span, y: P.Span)
    requires Sound(s) && Enabled(s, LargeRemap(t, x, y))
    ensures Sound(Apply(s, LargeRemap(t, x, y)).state)
  {
    hide PT.Good, Accounted, HeapSound, Making, Visits;
    var s' := Apply(s, LargeRemap(t, x, y)).state;
    PT.RemapGood(s.pages, x, y);
    RemapUserSpace(s, x, y);
    assert Coupled(s') by { SamePcs(s, s'); }
    var s1 := s.(pages := s.pages.(client := s.pages.client - {x}), large := s.large - {x});
    assert Owns(s, ByLarge, x);
    LostOwner(s, s1, ByLarge, x);
    NewOwner(s1, s', ByLarge, y);
  }

  lemma SamePcs(s: State, s': State)
    requires Coupled(s) && s'.heap == s.heap && s'.made == s.made && s'.pages.pcs == s.pages.pcs
    ensures Coupled(s')
  {
    hide Making, Visits;
  }

  lemma RemapUserSpace(s: State, x: P.Span, y: P.Span)
    requires InUserSpace(s) && FIRST_PAGE <= y.base && y.base + y.pages <= LAST_PAGE
    ensures InUserSpace(s.(pages := P.Remapped(s.pages, x, y), large := s.large - {x} + {y}))
  {
  }

  lemma OwnerHas(s: State, o: Owner, x: P.Span)
    requires Accounted(s) && Owns(s, o, x)
    ensures x in s.pages.client
  {
    hide Owns;
  }

  // ----- Steps of the arena heap ------------------------------------------------------------

  function SpanFor(s: State, t: nat): int {
    if t in s.made then s.made[t] else 0
  }

  /** What a heap step with the memory at hand leads to. */
  ghost predicate Stepped(s: State, h': H.Heap, t: nat) {
    && HeapSound(h') && HS.Framed(s.heap, h', t, H.PcOf(s.heap, t), SpanFor(s, t))
    && (SpanFor(s, t) != 0 ==> Given(s, t))
  }

  /** A thread with memory in hand still wants it, and no slab is there. */
  ghost predicate Given(s: State, t: nat) {
    var pc := H.PcOf(s.heap, t);
    pc.Extract? && SpanFor(s, t) !in s.heap.slabs && H.WantsSlab(s.heap, t, pc.cls)
  }

  lemma HeapStepSound(s: State, t: nat, ch: Choice)
    requires Sound(s) && Outside(s, t)
    ensures HeapStep(s, t, ch).Ok? && Stepped(s, HeapStep(s, t, ch).heap, t)
  {
    hide PT.Good, Accounted, HI.Inv, H.StepThread, HS.Framed, H.FreshSpan, InUserSpace;
    var v :| HI.Inv(s.heap, v);
    if SpanFor(s, t) != 0 {
      GivenIsFresh(s, v, t);
      MakingIsWanting(s.heap, v, t);
    }
    var hch := H.Choice(ch.spurious, SpanFor(s, t), ch.junk);
    var v' := HT.EveryStep(s.heap, v, H.DoStep(t, hch));
    HS.StepFramed(s.heap, t, hch);
  }

  function Moved(s: State, h': H.Heap, t: nat): State {
    s.(heap := h', made := s.made - {t})
  }

  lemma MovedCoupled(s: State, h': H.Heap, t: nat)
    requires HeapSound(s.heap) && Coupled(s) && Outside(s, t) && Stepped(s, h', t)
    ensures Coupled(Moved(s, h', t))
  {
    hide HI.Inv, HeapSound, Making, HS.Framed;
    var v := SomeView(s.heap);
    var s' := Moved(s, h', t);
    assert H.OtherPcs(s.heap, h', t) by { FramedPcs(s.heap, h', t, SpanFor(s, t)); }
    hide H.OtherPcs;
    forall u: nat {:trigger H.PcOf(s'.heap, u)} | u >= |s'.pages.pcs| ensures H.PcOf(s'.heap, u) == H.Idle {
      HS.PcKept(s.heap, h', t, u);
    }
    forall u: nat | u < |s'.pages.pcs| && s'.pages.pcs[u] != P.Out ensures u !in s'.made && Visits(h', u, s'.pages.pcs[u]) {
      assert Visits(s.heap, u, s.pages.pcs[u]);
      HS.PcKept(s.heap, h', t, u);
      if H.PcOf(s.heap, u).Extract? { MakingKept(s.heap, v, h', t, SpanFor(s, t), u); }
    }
    forall u: nat | u in s'.made ensures Outside(s', u) && Making(h', u) && s'.made[u] % PAGE_SIZE == 0 {
      assert u in s.made;
      MakingKept(s.heap, v, h', t, SpanFor(s, t), u);
    }
  }

  lemma SomeView(h: H.Heap) returns (v: L.View)
    requires HeapSound(h)
    ensures HI.Inv(h, v)
  {
    hide HI.Inv;
    v :| HI.Inv(h, v);
  }

  lemma FramedPcs(h: H.Heap, h': H.Heap, t: nat, span: int)
    requires HS.Framed(h, h', t, H.PcOf(h, t), span)
    ensures H.OtherPcs(h, h', t)
  {
  }

  /** Threads other than the one that steps keep what they were given. */
  lemma ThreadsKept(s: State, h': H.Heap, t: nat, u: nat, x: P.Span)
    requires H.OtherPcs(s.heap, h', t) && u != t
    ensures Owns(Moved(s, h', t), ByThread(u), x) <==> Owns(s, ByThread(u), x)
  {
    HS.PcKept(s.heap, h', t, u);
  }

  lemma SlabsKept(s: State, h': H.Heap, t: nat, b: int, x: P.Span)
    requires H.SameClasses(s.heap, h') && b in s.heap.slabs && b in h'.slabs
    ensures Owns(Moved(s, h', t), BySlab(b), x) <==> Owns(s, BySlab(b), x)
  {
  }

  /** The slabs after a step: as before, with the new one, or without the one given up. */
  lemma SlabsAfter(s: State, h': H.Heap, t: nat)
    requires Stepped(s, h', t) && 0 !in s.heap.slabs
    ensures h'.slabs.Keys == if SpanFor(s, t) != 0 then s.heap.slabs.Keys + {SpanFor(s, t)}
                             else if GivesUp(s.heap, h', t) then s.heap.slabs.Keys - {H.FoldSlab(s.heap, t)}
                             else s.heap.slabs.Keys
    ensures SpanFor(s, t) != 0 ==> !GivesUp(s.heap, h', t)
    ensures H.SameClasses(s.heap, h') && H.OtherPcs(s.heap, h', t)
  {
    hide HeapSound, H.OtherPcs, H.SameClasses, H.PartialBut, H.WantsSlab, H.FoldSlab;
    var k, k' := s.heap.slabs.Keys, h'.slabs.Keys;
    forall b ensures b in k' <==> b in if SpanFor(s, t) != 0 then k + {SpanFor(s, t)}
                                       else if GivesUp(s.heap, h', t) then k - {H.FoldSlab(s.heap, t)} else k {
    }
  }

  lemma SameSlabsAccounted(s: State, h': H.Heap, t: nat)
    requires Accounted(s) && h'.slabs.Keys == s.heap.slabs.Keys && SpanFor(s, t) == 0
    requires H.SameClasses(s.heap, h') && H.OtherPcs(s.heap, h', t)
    ensures Accounted(Moved(s, h', t))
  {
    hide Accounted, H.SameClasses, H.OtherPcs;
    var s' := Moved(s, h', t);
    forall o, x {:trigger Owns(s', o, x)} ensures Owns(s', o, x) <==> Owns(s, o, x) {
      if o.BySlab? && o.b in s.heap.slabs {
        assert o.b in h'.slabs;
        SlabsKept(s, h', t, o.b, x);
      } else if o.BySlab? {
        assert o.b !in h'.slabs.Keys;
      } else if o.ByThread? && o.t != t {
        ThreadsKept(s, h', t, o.t, x);
      }
    }
    SameOwners(s, s');
  }

  lemma NewSlabAccounted(s: State, h': H.Heap, t: nat)
    requires Coupled(s) && Accounted(s) && Stepped(s, h', t) && SpanFor(s, t) != 0
    requires h'.slabs.Keys == s.heap.slabs.Keys + {SpanFor(s, t)}
    requires H.SameClasses(s.heap, h') && H.OtherPcs(s.heap, h', t)
    ensures Accounted(Moved(s, h', t))
  {
    hide Accounted, H.SameClasses, H.OtherPcs, HeapSound, H.PartialBut, H.WantsSlab, Making, SlabSpan;
    var s', b, pc := Moved(s, h', t), SpanFor(s, t), H.PcOf(s.heap, t);
    var x' := SlabSpan(b, pc.cls);
    assert b in h'.slabs.Keys && h'.slabs[b].cls == pc.cls;
    assert Owns(s, ByThread(t), x');
    forall o, x {:trigger Owns(s', o, x)}
      ensures Owns(s', o, x) <==> (o == BySlab(b) && x == x') || (Owns(s, o, x) && !(o == ByThread(t) && x == x'))
    {
      if o.BySlab? && o.b in s.heap.slabs {
        assert o.b in h'.slabs.Keys;
        SlabsKept(s, h', t, o.b, x);
      } else if o.BySlab? {
        assert o.b in h'.slabs.Keys <==> o.b == b;
      } else if o.ByThread? && o.t != t {
        ThreadsKept(s, h', t, o.t, x);
      }
    }
    NextOwner(s, s', ByThread(t), BySlab(b), x');
  }

  /** The slab is gone and its span is on the way back to the page heap. */
  lemma GoneSlabAccounted(s: State, h': H.Heap, t: nat, b: int, s': State)
    requires Accounted(s) && b in s.heap.slabs && b % PAGE_SIZE == 0 && SpanFor(s, t) == 0
    requires h'.slabs.Keys == s.heap.slabs.Keys - {b}
    requires H.SameClasses(s.heap, h') && H.OtherPcs(s.heap, h', t)
    requires var x := SlabSpan(b, s.heap.slabs[b].cls);
             s'.heap == h' && s'.made == s.made - {t} && s'.large == s.large && s'.pages.client == s.pages.client - {x}
    ensures Accounted(s')
  {
    hide Accounted, H.SameClasses, H.OtherPcs, SlabSpan;
    var x' := SlabSpan(b, s.heap.slabs[b].cls);
    assert Owns(s, BySlab(b), x');
    forall o, x {:trigger Owns(s', o, x)} ensures Owns(s', o, x) <==> Owns(s, o, x) && !(o == BySlab(b) && x == x') {
      if o.BySlab? && o.b in s.heap.slabs && o.b != b {
        assert o.b in h'.slabs.Keys;
        SlabsKept(s, h', t, o.b, x);
      } else if o.BySlab? {
        assert o.b !in h'.slabs.Keys;
      } else if o.ByThread? && o.t != t {
        ThreadsKept(s, h', t, o.t, x);
      }
    }
    LostOwner(s, s', BySlab(b), x');
  }
}
