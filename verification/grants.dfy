/**
 The entry points on the two heaps: the blocks the heaps hand out are as fresh as `fast_malloc`, `fast_aligned_alloc` and
 `fast_realloc` rely on.  A caller's block is backed by a block of the arena heap or by a large span of the page heap.
 */
module Grants {
  import opened Config
  import L = Links
  import H = Heap
  import HI = HeapInvariant
  import HS = HeapSteps
  import HT = HeapTheorems
  import HG = HeapGuarantees
  import HQ = HeapRequests
  import P = PageHeap
  import PI = PageHeapInvariant
  import PT = PageHeapTheorems
  import Sizes
  import U = UserApi
  import opened System
  import opened SystemProofs
  import opened SystemTheorems
  import opened SystemGuarantees

  /** The block of the arena heap a caller's small block is. */
  function BlockOf(p: int, l: U.Live): int {
    U.Raw(p, l) - Sizes.HEADER
  }

  /** The span a caller's large block is. */
  function SpanFrom(p: int, l: U.Live): P.Span {
    P.Span(BlockOf(p, l) / PAGE_SIZE, U.SizeOf(l.body) / PAGE_SIZE)
  }

  ghost predicate BackedBy(s: State, p: int, l: U.Live) {
    match l.body
    case Small(cls, slab) => BlockOf(p, l) in s.heap.live && BlockOf(p, l) in s.heap.hdr && s.heap.hdr[BlockOf(p, l)] == H.Header(slab, cls)
    case Large(span) => SpanFrom(p, l) in s.large && BlockOf(p, l) % PAGE_SIZE == 0 && span % PAGE_SIZE == 0
  }

  /** Every caller's block is backed, and no two by the same memory. */
  ghost predicate Backed(s: State, live: map<int, U.Live>) {
    && (forall p {:trigger live[p]} :: p in live ==> BackedBy(s, p, live[p]))
    && (forall p, q {:trigger live[p], live[q]} :: p in live && q in live && p != q ==> BlockOf(p, live[p]) != BlockOf(q, live[q]))
  }

  // ----- Backed blocks are apart ----------------------------------------------------------

  /** The bytes of a caller's block are those of what backs it, and there are some. */
  ghost predicate Measured(s: State, p: int, l: U.Live) {
    && U.Lo(p, l) < U.Hi(p, l)
    && if l.body.Small? then BlockOf(p, l) in s.heap.hdr && BlockEnd(s.heap, BlockOf(p, l)) == U.Hi(p, l)
       else var x := SpanFrom(p, l); x in s.large && x.base * PAGE_SIZE == U.Lo(p, l) && (x.base + x.pages) * PAGE_SIZE == U.Hi(p, l)
  }

  lemma BackedMeasured(s: State, p: int, l: U.Live)
    requires Sound(s) && BackedBy(s, p, l)
    ensures Measured(s, p, l)
  {
    if l.body.Small? {
      hide Sound;
      BlockSize(l.body.cls);
      hide ClassIndexToSize;
    } else {
      SpanPages(s, SpanFrom(p, l));
      hide Sound;
    }
  }

  lemma TwoMeasured(s: State, p: int, l: U.Live, q: int, k: U.Live)
    requires MemoryApart(s) && Measured(s, p, l) && Measured(s, q, k) && U.Lo(p, l) < U.Lo(q, k)
    ensures U.Hi(p, l) <= U.Lo(q, k)
  {
    hide Cached, ClassIndexToSize, U.Hi, SpanFrom, BlockEnd;
    if l.body.Small? && k.body.Small? {
    } else if l.body.Small? {
      assert ClearOfBlocks(s.heap, SpanFrom(q, k));
    } else if k.body.Small? {
      assert ClearOfBlocks(s.heap, SpanFrom(p, l));
    } else {
      assert Apart(SpanFrom(p, l), SpanFrom(q, k));
    }
  }

  /** Two backed blocks that do not start together share no byte. */
  lemma TwoBacked(s: State, p: int, l: U.Live, q: int, k: U.Live)
    requires Sound(s) && BackedBy(s, p, l) && BackedBy(s, q, k) && BlockOf(p, l) < BlockOf(q, k)
    ensures U.Hi(p, l) <= U.Lo(q, k)
  {
    hide Sound, BackedBy, Measured, MemoryApart, U.Hi;
    SoundApart(s);
    BackedMeasured(s, p, l);
    BackedMeasured(s, q, k);
    TwoMeasured(s, p, l, q, k);
  }

  lemma SpanPages(s: State, x: P.Span)
    requires Sound(s) && x in s.large
    ensures x.pages >= 1 && FIRST_PAGE <= x.base && x.base + x.pages <= LAST_PAGE
  {
    LargeHeld(s, x);
    hide HeapSound, Coupled, Accounted;
    SpanInUserSpace(s, x);
    GoodTiles(s);
    hide PT.Good, InUserSpace;
    PT.CallersPages(s.pages, x);
  }

  lemma BlockSize(c: nat)
    ensures ClassIndexToSize(c) >= 16
  {
  }

  /** The callers' blocks are apart because the heaps' are. */
  lemma BackedApart(s: State, live: map<int, U.Live>)
    requires Sound(s) && Backed(s, live)
    ensures U.Apart(live)
  {
    hide Sound, BackedBy, U.Hi, U.Lo, BlockOf;
    forall p, q {:trigger live[p], live[q]} | p in live && q in live && p != q
      ensures U.Hi(p, live[p]) <= U.Lo(q, live[q]) || U.Hi(q, live[q]) <= U.Lo(p, live[p])
    {
      if BlockOf(p, live[p]) < BlockOf(q, live[q]) {
        TwoBacked(s, p, live[p], q, live[q]);
      } else {
        TwoBacked(s, q, live[q], p, live[p]);
      }
    }
  }

  /** Memory backed apart from the callers' blocks is fresh. */
  lemma BackedFresh(s: State, live: map<int, U.Live>, r: int, l: U.Live)
    requires Sound(s) && Backed(s, live) && BackedBy(s, r, l)
    requires forall p {:trigger live[p]} :: p in live ==> BlockOf(p, live[p]) != BlockOf(r, l)
    ensures U.Fresh(live, U.Lo(r, l), U.Hi(r, l))
  {
    hide Sound, BackedBy, U.Hi, U.Lo, BlockOf;
    forall p {:trigger live[p]} | p in live ensures U.Hi(p, live[p]) <= U.Lo(r, l) || U.Hi(r, l) <= U.Lo(p, live[p]) {
      if BlockOf(p, live[p]) < BlockOf(r, l) {
        TwoBacked(s, p, live[p], r, l);
      } else {
        TwoBacked(s, r, l, p, live[p]);
      }
    }
  }

  lemma SmallBody(s: State, r: int, cls: nat, slab: int)
    requires Sound(s) && BackedBy(s, r, U.Plain(U.Small(cls, slab))) && cls >= 1
    ensures U.BodyOk(PAGE_SIZE, r, U.Small(cls, slab))
  {
    hide PT.Good, Coupled, Accounted, InUserSpace, HI.Inv, SlabBytes;
    var v := SomeView(s.heap);
    hide HeapSound;
    HG.BlockInItsSlab(s.heap, v, r - Sizes.HEADER);
    Sixteen(slab, r - Sizes.HEADER);
    BlockSize(cls);
    SlabBytesRange(cls);
  }

  lemma LargeBody(s: State, r: int, span: nat)
    requires Sound(s) && BackedBy(s, r, U.Plain(U.Large(span)))
    ensures U.BodyOk(PAGE_SIZE, r, U.Large(span))
  {
    hide Sound, U.BodyOk;
    SpanPages(s, SpanFrom(r, U.Plain(U.Large(span))));
    PagesBody(r, span);
  }

  lemma PagesBody(r: int, span: nat)
    requires (r - Sizes.HEADER) % PAGE_SIZE == 0 && span % PAGE_SIZE == 0
    requires var b, n := (r - Sizes.HEADER) / PAGE_SIZE, span / PAGE_SIZE; n >= 1 && FIRST_PAGE <= b && b + n <= LAST_PAGE
    ensures U.BodyOk(PAGE_SIZE, r, U.Large(span))
  {
    Sixteen(r - Sizes.HEADER, r - Sizes.HEADER);
  }

  /** A backed block is one the entry points accept. */
  lemma BackedBody(s: State, r: int, body: U.Body)
    requires Sound(s) && BackedBy(s, r, U.Plain(body)) && (body.Small? ==> body.cls >= 1)
    ensures U.BodyOk(PAGE_SIZE, r, body)
  {
    hide Sound, U.BodyOk, BackedBy;
    match body
    case Small(cls, slab) => SmallBody(s, r, cls, slab);
    case Large(span) => LargeBody(s, r, span);
  }

  lemma Sixteen(b: int, y: int)
    requires b % PAGE_SIZE == 0 && (y % 16 == 0 || y == b)
    ensures b % 16 == 0 && (y + Sizes.HEADER) % 16 == 0
  {
  }

  // ----- What runs do to backed blocks --------------------------------------------------------

  /** What one action of the arena heap does to its slabs. */
  ghost predicate SlabsMove(h: H.Heap, h': H.Heap) {
    H.SameClasses(h, h') && (h.slabs.Keys <= h'.slabs.Keys || h'.slabs.Keys <= h.slabs.Keys)
  }

  lemma ActionSlabs(h: H.Heap, v: L.View, a: H.Action)
    requires HI.Inv(h, v) && H.Enabled(h, a) && H.Apply(h, a).Ok?
    ensures SlabsMove(h, H.Apply(h, a).heap)
  {
    hide H.StepThread, H.Malloc, H.Free, HI.Inv;
    if a.DoStep? {
      HS.StepFramed(h, a.t, a.choice);
      if H.PcOf(h, a.t).Extract? && a.choice.span in h.slabs {
        SlabAligned(h, v, a.choice.span);
        SlabNotFresh(h, a.choice.span, H.PcOf(h, a.t).cls);
      }
    } else {
      CallFramed(h, a);
    }
  }

  lemma SlabNotFresh(h: H.Heap, b: int, c: nat)
    requires b in h.slabs
    ensures b != 0 ==> !H.FreshSpan(h, b, SlabBytes(c))
  {
    assert SlabBytes(c) > 0 && SlabBytes(h.slabs[b].cls) > 0;
  }

  /** A block that stays carved keeps its header. */
  lemma HeaderKept(h: H.Heap, v: L.View, h': H.Heap, v': L.View, y: int)
    requires HI.Inv(h, v) && HI.Inv(h', v') && SlabsMove(h, h') && y in h.hdr && y in h'.hdr
    ensures h'.hdr[y] == h.hdr[y]
  {
    hide HI.Inv, SlabBytes, Plausible, ClassIndexToSize;
    HG.BlockInItsSlab(h, v, y);
    HG.BlockInItsSlab(h', v', y);
    BlockSize(h.hdr[y].cls);
    BlockSize(h'.hdr[y].cls);
    var b, d := h.hdr[y].slab, h'.hdr[y].slab;
    if b in h'.slabs.Keys {
      if b < d { HG.SlabsApart(h', v', b, d); }
      if d < b { HG.SlabsApart(h', v', d, b); }
    } else {
      assert d in h.slabs.Keys;
      if b < d { HG.SlabsApart(h, v, b, d); }
      if d < b { HG.SlabsApart(h, v, d, b); }
    }
  }

  predicate FreesBlock(act: Action, y: int) {
    act.Call? && act.act.DoFree? && act.act.block == y
  }

  predicate TakesSpan(act: Action, x: P.Span) {
    (act.LargeFree? || act.LargeRemap?) && act.x == x
  }

  /** The action frees or resizes none of these blocks. */
  ghost predicate Spares(act: Action, live: map<int, U.Live>) {
    forall p {:trigger live[p]} :: p in live ==>
      if live[p].body.Small? then !FreesBlock(act, BlockOf(p, live[p])) else !TakesSpan(act, SpanFrom(p, live[p]))
  }

  lemma LiveCarved(h: H.Heap, v: L.View, y: int)
    requires HI.Inv(h, v) && y in h.live
    ensures y in h.hdr
  {
    assert y in h.hdr.Keys;
  }

  /** A block the client has stays with it, and keeps its header, until the client frees it. */
  lemma BlockStays(h: H.Heap, a: H.Action, y: int)
    requires HT.Reachable(h) && H.Enabled(h, a) && H.Apply(h, a).Ok? && y in h.live && !(a.DoFree? && a.block == y)
    ensures var h' := H.Apply(h, a).heap; y in h'.live && y in h'.hdr && y in h.hdr && h'.hdr[y] == h.hdr[y]
  {
    hide H.Enabled, H.Apply, HI.Inv, HT.Reachable, SlabsMove;
    var h' := H.Apply(h, a).heap;
    HG.NeverHandedOutTwice(h, a);
    assert y in h'.live;
    var v := HT.ReachableInv(h);
    HT.ReachableNext(h, a);
    var v' := HT.ReachableInv(h');
    LiveCarved(h, v, y);
    LiveCarved(h', v', y);
    ActionSlabs(h, v, a);
    HeaderKept(h, v, h', v', y);
  }

  lemma SmallStays(s: State, act: Action, y: int)
    requires Sound(s) && HT.Reachable(s.heap) && Enabled(s, act) && Apply(s, act).Ok? && y in s.heap.live && y in s.heap.hdr && !FreesBlock(act, y)
    ensures var h' := Apply(s, act).state.heap; y in h'.live && y in h'.hdr && h'.hdr[y] == s.heap.hdr[y]
  {
    hide Sound, HT.Reachable, Enabled, Apply, H.Enabled, H.Apply, PagesMove;
    ActionMoves(s, act);
    var h' := Apply(s, act).state.heap;
    if h' != s.heap {
      var a :| H.Enabled(s.heap, a) && H.Apply(s.heap, a) == H.Ok(h') && (a.DoFree? ==> act == Call(a));
      BlockStays(s.heap, a, y);
    }
  }

  lemma LargeStays(s: State, act: Action, x: P.Span)
    requires Enabled(s, act) && Apply(s, act).Ok? && x in s.large && !TakesSpan(act, x)
    ensures x in Apply(s, act).state.large
  {
    hide H.Apply, HeapStep, P.Step, P.Remapped, P.BeginFree, P.BeginAllocate, H.Enabled;
  }

  /** Whatever other threads and callers do, blocks that are not freed stay backed. */
  lemma BackedKept(s: State, act: Action, live: map<int, U.Live>)
    requires Sound(s) && HT.Reachable(s.heap) && Enabled(s, act) && Apply(s, act).Ok? && Backed(s, live) && Spares(act, live)
    ensures Backed(Apply(s, act).state, live)
  {
    hide Sound, HT.Reachable, Enabled, Apply, BlockOf, SpanFrom, FreesBlock, TakesSpan;
    forall p {:trigger live[p]} | p in live ensures BackedBy(Apply(s, act).state, p, live[p]) {
      assert BackedBy(s, p, live[p]);
      if live[p].body.Small? { SmallStays(s, act, BlockOf(p, live[p])); } else { LargeStays(s, act, SpanFrom(p, live[p])); }
    }
  }

  // ----- Grants ---------------------------------------------------------------------------------

  /** What starts at one address is one block. */
  lemma OneStart(s: State, p: int, l: U.Live, q: int, k: U.Live)
    requires Sound(s) && BackedBy(s, p, l) && BackedBy(s, q, k) && BlockOf(p, l) == BlockOf(q, k)
    ensures l.body.Small? <==> k.body.Small?
    ensures l.body.Large? ==> SpanFrom(p, l) == SpanFrom(q, k)
  {
    hide Sound, BackedBy, Measured, MemoryApart, U.Hi;
    SoundApart(s);
    BackedMeasured(s, p, l);
    BackedMeasured(s, q, k);
    StartsMeasured(s, p, l, q, k);
  }

  lemma StartsMeasured(s: State, p: int, l: U.Live, q: int, k: U.Live)
    requires MemoryApart(s) && Measured(s, p, l) && Measured(s, q, k) && BlockOf(p, l) == BlockOf(q, k)
    ensures l.body.Small? <==> k.body.Small?
    ensures l.body.Large? ==> SpanFrom(p, l) == SpanFrom(q, k)
  {
    hide Cached, ClassIndexToSize, U.Hi, SpanFrom, BlockEnd;
    assert k.body.Large? ==> ClearOfBlocks(s.heap, SpanFrom(q, k));
    assert l.body.Large? ==> ClearOfBlocks(s.heap, SpanFrom(p, l));
    assert l.body.Large? && k.body.Large? ==> SpanFrom(p, l) == SpanFrom(q, k) || Apart(SpanFrom(p, l), SpanFrom(q, k));
  }

  function SmallGrant(h: H.Heap, y: int): U.Grant
    requires y in h.hdr
  {
    U.Grant(y + Sizes.HEADER, U.Small(h.hdr[y].cls, h.hdr[y].slab))
  }

  function LargeGrant(x: P.Span): U.Grant {
    U.Grant(x.base * PAGE_SIZE + Sizes.HEADER, U.Large(x.pages * PAGE_SIZE))
  }

  /** A grant the heaps make is one the entry points may be given, and its block is backed. */
  ghost predicate Granted(s: State, live: map<int, U.Live>, w: U.Want, g: U.Grant) {
    g.Grant? && U.GrantOk(PAGE_SIZE, live, w, g) && Backed(s, live[g.raw := U.Plain(g.body)])
  }

  lemma GrantIsFresh(s: State, live: map<int, U.Live>, w: U.Want, g: U.Grant)
    requires Sound(s) && Backed(s, live) && g.Grant? && BackedBy(s, g.raw, U.Plain(g.body))
    requires forall p {:trigger live[p]} :: p in live ==> BlockOf(p, live[p]) != BlockOf(g.raw, U.Plain(g.body))
    requires g.body.Small? ==> w == U.WantSmall(g.body.cls) && w.cls >= 1
    requires g.body.Large? ==> w.WantLarge? && w.bytes <= g.body.span
    ensures Granted(s, live, w, g)
  {
    hide Sound, BackedBy, U.BodyOk, U.Fresh, Backed;
    BackedFresh(s, live, g.raw, U.Plain(g.body));
    BackedBody(s, g.raw, g.body);
    BackedWith(s, live, g.raw, U.Plain(g.body));
  }

  lemma BackedWith(s: State, live: map<int, U.Live>, r: int, l: U.Live)
    requires Backed(s, live) && BackedBy(s, r, l)
    requires forall p {:trigger live[p]} :: p in live ==> BlockOf(p, live[p]) != BlockOf(r, l)
    ensures Backed(s, live[r := l])
  {
    hide BackedBy, BlockOf;
  }

  /** A block handed to the client has the class asked for, which is not class 0. */
  lemma HandedClass(h: H.Heap, a: H.Action, y: int)
    requires HT.Reachable(h) && H.Enabled(h, a) && H.Apply(h, a).Ok?
    requires var h' := H.Apply(h, a).heap; y in h'.live && y !in h.live && y in h'.hdr
    ensures HG.Answers(h, a) && H.Apply(h, a).heap.hdr[y].cls == HG.ClassAsked(h, a) >= 1
  {
    hide H.StepThread, H.Malloc, H.Free, H.FreshSpan, HI.Inv, HT.Reachable, SlabsMove;
    var h' := H.Apply(h, a).heap;
    HG.NeverHandedOutTwice(h, a);
    HQ.HandedOutClass(h, a);
    var v := HT.ReachableInv(h);
    HT.ReachableNext(h, a);
    var v' := HT.ReachableInv(h');
    ActionSlabs(h, v, a);
    HeaderKept(h, v, h', v', y);
  }

  lemma NewClass(s: State, act: Action, y: int)
    requires Sound(s) && HT.Reachable(s.heap) && Enabled(s, act) && Apply(s, act).Ok?
    requires var h' := Apply(s, act).state.heap; y in h'.live && y !in s.heap.live && y in h'.hdr
    ensures Apply(s, act).state.heap.hdr[y].cls >= 1
  {
    hide Sound, HT.Reachable, Enabled, Apply, H.Enabled, H.Apply, PagesMove;
    ActionMoves(s, act);
    var h' := Apply(s, act).state.heap;
    var a :| H.Enabled(s.heap, a) && H.Apply(s.heap, a) == H.Ok(h') && (a.DoFree? ==> act == Call(a));
    HandedClass(s.heap, a, y);
  }

  /** A block handed to the client is fresh memory of the class asked for. */
  lemma NewSmall(s: State, act: Action, live: map<int, U.Live>, y: int)
    requires Sound(s) && HT.Reachable(s.heap) && Enabled(s, act) && Apply(s, act).Ok? && Backed(s, live) && Spares(act, live)
    requires var h' := Apply(s, act).state.heap; y in h'.live && y !in s.heap.live && y in h'.hdr
    ensures var s' := Apply(s, act).state; Granted(s', live, U.WantSmall(s'.heap.hdr[y].cls), SmallGrant(s'.heap, y))
  {
    hide Sound, HT.Reachable, Enabled, Apply, Granted;
    var s' := Apply(s, act).state;
    var g := SmallGrant(s'.heap, y);
    ActionSound(s, act);
    BackedKept(s, act, live);
    NewClass(s, act, y);
    forall p {:trigger live[p]} | p in live ensures BlockOf(p, live[p]) != BlockOf(g.raw, U.Plain(g.body)) {
      assert BackedBy(s, p, live[p]);
      if BlockOf(p, live[p]) == y { OneStart(s', p, live[p], g.raw, U.Plain(g.body)); }
    }
    GrantIsFresh(s', live, U.WantSmall(s'.heap.hdr[y].cls), g);
  }

  /** A span handed out for a large block is fresh memory. */
  lemma NewLarge(s: State, act: Action, live: map<int, U.Live>, x: P.Span, bytes: nat)
    requires Sound(s) && HT.Reachable(s.heap) && Enabled(s, act) && Apply(s, act).Ok? && Backed(s, live) && Spares(act, live)
    requires x in Apply(s, act).state.large && x !in s.large && bytes <= x.pages * PAGE_SIZE
    ensures Granted(Apply(s, act).state, live, U.WantLarge(bytes), LargeGrant(x))
  {
    hide Sound, HT.Reachable, Enabled, Apply, Granted;
    var s', g := Apply(s, act).state, LargeGrant(x);
    var l := U.Plain(g.body);
    ActionSound(s, act);
    BackedKept(s, act, live);
    assert SpanFrom(g.raw, l) == x;
    forall p {:trigger live[p]} | p in live ensures BlockOf(p, live[p]) != BlockOf(g.raw, l) {
      assert BackedBy(s, p, live[p]);
      if BlockOf(p, live[p]) == BlockOf(g.raw, l) { OneStart(s', p, live[p], g.raw, l); }
    }
    GrantIsFresh(s', live, U.WantLarge(bytes), g);
  }

  /** Every block and every span that an action hands out, seen from the callers' blocks. */
  ghost predicate FreshGrants(s: State, s': State, live: map<int, U.Live>) {
    && (forall y {:trigger y in s'.heap.live} :: y in s'.heap.live && y !in s.heap.live && y in s'.heap.hdr ==>
          Granted(s', live, U.WantSmall(s'.heap.hdr[y].cls), SmallGrant(s'.heap, y)))
    && (forall x, bytes: nat {:trigger Granted(s', live, U.WantLarge(bytes), LargeGrant(x))} ::
          x in s'.large && x !in s.large && bytes <= x.pages * PAGE_SIZE ==> Granted(s', live, U.WantLarge(bytes), LargeGrant(x)))
  }

  lemma ActionGrants(s: State, act: Action, live: map<int, U.Live>)
    requires Sound(s) && HT.Reachable(s.heap) && Enabled(s, act) && Backed(s, live) && Spares(act, live)
    ensures Apply(s, act).Ok? && Backed(Apply(s, act).state, live) && FreshGrants(s, Apply(s, act).state, live)
  {
    hide Sound, HT.Reachable, Enabled, Apply, Granted, Backed, Spares, SmallGrant, LargeGrant;
    ActionSound(s, act);
    BackedKept(s, act, live);
    var s' := Apply(s, act).state;
    forall y {:trigger y in s'.heap.live} | y in s'.heap.live && y !in s.heap.live && y in s'.heap.hdr
      ensures Granted(s', live, U.WantSmall(s'.heap.hdr[y].cls), SmallGrant(s'.heap, y))
    {
      NewSmall(s, act, live, y);
    }
    forall x, bytes: nat {:trigger Granted(s', live, U.WantLarge(bytes), LargeGrant(x))} |
      x in s'.large && x !in s.large && bytes <= x.pages * PAGE_SIZE
      ensures Granted(s', live, U.WantLarge(bytes), LargeGrant(x))
    {
      NewLarge(s, act, live, x, bytes);
    }
  }

  /** In every state that a run reaches, and for every action from there: the callers' blocks share no byte, those not
      freed stay backed, and whatever is handed out is fresh memory of the kind asked for. */
  lemma GrantsAreFresh(limit: nat, threads: nat, acts: seq<Action>, act: Action, live: map<int, U.Live>)
    requires PI.Fits(P.Start(limit, threads)) && IsRun(Start(limit, threads), acts) && Run(Start(limit, threads), acts).Ok?
    requires var s := Run(Start(limit, threads), acts).state; Enabled(s, act) && Backed(s, live) && Spares(act, live)
    ensures var s := Run(Start(limit, threads), acts).state;
            U.Apart(live) && Apply(s, act).Ok? && Backed(Apply(s, act).state, live) && FreshGrants(s, Apply(s, act).state, live)
  {
    hide Sound, HT.Reachable, Enabled, Apply, Backed, Spares, FreshGrants, IsRun, Run, Start, PT.Reaches, U.Apart;
    StartSound(limit, threads);
    RunSound(Start(limit, threads), acts);
    RunsOfBoth(limit, threads, acts);
    var s := Run(Start(limit, threads), acts).state;
    BackedApart(s, live);
    ActionGrants(s, act, live);
  }

  /** A span that the operating system shrinks, grows or moves for `fast_realloc` is fresh but for the block itself. */
  lemma RemapIsFresh(s: State, t: nat, live: map<int, U.Live>, p: int, n: nat, os: U.Remap, y: P.Span)
    requires Sound(s) && HT.Reachable(s.heap) && Backed(s, live) && p in live && U.IsLarge(live[p])
    requires Enabled(s, LargeRemap(t, SpanFrom(p, live[p]), y))
    requires os.base == y.base * PAGE_SIZE && Sizes.RoundUp(n + Sizes.HEADER, PAGE_SIZE) == y.pages * PAGE_SIZE
    ensures U.RemapOk(PAGE_SIZE, live, p, n, os)
  {
    hide Sound, HT.Reachable, Enabled, Apply, Sizes.RoundUp;
    var act, rest := LargeRemap(t, SpanFrom(p, live[p]), y), live - {p};
    RestSpared(s, act, live, p);
    ActionSound(s, act);
    var s', g := Apply(s, act).state, LargeGrant(y);
    var l := U.Plain(g.body);
    BackedKept(s, act, rest);
    RemapGrants(s, t, SpanFrom(p, live[p]), y);
    assert SpanFrom(g.raw, l) == y;
    assert BackedBy(s', g.raw, l);
    forall q {:trigger rest[q]} | q in rest ensures BlockOf(q, rest[q]) != BlockOf(g.raw, l) {
      assert rest[q] == live[q] && BackedBy(s, q, live[q]) && BackedBy(s, p, live[p]);
      if BlockOf(q, rest[q]) == BlockOf(g.raw, l) { OneStart(s', q, rest[q], g.raw, l); }
    }
    BackedFresh(s', rest, g.raw, l);
    BackedBody(s', g.raw, g.body);
  }

  lemma RestSpared(s: State, act: Action, live: map<int, U.Live>, p: int)
    requires Sound(s) && Backed(s, live) && p in live && U.IsLarge(live[p]) && act.LargeRemap? && act.x == SpanFrom(p, live[p])
    ensures Backed(s, live - {p}) && Spares(act, live - {p})
  {
    hide Sound;
    var rest := live - {p};
    forall q {:trigger rest[q]} | q in rest
      ensures if rest[q].body.Small? then !FreesBlock(act, BlockOf(q, rest[q])) else !TakesSpan(act, SpanFrom(q, rest[q]))
    {
      assert rest[q] == live[q] && BackedBy(s, q, live[q]) && BackedBy(s, p, live[p]);
    }
  }

  lemma RemapGrants(s: State, t: nat, x: P.Span, y: P.Span)
    requires Sound(s) && Enabled(s, LargeRemap(t, x, y))
    ensures y in Apply(s, LargeRemap(t, x, y)).state.large && y !in s.large - {x}
  {
    hide HeapSound, Coupled, InUserSpace, Accounted, PT.Good;
    LargeHeld(s, x);
    PT.RemapGood(s.pages, x, y);
    if y in s.large - {x} { LargeHeld(s, y); }
  }

  /** An over-aligned block takes the place of the raw block it is cut from. */
  lemma AlignedBacked(s: State, live: map<int, U.Live>, raw: int, p: int, a: nat, n: nat)
    requires Backed(s, live) && raw in live && live[raw].Plain? && p !in live - {raw}
    ensures Backed(s, (live - {raw})[p := U.Over(live[raw].body, raw, a, n)])
  {
    var l := U.Over(live[raw].body, raw, a, n);
    var live' := (live - {raw})[p := l];
    assert BackedBy(s, raw, live[raw]);
    forall q {:trigger live'[q]} | q in live' && q != p ensures q in live && q != raw && live'[q] == live[q] {
    }
  }
}
