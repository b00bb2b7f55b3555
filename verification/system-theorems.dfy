/** The arena heap on the page heap: what holds in every run of any number of threads. */
module SystemTheorems {
  import opened Config
  import L = Links
  import H = Heap
  import HI = HeapInvariant
  import HF = HeapFrames
  import HS = HeapSteps
  import HT = HeapTheorems
  import P = PageHeap
  import PI = PageHeapInvariant
  import PageHeapTiles
  import PT = PageHeapTheorems
  import opened System
  import opened SystemProofs

  // ----- Every action keeps the invariant ---------------------------------------------

  lemma ZeroIsNoSlab(h: H.Heap)
    requires HeapSound(h)
    ensures 0 !in h.slabs
  {
    hide HI.Inv, HeapSound;
    var v := SomeView(h);
    if 0 in h.slabs { SlabAligned(h, v, 0); }
  }

  lemma NotMade(s: State, t: nat)
    requires Coupled(s) && !H.PcOf(s.heap, t).Extract?
    ensures t !in s.made
  {
  }

  /** A step that gives up no slab. */
  lemma MovedSound(s: State, h': H.Heap, t: nat)
    requires Sound(s) && Outside(s, t) && Stepped(s, h', t) && !GivesUp(s.heap, h', t)
    ensures Sound(Moved(s, h', t))
  {
    hide PT.Good, Coupled, Accounted, HeapSound, HS.Framed, Given, H.SameClasses, H.OtherPcs;
    ZeroIsNoSlab(s.heap);
    MovedCoupled(s, h', t);
    SlabsAfter(s, h', t);
    if SpanFor(s, t) != 0 {
      NewSlabAccounted(s, h', t);
    } else {
      SameSlabsAccounted(s, h', t);
    }
  }

  function GivenUp(s: State, h': H.Heap, t: nat, x: P.Span): State
    requires t < |s.pages.pcs|
  {
    Moved(s, h', t).(pages := P.BeginFree(s.pages, t, x))
  }

  lemma GivenUpVisits(s: State, h': H.Heap, t: nat)
    requires Stepped(s, h', t) && GivesUp(s.heap, h', t)
    ensures H.PcOf(h', t) == H.PcOf(s.heap, t) && SpanFor(s, t) == 0
  {
    hide HeapSound, H.OtherPcs, H.SameClasses, H.PartialBut, H.WantsSlab, H.FoldSlab;
    assert H.FoldSlab(s.heap, t) in s.heap.slabs.Keys && H.FoldSlab(s.heap, t) !in h'.slabs.Keys;
  }

  /** A step that gives up a slab: the page heap takes back exactly the span the slab was made in. */
  lemma GivenUpSound(s: State, h': H.Heap, t: nat, x: P.Span)
    requires Sound(s) && Outside(s, t) && Stepped(s, h', t) && GivesUp(s.heap, h', t)
    requires x == SlabSpan(H.FoldSlab(s.heap, t), s.heap.slabs[H.FoldSlab(s.heap, t)].cls)
    ensures x in s.pages.client && Sound(GivenUp(s, h', t, x))
  {
    hide PT.Good, Coupled, Accounted, HeapSound, HS.Framed, Given, H.SameClasses, H.OtherPcs, HI.Inv, H.FoldSlab, SlabSpan, PT.Asked;
    var s', b := GivenUp(s, h', t, x), H.FoldSlab(s.heap, t);
    ZeroIsNoSlab(s.heap);
    var v := SomeView(s.heap);
    SlabAligned(s.heap, v, b);
    assert Owns(s, BySlab(b), x);
    OwnerHas(s, BySlab(b), x);
    GivenUpVisits(s, h', t);
    SlabsAfter(s, h', t);
    GoneSlabAccounted(s, h', t, b, s');
    MovedCoupled(s, h', t);
    FreeAsksNothing(s.pages, t, x);
    GivenUpCoupled(s, h', t, x);
    EnterGood(s.pages, P.Free(t, x));
  }

  lemma GivenUpCoupled(s: State, h': H.Heap, t: nat, x: P.Span)
    requires t < |s.pages.pcs| && Outside(s, t) && Coupled(Moved(s, h', t)) && H.PcOf(h', t).Fold?
    requires PT.Asked(P.BeginFree(s.pages, t, x).pcs[t]) == 0
    ensures Coupled(GivenUp(s, h', t, x))
  {
    hide Coupled, PT.Asked;
    EnterCoupled(Moved(s, h', t), GivenUp(s, h', t, x), t);
  }

  lemma PurgeEnds(s: State, t: nat, ch: Choice)
    requires var pc := H.PcOf(s.heap, t); pc.PurgeLock? && pc.arena >= NUM_ARENAS
    ensures HeapStep(s, t, ch).Ok? && H.PcOf(HeapStep(s, t, ch).heap, t) == H.Idle
  {
    assert HeapStep(s, t, ch) == H.StepPurgeLock(s.heap, t, H.PcOf(s.heap, t).cls, H.PcOf(s.heap, t).arena);
    hide HeapStep, H.StepThread;
  }

  lemma HeapTurnSound(s: State, t: nat, ch: Choice)
    requires Sound(s) && Outside(s, t)
    ensures HeapTurn(s, t, ch).Ok? && Sound(HeapTurn(s, t, ch).state)
  {
    hide PT.Good, Accounted, Coupled, HeapSound, InUserSpace, HI.Inv, HeapStep, Stepped, GivesUp, H.FoldSlab, H.WantsSlab, SlabSpan, SlabPages;
    var pc := H.PcOf(s.heap, t);
    if Asks(s, t) {
      var v := SomeView(s.heap);
      MakingIsWanting(s.heap, v, t);
      SlabPagesAre(pc.cls);
      AllocateSound(s, t, SlabPages(pc.cls));
    } else {
      HeapStepSound(s, t, ch);
      var h' := HeapStep(s, t, ch).heap;
      if GivesUp(s.heap, h', t) {
        assert H.FoldSlab(s.heap, t) in s.heap.slabs by { SlabWas(s.heap, h', t); }
        GivenUpSound(s, h', t, SlabSpan(H.FoldSlab(s.heap, t), s.heap.slabs[H.FoldSlab(s.heap, t)].cls));
      } else {
        MovedSound(s, h', t);
        if pc.PurgeLock? && pc.arena >= NUM_ARENAS {
          PurgeEnds(s, t, ch);
          PurgeSound(Moved(s, h', t), t);
        }
      }
    }
  }

  lemma SlabWas(h: H.Heap, h': H.Heap, t: nat)
    requires GivesUp(h, h', t)
    ensures H.FoldSlab(h, t) in h.slabs
  {
  }

  /** What a call of the client may change before the thread takes its first step. */
  ghost predicate Called(h: H.Heap, h': H.Heap, t: nat) {
    h'.slabs == h.slabs && h'.partial == h.partial && H.OtherPcs(h, h', t)
  }

  lemma CallFramed(h: H.Heap, act: H.Action)
    requires !act.DoStep? && H.Apply(h, act).Ok?
    ensures if act.DoWrite? then H.Apply(h, act).heap.(mem := h.mem) == h else Called(h, H.Apply(h, act).heap, act.t)
  {
    hide H.Malloc, H.Free;
  }

  lemma CallCoupled(s: State, h': H.Heap, t: nat)
    requires Coupled(s) && Outside(s, t) && H.PcOf(s.heap, t) == H.Idle && Called(s.heap, h', t)
    ensures Coupled(s.(heap := h'))
  {
    hide H.OtherPcs;
    NotMade(s, t);
    var s' := s.(heap := h');
    forall u: nat | u != t ensures H.PcOf(h', u) == H.PcOf(s.heap, u) { HS.PcKept(s.heap, h', t, u); }
    forall u: nat | u < |s'.pages.pcs| && s'.pages.pcs[u] != P.Out ensures u !in s'.made && Visits(h', u, s'.pages.pcs[u]) {
      assert Visits(s.heap, u, s.pages.pcs[u]);
    }
    forall u: nat | u in s'.made ensures Outside(s', u) && Making(h', u) && s'.made[u] % PAGE_SIZE == 0 {
      assert u != t;
    }
  }

  lemma CallAccounted(s: State, h': H.Heap, t: nat)
    requires Coupled(s) && Accounted(s) && H.PcOf(s.heap, t) == H.Idle && Called(s.heap, h', t)
    ensures Accounted(s.(heap := h'))
  {
    hide H.OtherPcs, Accounted;
    NotMade(s, t);
    var s' := s.(heap := h');
    forall o, x {:trigger Owns(s', o, x)} ensures Owns(s', o, x) <==> Owns(s, o, x) {
      if o.ByThread? && o.t != t { HS.PcKept(s.heap, h', t, o.t); }
    }
    SameOwners(s, s');
  }

  lemma CallSound(s: State, act: H.Action)
    requires Sound(s) && Enabled(s, Call(act))
    ensures Apply(s, Call(act)).Ok? && Sound(Apply(s, Call(act)).state)
  {
    hide PT.Good, Accounted, Coupled, HeapSound, HI.Inv, H.Apply, H.OtherPcs;
    var v := SomeView(s.heap);
    var v' := HT.EveryStep(s.heap, v, act);
    var h' := H.Apply(s.heap, act).heap;
    assert HeapSound(h') by { ViewIsSound(h', v'); }
    CallFramed(s.heap, act);
    if act.DoWrite? {
      WriteCoupled(s, h');
    } else {
      CallCoupled(s, h', act.t);
      CallAccounted(s, h', act.t);
    }
  }

  lemma ViewIsSound(h: H.Heap, v: L.View)
    requires HI.Inv(h, v)
    ensures HeapSound(h)
  {
    hide HI.Inv;
  }

  lemma WriteCoupled(s: State, h': H.Heap)
    requires Coupled(s) && Accounted(s) && h'.(mem := s.heap.mem) == s.heap
    ensures Coupled(s.(heap := h')) && Accounted(s.(heap := h'))
  {
    hide Accounted;
    var s' := s.(heap := h');
    assert forall u: nat :: H.PcOf(h', u) == H.PcOf(s.heap, u);
    SameOwners(s, s');
  }

  lemma ActionSound(s: State, act: Action)
    requires Sound(s) && Enabled(s, act)
    ensures Apply(s, act).Ok? && Sound(Apply(s, act).state)
  {
    hide PT.Good, Accounted, Coupled, HeapSound, InUserSpace, HI.Inv, H.Apply, PageTurn, HeapTurn;
    match act
    case Call(a) => CallSound(s, a);
    case LargeMalloc(t, n) =>
      NotMade(s, t);
      AllocateSound(s, t, n);
    case LargeFree(t, x) =>
      NotMade(s, t);
      LargeFreeSound(s, t, x);
    case LargeRemap(t, x, y) => LargeRemapSound(s, t, x, y);
    case Turn(t, ch) =>
      if s.pages.pcs[t] == P.Out { HeapTurnSound(s, t, ch); } else { PageTurnSound(s, t, ch); }
  }

  lemma StartSound(limit: nat, threads: nat)
    requires PI.Fits(P.Start(limit, threads))
    ensures Sound(Start(limit, threads))
  {
    PT.StartGood(limit, threads);
    HT.EmptyInv();
    hide PT.Good, HI.Inv;
    ViewIsSound(H.Empty, L.View(map[], map[], map[]));
  }

  /** In every run of the two heaps together no check of either fires, no span is freed that was not
      handed out, and every span handed out has exactly one owner: only the operating system is trusted. */
  lemma {:induction false} RunSound(s: State, acts: seq<Action>)
    requires Sound(s) && IsRun(s, acts)
    ensures Run(s, acts).Ok? && Sound(Run(s, acts).state)
    decreases |acts|
  {
    if |acts| > 0 {
      ActionSound(s, acts[0]);
      hide Sound, Apply, Enabled;
      RunSound(Apply(s, acts[0]).state, acts[1..]);
    }
  }

  lemma SystemIsSafe(limit: nat, threads: nat, acts: seq<Action>)
    requires PI.Fits(P.Start(limit, threads)) && IsRun(Start(limit, threads), acts)
    ensures Run(Start(limit, threads), acts).Ok?
    ensures Accounted(Run(Start(limit, threads), acts).state)
  {
    hide Apply, Enabled, Accounted, IsRun, Run, Start;
    StartSound(limit, threads);
    RunSound(Start(limit, threads), acts);
  }

  // ----- Progress -------------------------------------------------------------------------

  /** A call of thread `t` is under way. */
  predicate UnderWay(s: State, t: nat) {
    t < |s.pages.pcs| && (s.pages.pcs[t] != P.Out || H.PcOf(s.heap, t) != H.Idle)
  }

  /** Thread `t` is about to take a class lock that is taken. */
  predicate WaitsForClass(h: H.Heap, t: nat) {
    match H.PcOf(h, t)
    case RefillLock(c, _) => H.Key(H.Home(t), c) in h.locks
    case PurgeLock(c, a) => a < NUM_ARENAS && H.Key(a, c) in h.locks
    case _ => false
  }

  /** Thread `t` waits for the lock of a page bin or of the span pool, or for a class lock. */
  ghost predicate Waits(s: State, t: nat)
    requires t < |s.pages.pcs|
  {
    if s.pages.pcs[t] != P.Out then PT.Waiting(s.pages, t) else WaitsForClass(s.heap, t)
  }

  lemma LockHolder(h: H.Heap, v: L.View, k: H.Key)
    requires HI.Inv(h, v) && k in h.locks
    ensures H.PcOf(h, h.locks[k]) != H.Idle && !WaitsForClass(h, h.locks[k])
  {
    InvLocks(h, v);
    hide HI.Inv, HI.LocksOk;
    HF.HeldBy(h.locks, h.pcs, h.locks[k], k);
  }

  /** Locks are asked for in the order class locks, page bins from high to low, span pool; a second class lock
      is only tried.  So whenever a call is under way, some call under way is not waiting. */
  lemma NoDeadlock(s: State, t: nat)
    requires Sound(s) && UnderWay(s, t)
    ensures exists u :: UnderWay(s, u) && !Waits(s, u)
  {
    hide PT.Good, Accounted, HeapSound, InUserSpace, HI.Inv, WaitsForClass;
    if u: nat :| u < |s.pages.pcs| && s.pages.pcs[u] != P.Out {
      var w := SomePageCallGoesOn(s.pages, u);
      assert UnderWay(s, w) && !Waits(s, w);
    } else if WaitsForClass(s.heap, t) {
      var v := SomeView(s.heap);
      var k := WantedClass(s.heap, t);
      LockHolder(s.heap, v, k);
      var u := s.heap.locks[k];
      assert H.PcOf(s.heap, u) != H.Idle;
      assert UnderWay(s, u) && !Waits(s, u);
    } else {
      assert UnderWay(s, t) && !Waits(s, t);
    }
  }

  lemma SomePageCallGoesOn(p: P.State, t: nat) returns (u: nat)
    requires PT.Good(p) && t < |p.pcs| && p.pcs[t] != P.Out
    ensures u < |p.pcs| && p.pcs[u] != P.Out && !PT.Waiting(p, u)
  {
    hide PI.Control, PI.Bytes, PageHeapTiles.Tiled, PT.Waiting;
    PT.NoDeadlock(p, t);
    u :| u < |p.pcs| && p.pcs[u] != P.Out && !PT.Waiting(p, u);
  }

  lemma WantedClass(h: H.Heap, t: nat) returns (k: H.Key)
    requires WaitsForClass(h, t)
    ensures k in h.locks
  {
    match H.PcOf(h, t)
    case RefillLock(c, _) => k := H.Key(H.Home(t), c);
    case PurgeLock(c, a) => k := H.Key(a, c);
  }

  lemma SoundGoesOn(s: State, t: nat)
    requires Sound(s) && UnderWay(s, t)
    ensures CanGoOn(s)
  {
    hide Sound, Waits, Apply, Enabled;
    NoDeadlock(s, t);
    var u: nat :| UnderWay(s, u) && !Waits(s, u);
    var ch := Choice(false, 0, P.Choice(0, false));
    TurnEnabled(s, u);
    ActionSound(s, Turn(u, ch));
    assert Goes(s, u, ch);
  }

  /** In every state that a run reaches, if a call is under way then some call under way does not wait, and
      its thread can take its turn, even if the operating system has no memory. */
  lemma SomeCallGoesOn(limit: nat, threads: nat, acts: seq<Action>, t: nat)
    requires PI.Fits(P.Start(limit, threads)) && IsRun(Start(limit, threads), acts)
    ensures var o := Run(Start(limit, threads), acts); o.Ok? && (UnderWay(o.state, t) ==> CanGoOn(o.state))
  {
    hide Apply, Enabled, Sound, CanGoOn, IsRun, Run, Start, UnderWay;
    StartSound(limit, threads);
    RunSound(Start(limit, threads), acts);
    var s := Run(Start(limit, threads), acts).state;
    if UnderWay(s, t) { SoundGoesOn(s, t); }
  }

  ghost predicate Goes(s: State, u: nat, ch: Choice) {
    UnderWay(s, u) && !Waits(s, u) && Enabled(s, Turn(u, ch)) && Apply(s, Turn(u, ch)).Ok?
  }

  ghost predicate CanGoOn(s: State) {
    exists u, ch :: Goes(s, u, ch)
  }

  lemma TurnEnabled(s: State, u: nat)
    requires u < |s.pages.pcs|
    ensures Enabled(s, Turn(u, Choice(false, 0, P.Choice(0, false))))
  {
  }
}
