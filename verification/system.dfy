/**
 The arena heap on top of the page heap, as one machine for any number of threads.  A thread enters
 the page heap where the code calls it: to make a slab, to give up an empty one, to serve a
 large request or to purge.  It keeps its class locks meanwhile.  A large block may be shrunk,
 grown or moved by the operating system past both heaps.  Only the operating system is left outside.
 */
module System {
  import opened Config
  import H = Heap
  import P = PageHeap
  import PT = PageHeapTheorems

  /** Both heaps; the address of a span a thread has just been given to make a slab in, or 0 for
      none; and the spans of large blocks. */
  datatype State = State(heap: H.Heap, pages: P.State, made: map<nat, int>, large: set<P.Span>)

  datatype Choice = Choice(spurious: bool, junk: int, os: P.Choice)

  datatype Outcome = Ok(state: State) | Fault

  /** The first and the last page below 2^47 that user memory may use. */
  const FIRST_PAGE: int := 0x10
  const LAST_PAGE: int := 0x8_0000_0000

  function SlabPages(c: nat): nat {
    SlabBytes(c) / PAGE_SIZE
  }

  function SlabSpan(b: int, c: nat): P.Span {
    P.Span(b / PAGE_SIZE, SlabPages(c))
  }

  /** A thread inside the page heap takes one step there; an allocation that ends hands over its span. */
  function PageTurn(s: State, t: nat, os: P.Choice): State
    requires t < |s.pages.pcs|
  {
    var pc := s.pages.pcs[t];
    var s' := s.(pages := P.Step(s.pages, t, os));
    if PT.Gives(pc, os) then
      if H.PcOf(s.heap, t).Extract? then s'.(made := s.made[t := PT.Given(pc, os) * PAGE_SIZE])
      else s'.(large := s.large + {P.Span(PT.Given(pc, os), PT.Asked(pc))})
    else if pc.OsMap? && !os.ok && H.PcOf(s.heap, t).Extract? then s'.(made := s.made[t := 0])
    else s'
  }

  /** The step gives up the slab of the block it folds in. */
  predicate GivesUp(h: H.Heap, h': H.Heap, t: nat) {
    H.PcOf(h, t).Fold? && H.FoldSlab(h, t) in h.slabs && H.FoldSlab(h, t) !in h'.slabs
  }

  /** The thread is about to make a slab and has not asked for memory yet. */
  predicate Asks(s: State, t: nat) {
    var pc := H.PcOf(s.heap, t);
    pc.Extract? && H.WantsSlab(s.heap, t, pc.cls) && t !in s.made
  }

  /** The heap step of a thread, with the memory it was given. */
  function HeapStep(s: State, t: nat, ch: Choice): H.Outcome {
    H.StepThread(s.heap, t, H.Choice(ch.spurious, if t in s.made then s.made[t] else 0, ch.junk))
  }

  /** A thread outside the page heap takes a step of the arena heap, or enters the page heap. */
  function HeapTurn(s: State, t: nat, ch: Choice): Outcome
    requires t < |s.pages.pcs|
  {
    var pc := H.PcOf(s.heap, t);
    if Asks(s, t) then Ok(s.(pages := P.BeginAllocate(s.pages, t, SlabPages(pc.cls))))
    else
      match HeapStep(s, t, ch)
      case Fault(_) => Fault
      case Ok(h') =>
        var s' := s.(heap := h', made := s.made - {t});
        if GivesUp(s.heap, h', t) then
          var b := H.FoldSlab(s.heap, t);
          var x := SlabSpan(b, s.heap.slabs[b].cls);
          if x in s.pages.client then Ok(s'.(pages := P.BeginFree(s.pages, t, x))) else Fault
        else if pc.PurgeLock? && pc.arena >= NUM_ARENAS then Ok(s'.(pages := P.BeginPurge(s.pages, t)))
        else Ok(s')
  }

  datatype Action =
    | Call(act: H.Action)
    | LargeMalloc(t: nat, n: nat)
    | LargeFree(t: nat, x: P.Span)
    | LargeRemap(t: nat, x: P.Span, y: P.Span)
    | Turn(t: nat, choice: Choice)

  predicate Outside(s: State, t: nat) {
    t < |s.pages.pcs| && s.pages.pcs[t] == P.Out
  }

  /** What callers may do, and what the operating system may hand out: pages nobody has, in user space. */
  ghost predicate Enabled(s: State, act: Action) {
    match act
    case Call(a) => !a.DoStep? && H.Enabled(s.heap, a) && (!a.DoWrite? ==> Outside(s, a.t))
    case LargeMalloc(t, n) => Outside(s, t) && H.PcOf(s.heap, t).Idle? && n >= 1
    case LargeFree(t, x) => Outside(s, t) && H.PcOf(s.heap, t).Idle? && x in s.large
    case LargeRemap(t, x, y) =>
      && Outside(s, t) && H.PcOf(s.heap, t).Idle? && x in s.large && P.Enabled(s.pages, P.Remap(t, x, y))
      && FIRST_PAGE <= y.base && y.base + y.pages <= LAST_PAGE
    case Turn(t, ch) =>
      && P.Enabled(s.pages, P.Run(t, ch.os))
      && ((s.pages.pcs[t].OsTake? || s.pages.pcs[t].OsMap?) && ch.os.ok ==>
            FIRST_PAGE <= ch.os.base && ch.os.base + s.pages.pcs[t].n <= LAST_PAGE)
  }

  function Apply(s: State, act: Action): Outcome
    requires Enabled(s, act)
  {
    match act
    case Call(a) =>
      (match H.Apply(s.heap, a)
       case Fault(_) => Fault
       case Ok(h') => Ok(s.(heap := h')))
    case LargeMalloc(t, n) => Ok(s.(pages := P.BeginAllocate(s.pages, t, n)))
    case LargeFree(t, x) => Ok(s.(pages := P.BeginFree(s.pages, t, x), large := s.large - {x}))
    case LargeRemap(t, x, y) => Ok(s.(pages := P.Remapped(s.pages, x, y), large := s.large - {x} + {y}))
    case Turn(t, ch) => if s.pages.pcs[t] == P.Out then HeapTurn(s, t, ch) else Ok(PageTurn(s, t, ch.os))
  }

  function Start(limit: nat, threads: nat): State {
    State(H.Empty, P.Start(limit, threads), map[], {})
  }

  ghost predicate IsRun(s: State, acts: seq<Action>)
    decreases |acts|
  {
    |acts| > 0 ==>
      && Enabled(s, acts[0])
      && (Apply(s, acts[0]).Ok? ==> IsRun(Apply(s, acts[0]).state, acts[1..]))
  }

  ghost function Run(s: State, acts: seq<Action>): Outcome
    requires IsRun(s, acts)
    decreases |acts|
  {
    if |acts| == 0 then Ok(s)
    else match Apply(s, acts[0])
      case Fault => Fault
      case Ok(s') => Run(s', acts[1..])
  }

  // ----- What holds in every state ------------------------------------------------

  /** Who has a span of the page heap: a slab, a thread about to make one, or the owner of a large block. */
  datatype Owner = BySlab(b: int) | ByThread(t: nat) | ByLarge

  ghost predicate Owns(s: State, o: Owner, x: P.Span) {
    match o
    case BySlab(b) => b in s.heap.slabs && b % PAGE_SIZE == 0 && x == SlabSpan(b, s.heap.slabs[b].cls)
    case ByThread(t) =>
      && t in s.made && s.made[t] != 0 && s.made[t] % PAGE_SIZE == 0 && H.PcOf(s.heap, t).Extract?
      && x == SlabSpan(s.made[t], H.PcOf(s.heap, t).cls)
    case ByLarge => x in s.large
  }

  /** Every span the page heap has handed out has exactly one owner, and owners have nothing else. */
  ghost predicate Accounted(s: State) {
    && (forall o, x {:trigger Owns(s, o, x)} :: Owns(s, o, x) ==> x in s.pages.client)
    && (forall o, o', x {:trigger Owns(s, o, x), Owns(s, o', x)} :: Owns(s, o, x) && Owns(s, o', x) ==> o == o')
    && (forall x {:trigger x in s.pages.client} :: x in s.pages.client ==> Owned(s, x))
  }

  ghost predicate Owned(s: State, x: P.Span) {
    exists o :: Owns(s, o, x)
  }

  /** The thread is making a slab: it holds the class lock, has no blocks yet and the arena has no partial slab. */
  predicate Making(h: H.Heap, t: nat) {
    var pc := H.PcOf(h, t);
    pc.Extract? && pc.got == 0 && pc.cls < NUM_SIZE_CLASSES && H.In(h.partial, H.Key(H.Home(t), pc.cls)) == []
  }

  /** Where a thread may be in the arena heap while it is in the page heap: outside, making a slab
      or giving one up.  It never waits for a class lock there. */
  predicate Visits(h: H.Heap, t: nat, p: P.Pc) {
    match H.PcOf(h, t)
    case Idle => true
    case Extract(c, _, _) => Making(h, t) && PT.Asked(p) == SlabPages(c)
    case Fold(_, _, _) => PT.Asked(p) == 0
    case _ => false
  }

  ghost predicate Coupled(s: State) {
    && (forall t: nat {:trigger H.PcOf(s.heap, t)} :: t >= |s.pages.pcs| ==> H.PcOf(s.heap, t) == H.Idle)
    && (forall t: nat {:trigger s.pages.pcs[t]} :: t < |s.pages.pcs| && s.pages.pcs[t] != P.Out ==>
          t !in s.made && Visits(s.heap, t, s.pages.pcs[t]))
    && (forall t: nat {:trigger t in s.made} :: t in s.made ==> Outside(s, t) && Making(s.heap, t) && s.made[t] % PAGE_SIZE == 0)
  }

  ghost predicate InUserSpace(s: State) {
    forall i {:trigger i in s.pages.held} :: i in s.pages.held ==> FIRST_PAGE <= i < LAST_PAGE
  }
}
