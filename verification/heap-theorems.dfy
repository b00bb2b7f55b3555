/** What holds in every run of the heap machine. */
module HeapTheorems {
  import opened Config
  import opened Links
  import opened Heap
  import opened HeapInvariant
  import opened HeapFrames
  import opened HeapCore
  import opened HeapClient
  import opened HeapReturn
  import opened HeapRefill
  import opened HeapFeed
  import opened HeapFold
  import opened HeapExtract

  /** The list an action pushes onto queue `q`: that of a compare-and-swap that succeeds. */
  ghost function Pushes(h: Heap, act: Action, v: View, q: ListId): seq<int> {
    if act.DoStep? && PcOf(h, act.t).PushCas? && q == Pending(PcOf(h, act.t).arena, PcOf(h, act.t).cls)
       && Head(h.mem, q) == PcOf(h, act.t).seen && !act.choice.spurious
    then Items(v, Local(act.t, PcOf(h, act.t).reg)) else []
  }

  /** The action exchanges queue `q` for the empty one. */
  predicate Drains(h: Heap, act: Action, q: ListId) {
    act.DoStep? &&
    match PcOf(h, act.t)
    case RefillSwap(c, _) => q == Pending(Home(act.t), c)
    case StealSwap(c, _, _, off) => q == Pending(Victim(act.t, off), c)
    case Drain(c, a, _) => q == Pending(a, c)
    case PurgeSwap(c, a) => q == Pending(a, c)
    case _ => false
  }

  /** What an action does to one pending queue: an exchange hands all of it to the acting thread, a
      push that succeeds puts the thread's whole list in front, and nothing else changes it. */
  ghost predicate QueueStep(h: Heap, act: Action, v: View, v': View, q: ListId) {
    if Drains(h, act, q) then
      Items(v', q) == [] && Items(v, Local(act.t, Work)) == [] && Items(v', Local(act.t, Work)) == Items(v, q)
    else
      && Items(v', q) == Pushes(h, act, v, q) + Items(v, q)
      && (Pushes(h, act, v, q) != [] ==> Items(v', Local(act.t, PcOf(h, act.t).reg)) == [])
  }

  ghost predicate QueuesStep(h: Heap, act: Action, v: View, v': View) {
    forall a, c {:trigger Pending(a, c)} :: QueueStep(h, act, v, v', Pending(a, c))
  }

  /** Neither a push that succeeds nor an exchange. */
  predicate NoQueue(h: Heap, act: Action) {
    act.DoStep? ==>
      match PcOf(h, act.t)
      case PushCas(_, _, a, c, _, seen) => Head(h.mem, Pending(a, c)) != seen || act.choice.spurious
      case RefillSwap(_, _) => false
      case StealSwap(_, _, _, _) => false
      case Drain(_, _, _) => false
      case PurgeSwap(_, _) => false
      case _ => true
  }

  lemma KeptIsStep(h: Heap, act: Action, v: View, v': View)
    requires QueuesKept(v, v') && NoQueue(h, act)
    ensures QueuesStep(h, act, v, v')
  {
    hide Items, Head;
  }

  lemma StayIsStep(h: Heap, act: Action, v: View)
    requires NoQueue(h, act)
    ensures QueuesStep(h, act, v, v)
  {
    hide Items, Head, QueuesStep;
    KeptIsStep(h, act, v, v);
  }

  lemma SwapIsStep(h: Heap, v: View, a: nat, c: nat, t: nat, ch: Choice)
    requires Items(v, Local(t, Work)) == [] && !PcOf(h, t).PushCas?
    requires forall q {:trigger Drains(h, DoStep(t, ch), q)} :: Drains(h, DoStep(t, ch), q) <==> q == Pending(a, c)
    ensures QueuesStep(h, DoStep(t, ch), v, VMove(v, Pending(a, c), Local(t, Work)))
  {
    hide Items, Drains;
    var v' := VMove(v, Pending(a, c), Local(t, Work));
    forall i, j {:trigger Pending(i, j)} ensures QueueStep(h, DoStep(t, ch), v, v', Pending(i, j)) {
      assert Drains(h, DoStep(t, ch), Pending(i, j)) <==> Pending(i, j) == Pending(a, c);
    }
  }

  lemma SpliceIsStep(h: Heap, v: View, t: nat, ch: Choice)
    requires PcOf(h, t).PushCas? && !NoQueue(h, DoStep(t, ch))
    ensures var pc := PcOf(h, t);
            QueuesStep(h, DoStep(t, ch), v, VSplice(v, Local(t, pc.reg), Pending(pc.arena, pc.cls)))
  {
    hide Items, Head;
  }

  lemma WorkEmpty(h: Heap, v: View, t: nat)
    requires Inv(h, v) && !Uses(PcOf(h, t), Work)
    ensures Items(v, Local(t, Work)) == []
  {
    hide Inv, Uses;
    PcIsOk(h, v, t);
  }

  // ----- Every step ---------------------------------------------------------

  lemma RefillSteps(h: Heap, v: View, t: nat, ch: Choice) returns (v': View)
    requires Inv(h, v) && Enabled(h, DoStep(t, ch))
    requires match PcOf(h, t)
             case RefillLock(_, _) => true case RefillSwap(_, _) => true case RefillCut(_, _) => true
             case Steal(_, _, _, _) => true case StealSwap(_, _, _, _) => true case StealCut(_, _, _, _) => true
             case _ => false
    ensures StepThread(h, t, ch).Ok? && Inv(StepThread(h, t, ch).heap, v')
    ensures QueuesStep(h, DoStep(t, ch), v, v')
  {
    hide Inv, QueuesStep, QueuesKept, VMove, StepRefillLock, StepRefillSwap, StepRefillCut, StepSteal, StepStealSwap, StepStealCut;
    v' := v;
    match PcOf(h, t)
    case RefillLock(c, target) =>
      RefillLockInv(h, v, t, c, target);
      StayIsStep(h, DoStep(t, ch), v);
    case RefillSwap(c, target) =>
      RefillSwapInv(h, v, t, c, target);
      WorkEmpty(h, v, t);
      SwapIsStep(h, v, Home(t), c, t, ch);
      v' := VMove(v, Pending(Home(t), c), Local(t, Work));
    case RefillCut(c, target) =>
      v' := RefillCutInv(h, v, t, c, target);
      KeptIsStep(h, DoStep(t, ch), v, v');
    case Steal(c, target, got, off) =>
      StealInv(h, v, t, c, target, got, off);
      StayIsStep(h, DoStep(t, ch), v);
    case StealSwap(c, target, got, off) =>
      StealSwapInv(h, v, t, c, target, got, off);
      WorkEmpty(h, v, t);
      SwapIsStep(h, v, Victim(t, off), c, t, ch);
      v' := VMove(v, Pending(Victim(t, off), c), Local(t, Work));
    case StealCut(c, target, got, off) =>
      v' := StealCutInv(h, v, t, c, target, got, off);
      KeptIsStep(h, DoStep(t, ch), v, v');
  }

  lemma SlabSteps(h: Heap, v: View, t: nat, ch: Choice) returns (v': View)
    requires Inv(h, v) && Enabled(h, DoStep(t, ch))
    requires match PcOf(h, t)
             case Extract(_, _, _) => true case ExtractFrom(_, _, _, _, _) => true
             case Finish(_, _) => true case Fold(_, _, _) => true
             case _ => false
    ensures StepThread(h, t, ch).Ok? && Inv(StepThread(h, t, ch).heap, v')
    ensures QueuesStep(h, DoStep(t, ch), v, v')
  {
    hide Inv, QueuesStep, VFinish, StepExtract, StepExtractFrom, StepFinish, StepFold, FreshSpan;
    v' := v;
    match PcOf(h, t)
    case Extract(c, target, got) =>
      ExtractInv(h, v, t, c, target, got, ch.span);
      StayIsStep(h, DoStep(t, ch), v);
    case ExtractFrom(c, target, got, b, tl) =>
      v' := ExtractFromInv(h, v, t, c, target, got, b, tl, ch.junk);
      KeptIsStep(h, DoStep(t, ch), v, v');
    case Finish(c, got) =>
      if got == 0 {
        FinishEmpty(h, v, t, c);
        StayIsStep(h, DoStep(t, ch), v);
      } else {
        FinishHands(h, v, t, c, got);
        v' := VFinish(v, t, c);
        FinishQueues(v, t, c);
        KeptIsStep(h, DoStep(t, ch), v, v');
      }
    case Fold(a, c, after) =>
      v' := FoldInv(h, v, t, a, c, after);
      KeptIsStep(h, DoStep(t, ch), v, v');
  }

  lemma FinishQueues(v: View, t: nat, c: nat)
    requires |Items(v, Local(t, Result))| > 0
    ensures QueuesKept(v, VFinish(v, t, c))
  {
  }

  lemma PushSteps(h: Heap, v: View, t: nat, ch: Choice) returns (v': View)
    requires Inv(h, v) && (PcOf(h, t).PushLoad? || PcOf(h, t).PushLink? || PcOf(h, t).PushCas?)
    ensures StepThread(h, t, ch).Ok? && Inv(StepThread(h, t, ch).heap, v')
    ensures QueuesStep(h, DoStep(t, ch), v, v')
  {
    hide Inv, QueuesStep, VSplice, VRelink, StepPushLoad, StepPushLink, StepPushCas;
    v' := v;
    match PcOf(h, t)
    case PushLoad(r, tl, a, c, after) =>
      PushLoadInv(h, v, t, r, tl, a, c, after);
      StayIsStep(h, DoStep(t, ch), v);
    case PushLink(r, tl, a, c, after, seen) =>
      PushLinkInv(h, v, t, r, tl, a, c, after, seen);
      v' := VRelink(v, Local(t, r), seen);
      KeptIsStep(h, DoStep(t, ch), v, v');
    case PushCas(r, tl, a, c, after, seen) =>
      v' := PushCasInv(h, v, t, r, tl, a, c, after, seen, ch.spurious);
      if NoQueue(h, DoStep(t, ch)) {
        StayIsStep(h, DoStep(t, ch), v);
      } else {
        SpliceIsStep(h, v, t, ch);
      }
  }

  lemma ReturnSteps(h: Heap, v: View, t: nat, ch: Choice) returns (v': View)
    requires Inv(h, v)
    requires match PcOf(h, t)
             case Idle => true case Overflow(_) => true case Split(_, _, _) => true case Return(_, _, _, _) => true
             case Drain(_, _, _) => true case Flush(_) => true case PurgeLock(_, _) => true case PurgeSwap(_, _) => true
             case _ => false
    ensures StepThread(h, t, ch).Ok? && Inv(StepThread(h, t, ch).heap, v')
    ensures QueuesStep(h, DoStep(t, ch), v, v')
  {
    hide Inv, QueuesStep, VMove, VCut, StepOverflow, StepSplit, StepReturn, StepDrain, StepFlush, StepPurgeLock, StepPurgeSwap;
    v' := v;
    match PcOf(h, t)
    case Idle =>
      StayIsStep(h, DoStep(t, ch), v);
    case Overflow(c) =>
      OverflowInv(h, v, t, c);
      v' := VCut(v, Bin(t, c), Local(t, Work), FlushBatch(c));
      KeptIsStep(h, DoStep(t, ch), v, v');
    case Split(c, defer, flushing) =>
      v' := SplitInv(h, v, t, c, defer, flushing);
      KeptIsStep(h, DoStep(t, ch), v, v');
    case Return(c, i, defer, flushing) =>
      v' := ReturnInv(h, v, t, c, i, defer, flushing);
      KeptIsStep(h, DoStep(t, ch), v, v');
    case Drain(c, a, flushing) =>
      DrainInv(h, v, t, c, a, flushing);
      WorkEmpty(h, v, t);
      SwapIsStep(h, v, a, c, t, ch);
      v' := VMove(v, Pending(a, c), Local(t, Work));
    case Flush(c) =>
      v' := FlushInv(h, v, t, c);
      KeptIsStep(h, DoStep(t, ch), v, v');
    case PurgeLock(c, a) =>
      PurgeLockInv(h, v, t, c, a);
      StayIsStep(h, DoStep(t, ch), v);
    case PurgeSwap(c, a) =>
      PurgeSwapInv(h, v, t, c, a);
      WorkEmpty(h, v, t);
      SwapIsStep(h, v, a, c, t, ch);
      v' := VMove(v, Pending(a, c), Local(t, Work));
  }

  lemma ThreadStep(h: Heap, v: View, t: nat, ch: Choice) returns (v': View)
    requires Inv(h, v) && Enabled(h, DoStep(t, ch))
    ensures StepThread(h, t, ch).Ok? && Inv(StepThread(h, t, ch).heap, v')
    ensures QueuesStep(h, DoStep(t, ch), v, v')
  {
    hide Inv, QueuesStep, StepThread, Enabled;
    match PcOf(h, t)
    case RefillLock(_, _) => v' := RefillSteps(h, v, t, ch);
    case RefillSwap(_, _) => v' := RefillSteps(h, v, t, ch);
    case RefillCut(_, _) => v' := RefillSteps(h, v, t, ch);
    case Steal(_, _, _, _) => v' := RefillSteps(h, v, t, ch);
    case StealSwap(_, _, _, _) => v' := RefillSteps(h, v, t, ch);
    case StealCut(_, _, _, _) => v' := RefillSteps(h, v, t, ch);
    case Extract(_, _, _) => v' := SlabSteps(h, v, t, ch);
    case ExtractFrom(_, _, _, _, _) => v' := SlabSteps(h, v, t, ch);
    case Finish(_, _) => v' := SlabSteps(h, v, t, ch);
    case Fold(_, _, _) => v' := SlabSteps(h, v, t, ch);
    case PushLoad(_, _, _, _, _) => v' := PushSteps(h, v, t, ch);
    case PushLink(_, _, _, _, _, _) => v' := PushSteps(h, v, t, ch);
    case PushCas(_, _, _, _, _, _) => v' := PushSteps(h, v, t, ch);
    case _ => v' := ReturnSteps(h, v, t, ch);
  }

  /** A flush or a purge starts from an idle thread. */
  lemma BeginInv(h: Heap, v: View, t: nat, pc: Pc)
    requires Inv(h, v) && PcOf(h, t).Idle? && (pc == Flush(0) || pc == PurgeLock(0, 0))
    ensures Inv(Goto(h, t, pc), v)
  {
    hide Inv;
    PcIsOk(h, v, t);
    GotoInv(h, v, t, pc);
  }

  /** From a good state every action of a well-behaved client, of the page heap
      or of a thread inside the allocator trips no guard and leads to a good state. */
  lemma EveryStep(h: Heap, v: View, act: Action) returns (v': View)
    requires Inv(h, v) && Enabled(h, act)
    ensures Apply(h, act).Ok? && Inv(Apply(h, act).heap, v')
    ensures QueuesStep(h, act, v, v')
  {
    hide Inv, QueuesStep, StepThread, Malloc, Free, UserWrite, VPop, VPush;
    v' := v;
    if !act.DoStep? { StayIsStep(h, act, v); }
    match act
    case DoMalloc(t, size) =>
      var c := RequestToClass(size);
      if |Items(v, Bin(t, c))| > 0 {
        MallocHit(h, v, t, c);
        v' := VPop(v, Bin(t, c));
        KeptIsStep(h, act, v, v');
      } else {
        MallocMiss(h, v, t, c);
      }
    case DoFree(t, y) =>
      FreeInv(h, v, t, y);
      v' := VPush(v, Bin(t, h.hdr[y].cls), y);
      KeptIsStep(h, act, v, v');
    case DoWrite(y, value) =>
      WriteInv(h, v, y, value);
    case DoFlush(t) =>
      BeginInv(h, v, t, Flush(0));
    case DoPurge(t) =>
      BeginInv(h, v, t, PurgeLock(0, 0));
    case DoStep(t, ch) =>
      v' := ThreadStep(h, v, t, ch);
  }

  // ----- Every run ----------------------------------------------------------

  lemma EmptyInv()
    ensures Inv(Empty, View(map[], map[], map[]))
  {
    var h, v := Empty, View(map[], map[], map[]);
    forall t: nat ensures ThreadOk(PcIn(h.pcs, t), t, v, h.tails, h.count, KeyMap(h.hdr, h.slabs)) {
    }
  }

  lemma {:induction false} RunsAreSafe(h: Heap, v: View, acts: seq<Action>) returns (v': View)
    requires Inv(h, v) && IsRun(h, acts)
    ensures Run(h, acts).Ok? && Inv(Run(h, acts).heap, v')
    decreases |acts|
  {
    hide Inv, Apply, Enabled, QueuesStep;
    v' := v;
    if |acts| > 0 {
      var v1 := EveryStep(h, v, acts[0]);
      v' := RunsAreSafe(Apply(h, acts[0]).heap, v1, acts[1..]);
    }
  }

  /** The states some run from the empty heap leads to. */
  ghost predicate Reachable(h: Heap) {
    exists acts :: IsRun(Empty, acts) && Run(Empty, acts) == Ok(h)
  }

  lemma ReachableInv(h: Heap) returns (v: View)
    requires Reachable(h)
    ensures Inv(h, v)
  {
    hide Inv;
    var acts :| IsRun(Empty, acts) && Run(Empty, acts) == Ok(h);
    EmptyInv();
    v := RunsAreSafe(Empty, View(map[], map[], map[]), acts);
  }

  lemma {:induction false} OneMore(h: Heap, acts: seq<Action>, act: Action)
    requires IsRun(h, acts) && Run(h, acts).Ok? && Enabled(Run(h, acts).heap, act)
    ensures IsRun(h, acts + [act]) && Run(h, acts + [act]) == Apply(Run(h, acts).heap, act)
    decreases |acts|
  {
    hide Enabled, Apply;
    if acts == [] {
      assert acts + [act] == [act] && [act][1..] == [];
    } else {
      OneMore(Apply(h, acts[0]).heap, acts[1..], act);
      assert (acts + [act])[1..] == acts[1..] + [act];
    }
  }

  lemma ReachableNext(h: Heap, act: Action)
    requires Reachable(h) && Enabled(h, act) && Apply(h, act).Ok?
    ensures Reachable(Apply(h, act).heap)
  {
    hide Enabled, Apply;
    var acts :| IsRun(Empty, acts) && Run(Empty, acts) == Ok(h);
    OneMore(Empty, acts, act);
  }

  lemma EmptyReachable()
    ensures Reachable(Empty)
  {
    assert IsRun(Empty, []) && Run(Empty, []) == Ok(Empty);
  }

  /** No run of a well-behaved client, with any number of threads, trips a guard:
      no wild link, no double push, no double return, no bin to heal, no bad slab
      pointer, no access to an unmapped block and no endless list. */
  lemma NoGuardFires(acts: seq<Action>)
    requires IsRun(Empty, acts)
    ensures Run(Empty, acts).Ok?
  {
    hide Inv;
    EmptyInv();
    var v := RunsAreSafe(Empty, View(map[], map[], map[]), acts);
  }
}
