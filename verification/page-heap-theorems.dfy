/** The page heap: what holds in every state that any run of any number of threads reaches. */
module PageHeapTheorems {
  import opened PageHeap
  import opened Ranges
  import opened PageHeapInvariant
  import opened PageHeapSteps
  import opened PageHeapBytes
  import opened PageHeapLocks
  import opened PageHeapTiles
  import opened PageHeapSpans

  ghost predicate Good(s: State) {
    Control(s) && Bytes(s) && Tiled(s)
  }

  // ----- Every action keeps the invariant ---------------------------------------

  lemma StartGood(limit: nat, threads: nat)
    requires Fits(Start(limit, threads))
    ensures Good(Start(limit, threads))
  {
    var s := Start(limit, threads);
    StartSums(threads);
    NoPages(MAX_PAGES);
    assert Tiles(s, map[]);
  }

  lemma {:induction false} StartSums(threads: nat)
    ensures var pcs := seq(threads, _ => Out); Leads(pcs) == 0 && Claims(pcs) == 0 && Slacks(pcs) == 0
  {
    if threads > 0 {
      StartSums(threads - 1);
      assert seq(threads, _ => Out)[..threads - 1] == seq(threads - 1, _ => Out);
    }
  }

  lemma {:induction false} NoPages(k: nat)
    ensures PagesTo(map[], k) == 0
  {
    if k > 0 { NoPages(k - 1); }
  }

  lemma StepGood(s: State, t: nat, ch: Choice)
    requires Good(s) && t < |s.pcs| && Enabled(s, Run(t, ch))
    ensures Good(Step(s, t, ch))
  {
    hide Bytes, Tiled, Step, LocksOk, HintsOk, PcOk;
    var s' := Step(s, t, ch);
    StepFacts(s, t, ch);
    StepBytes(s, t, ch);
    StepTiles(s, t, ch);
    StepHints(s, t, ch);
    LocksMove(s, s', t, LockEffect(s.pcs[t]));
  }

  /** A call enters the page heap with nothing counted, claimed or locked. */
  lemma EnterControl(s: State, s': State, t: nat)
    requires Control(s) && t < |s.pcs| && s.pcs[t] == Out
    requires |s'.pcs| == |s.pcs| && s'.pcs == s.pcs[t := s'.pcs[t]] && PcOk(s'.pcs[t]) && Holds(s'.pcs[t]) == {}
    requires Unmarked(s'.pcs[t]) == 0 && !s'.pcs[t].SStale?
    requires s'.bins == s.bins && s'.hints == s.hints && s'.locks == s.locks
    ensures Control(s')
  {
    hide PcOk, LocksOk, HintsOk;
    LocksMove(s, s', t, Keep);
    HintsSame(s, s', t);
  }

  lemma EnterBytes(s: State, s': State, t: nat)
    requires Bytes(s) && t < |s.pcs| && s.pcs[t] == Out
    requires |s'.pcs| == |s.pcs| && s'.pcs == s.pcs[t := s'.pcs[t]]
    requires Lead(s'.pcs[t]) == 0 && Claim(s'.pcs[t]) == 0 && Slack(s'.pcs[t]) == 0
    requires s'.bins == s.bins && s'.total == s.total && s'.limit == s.limit
    ensures Bytes(s')
  {
    hide Bytes, PagesTo;
    BytesMove(s, s', t, 0);
  }

  lemma EnterGood(s: State, act: Action)
    requires Good(s) && Enabled(s, act) && !act.Run? && !act.Remap?
    ensures Good(Apply(s, act))
  {
    hide LocksOk, HintsOk, Bytes, Tiled;
    var s', t := Apply(s, act), act.t;
    if act.Free? {
      CallersPages(s, act.span);
      ReceiveTiles(s, s', t, act.span, s'.pcs[t]);
    } else {
      StillTiles(s, s', t);
    }
    EnterBytes(s, s', t);
    EnterControl(s, s', t);
  }

  lemma RemapGood(s: State, x: Span, y: Span)
    requires Good(s) && x in s.client && y.pages > 0 && Range(y.base, y.pages) !! s.held - Range(x.base, x.pages)
    ensures Good(Remapped(s, x, y)) && y !in s.client - {x}
  {
    RemapTiles(s, x, y);
    hide Tiled, PagesTo, Range;
    assert forall p: nat :: HintFine(s, p) ==> HintFine(Remapped(s, x, y), p);
  }

  lemma CallersPages(s: State, span: Span)
    requires Tiled(s) && span in s.client
    ensures span.pages >= 1
  {
    var own :| Tiles(s, own);
    assert Exists(s, WithCaller(span.base, span.pages));
  }

  lemma {:induction false} RunGood(s: State, acts: seq<Action>)
    requires Good(s) && IsRun(s, acts)
    ensures Good(After(s, acts))
    ensures After(s, acts).limit == s.limit && |After(s, acts).pcs| == |s.pcs|
    decreases |acts|
  {
    if |acts| > 0 {
      var s' := Apply(s, acts[0]);
      ApplyGood(s, acts[0]);
      hide Good, Apply, Enabled;
      RunGood(s', acts[1..]);
    }
  }

  lemma ApplyGood(s: State, act: Action)
    requires Good(s) && Enabled(s, act)
    ensures Good(Apply(s, act)) && Apply(s, act).limit == s.limit && |Apply(s, act).pcs| == |s.pcs|
  {
    hide Good, Step;
    if act.Run? {
      StepGood(s, act.t, act.choice);
      RunSame(s, act.t, act.choice);
    } else if act.Remap? {
      RemapGood(s, act.span, act.to);
    } else {
      EnterGood(s, act);
    }
  }

  lemma RunSame(s: State, t: nat, ch: Choice)
    requires Good(s) && t < |s.pcs|
    ensures Step(s, t, ch).limit == s.limit && |Step(s, t, ch).pcs| == |s.pcs|
  {
    hide Step, PcOk, LocksOk, HintsOk, Bytes, Tiled;
    StepFacts(s, t, ch);
  }

  // ----- The cap and the counter --------------------------------------------------

  /** The pages in the bins never exceed the cap by more than 511 for each thread
      but one; with one thread the cap is exact. */
  lemma CapWithinBound(limit: nat, threads: nat, acts: seq<Action>)
    requires Fits(Start(limit, threads)) && IsRun(Start(limit, threads), acts)
    ensures var s := After(Start(limit, threads), acts);
            && Cached(s) <= limit + (if threads == 0 then 0 else threads - 1) * (MAX_PAGES - 1)
            && (threads <= 1 ==> Cached(s) <= limit)
  {
    hide PagesTo, LocksOk, HintsOk, Tiled;
    var s0 := Start(limit, threads);
    StartGood(limit, threads);
    RunGood(s0, acts);
    GapOfAll(After(s0, acts).pcs);
  }

  /** Whenever no call is under way the counter is exactly the pages in the bins. */
  lemma CounterAtRest(limit: nat, threads: nat, acts: seq<Action>)
    requires Fits(Start(limit, threads)) && IsRun(Start(limit, threads), acts)
    requires var s := After(Start(limit, threads), acts); forall t :: 0 <= t < |s.pcs| ==> s.pcs[t] == Out
    ensures var s := After(Start(limit, threads), acts); s.total == Cached(s)
  {
    hide PagesTo, LocksOk, HintsOk, Tiled, Apply;
    var s0 := Start(limit, threads);
    StartGood(limit, threads);
    RunGood(s0, acts);
    var s := After(s0, acts);
    assert s.pcs == seq(|s.pcs|, _ => Out);
    StartSums(|s.pcs|);
  }

  /** A free is accepted exactly when the true count leaves room: a counter
      that other threads have driven below zero refuses. */
  lemma FreeAcceptsIff(s: State, t: nat, ch: Choice)
    requires Good(s) && t < |s.pcs| && s.pcs[t].FAdd?
    ensures Step(s, t, ch).pcs[t].FLock? <==> 0 <= Truth(s) + s.pcs[t].n <= s.limit
    ensures Step(s, t, ch).pcs[t].FSub? <==> !(0 <= Truth(s) + s.pcs[t].n <= s.limit)
  {
    hide PagesTo, LocksOk, HintsOk, Tiled, Leads, Claims, Slacks, Wrap;
    var n := s.pcs[t].n;
    WrapAdd(Truth(s), n);
    GapOfAll(s.pcs);
    GapOfOthers(s.pcs, t);
    Reading(Truth(s) + n, s.limit, |s.pcs|);
    WrapSmall(Truth(s) + n);
  }

  lemma WrapSmall(x: int)
    ensures 0 <= x < WORD ==> Wrap(x) == x
  {
  }

  // ----- Hints ----------------------------------------------------------------------

  /** Whenever the lock of a bin is free its hint says whether it is non-empty. */
  lemma HintsExact(limit: nat, threads: nat, acts: seq<Action>, p: nat)
    requires Fits(Start(limit, threads)) && IsRun(Start(limit, threads), acts)
    requires p !in After(Start(limit, threads), acts).locks
    ensures var s := After(Start(limit, threads), acts); p in s.hints <==> Bin(s.bins, p) != []
  {
    hide PcOk, LocksOk, Bytes, Tiled, Apply;
    StartGood(limit, threads);
    RunGood(Start(limit, threads), acts);
    Fine(After(Start(limit, threads), acts), p);
  }

  // ----- Spans ----------------------------------------------------------------------

  /** Every page the heap has from the operating system is in exactly one span; spans never
      overlap; a span in bin `p` has `p` pages; no bin lists a span twice. */
  lemma SpansTile(limit: nat, threads: nat, acts: seq<Action>)
    requires Fits(Start(limit, threads)) && IsRun(Start(limit, threads), acts)
    ensures var s := After(Start(limit, threads), acts);
            && (forall i: int {:trigger i in s.held} :: i in s.held <==> exists pl :: Exists(s, pl) && Covers(pl, i))
            && (forall pl, pl', i :: Exists(s, pl) && Exists(s, pl') && Covers(pl, i) && Covers(pl', i) ==> pl == pl')
            && AllDistinct(s)
  {
    hide Control, Bytes, Apply, Exists, Covers, AllDistinct;
    StartGood(limit, threads);
    RunGood(Start(limit, threads), acts);
    var s := After(Start(limit, threads), acts);
    var own :| Tiles(s, own);
    forall i: int ensures i in s.held <==> exists pl :: Exists(s, pl) && Covers(pl, i) {
      if i in s.held {
        assert Exists(s, own[i]) && Covers(own[i], i);
      }
    }
  }

  // ----- Progress -------------------------------------------------------------------

  /** A thread waits when the lock it wants is taken. */
  ghost predicate Waiting(s: State, t: nat)
    requires t < |s.pcs|
  {
    LockEffect(s.pcs[t]).Take? && LockEffect(s.pcs[t]).k in s.locks
  }

  lemma WantsBelow(pc: Pc, h: nat)
    requires PcOk(pc) && LockEffect(pc).Take? && h in Holds(pc)
    ensures LockEffect(pc).k < h
  {
  }

  /** Locks are taken from high bins to low bins, so some call can always go on. */
  lemma {:induction false} NoDeadlock(s: State, t: nat)
    requires Control(s) && t < |s.pcs| && s.pcs[t] != Out
    ensures exists u :: 0 <= u < |s.pcs| && s.pcs[u] != Out && !Waiting(s, u)
    decreases if LockEffect(s.pcs[t]).Take? then LockEffect(s.pcs[t]).k + 1 else 0
  {
    hide PcOk, HintsOk, LockEffect, Holds;
    if Waiting(s, t) {
      var k := LockEffect(s.pcs[t]).k;
      var u := s.locks[k];
      assert k in Holds(s.pcs[u]);
      HolderInside(s.pcs[u], k);
      if LockEffect(s.pcs[u]).Take? { WantsBelow(s.pcs[u], k); }
      NoDeadlock(s, u);
    }
  }

  lemma HolderInside(pc: Pc, k: nat)
    requires k in Holds(pc)
    ensures pc != Out
  {
  }

  /** What is left to do: how far the call is, and the spans a purge has in hand. */
  function Work(pc: Pc): (nat, nat) {
    match pc
    case Out => (0, 0)
    case ELock(n) => (ScanWork(n) + 3, 0)
    case EPop(n) => (ScanWork(n) + 2, 0)
    case EMiss(n) => (ScanWork(n) + 1, 0)
    case EMark(_, _) => (3, 0)
    case EUnlock(_, _) => (2, 0)
    case ESub(_, _) => (1, 0)
    case Scan(_, from, w) => (ScanWork(from), if w < HINT_WORDS then HINT_WORDS - w else 0)
    case SLock(_, p) => (ScanWork(p) + 4, 0)
    case SPop(_, p) => (ScanWork(p) + 3, 0)
    case SStale(_, p) => (ScanWork(p) + 2, 0)
    case SStaleUnlock(_, p) => (ScanWork(p) + 1, 0)
    case SMark(_, _, _) => (8, 0)
    case SSub(_, _, _) => (7, 0)
    case SLockRem(_, _, _) => (6, 0)
    case SPush(_, _, _) => (5, 0)
    case SMarkRem(_, _, _) => (4, 0)
    case SUnlockRem(_, _, _) => (3, 0)
    case SAdd(_, _, _) => (2, 0)
    case SUnlock(_, _, _) => (1, 0)
    case OsLock(_) => (3, 0)
    case OsTake(_) => (2, 0)
    case OsMap(_) => (1, 0)
    case FAdd(_, _) => (6, 0)
    case FLock(_, _) => (5, 0)
    case FPush(_, _) => (4, 0)
    case FMark(_) => (2, 0)
    case FUnlock(_) => (1, 0)
    case FReject(_, _) => (3, 0)
    case FSub(_, _) => (2, 0)
    case FOs(_, _) => (1, 0)
    case PLock(p) => (PurgeWork(p) + 4, 0)
    case PTake(p) => (PurgeWork(p) + 3, 0)
    case PMark(p, list) => (PurgeWork(p) + 2, |list|)
    case PUnlock(p, list) => (PurgeWork(p) + 1, |list|)
    case PDrop(p, list) => (PurgeWork(p), 2 * |list|)
    case PSub(p, list) => (PurgeWork(p), 2 * |list| + 1)
  }

  function ScanWork(from: nat): nat {
    if from >= MAX_PAGES then 9 else 5 * (MAX_PAGES - from) + 9
  }

  function PurgeWork(p: nat): nat {
    if p >= MAX_PAGES then 1 else 5 * (MAX_PAGES - p) + 1
  }

  predicate Less(a: (nat, nat), b: (nat, nat)) {
    a.0 < b.0 || (a.0 == b.0 && a.1 < b.1)
  }

  ghost predicate Advances(s: State, s': State, t: nat)
    requires t < |s.pcs|
  {
    |s'.pcs| == |s.pcs| && Less(Work(s'.pcs[t]), Work(s.pcs[t]))
  }

  lemma AllocAdvances(s: State, t: nat, ch: Choice)
    requires t < |s.pcs| && PcOk(s.pcs[t]) && s.pcs[t] != Out && !Waiting(s, t) && (Alloc(s.pcs[t]) || Split(s.pcs[t]))
    ensures Advances(s, Step(s, t, ch), t)
  {
    hide Bin, Retention, Wrap, Range;
  }

  lemma ScanAdvances(s: State, t: nat, ch: Choice)
    requires t < |s.pcs| && PcOk(s.pcs[t]) && s.pcs[t].Scan?
    ensures Advances(s, Step(s, t, ch), t)
  {
    hide LeastHint;
  }

  lemma FreeAdvances(s: State, t: nat, ch: Choice)
    requires t < |s.pcs| && PcOk(s.pcs[t]) && !Waiting(s, t) && Freeing(s.pcs[t])
    ensures Advances(s, Step(s, t, ch), t)
  {
    hide Bin, Retention, Wrap, Range;
  }

  lemma RemainderAdvances(s: State, t: nat, ch: Choice)
    requires t < |s.pcs| && PcOk(s.pcs[t]) && !Waiting(s, t) && Remainder(s.pcs[t])
    ensures Advances(s, Step(s, t, ch), t)
  {
    hide Bin, Retention, Wrap, Range;
  }

  lemma PurgeAdvances(s: State, t: nat, ch: Choice)
    requires t < |s.pcs| && PcOk(s.pcs[t]) && !Waiting(s, t) && Purging(s.pcs[t])
    ensures Advances(s, Step(s, t, ch), t)
  {
    hide Bin, Wrap, Range;
  }

  lemma DropAdvances(s: State, t: nat, ch: Choice)
    requires t < |s.pcs| && PcOk(s.pcs[t]) && (s.pcs[t].PDrop? || s.pcs[t].PSub?)
    ensures Advances(s, Step(s, t, ch), t)
  {
    hide Bin, Wrap, Range;
  }

  /** A thread that does not wait comes closer to the end of its call with every
      step, whatever the others do: calls end, and no scan of the bins goes round. */
  lemma StepsAdvance(s: State, t: nat, ch: Choice)
    requires t < |s.pcs| && PcOk(s.pcs[t]) && s.pcs[t] != Out && !Waiting(s, t)
    ensures |Step(s, t, ch).pcs| == |s.pcs| && Less(Work(Step(s, t, ch).pcs[t]), Work(s.pcs[t]))
  {
    hide Step, PcOk, Work;
    if Alloc(s.pcs[t]) || Split(s.pcs[t]) {
      AllocAdvances(s, t, ch);
    } else if s.pcs[t].Scan? {
      ScanAdvances(s, t, ch);
    } else if Remainder(s.pcs[t]) {
      RemainderAdvances(s, t, ch);
    } else if Freeing(s.pcs[t]) {
      FreeAdvances(s, t, ch);
    } else if Purging(s.pcs[t]) {
      PurgeAdvances(s, t, ch);
    } else {
      DropAdvances(s, t, ch);
    }
  }

  /** The pages an allocation under way was asked for; 0 in any other call. */
  function Asked(pc: Pc): nat {
    match pc
    case ELock(n) => n
    case EPop(n) => n
    case EMiss(n) => n
    case EMark(n, _) => n
    case EUnlock(n, _) => n
    case ESub(n, _) => n
    case Scan(n, _, _) => n
    case SLock(n, _) => n
    case SPop(n, _) => n
    case SStale(n, _) => n
    case SStaleUnlock(n, _) => n
    case SMark(n, _, _) => n
    case SSub(n, _, _) => n
    case SLockRem(n, _, _) => n
    case SPush(n, _, _) => n
    case SMarkRem(n, _, _) => n
    case SUnlockRem(n, _, _) => n
    case SAdd(n, _, _) => n
    case SUnlock(n, _, _) => n
    case OsLock(n) => n
    case OsTake(n) => n
    case OsMap(n) => n
    case _ => 0
  }

  /** The step of this point ends an allocation with a span. */
  predicate Gives(pc: Pc, ch: Choice) {
    pc.ESub? || pc.SUnlock? || ((pc.OsTake? || pc.OsMap?) && ch.ok)
  }

  /** The first page of that span. */
  function Given(pc: Pc, ch: Choice): int {
    if pc.ESub? || pc.SUnlock? then pc.b else ch.base
  }

  lemma GivesAsked(pc: Pc, ch: Choice)
    requires PcOk(pc) && (Gives(pc, ch) || pc.OsMap?)
    ensures Asked(pc) > 0
  {
  }

  ghost predicate Delivers(s: State, s': State, t: nat, ch: Choice)
    requires t < |s.pcs|
  {
    var pc := s.pcs[t];
    && |s'.pcs| == |s.pcs|
    && (if Gives(pc, ch) then
          s'.pcs[t] == Out && Span(Given(pc, ch), Asked(pc)) !in s.client
          && s'.client == s.client + {Span(Given(pc, ch), Asked(pc))}
        else s'.client == s.client)
    && (s'.pcs[t] != Out ==> Asked(s'.pcs[t]) == Asked(pc))
    && (Asked(pc) > 0 && !Gives(pc, ch) ==> (s'.pcs[t] == Out <==> pc.OsMap? && !ch.ok))
  }

  predicate Ending(pc: Pc) {
    pc.ESub? || pc.SUnlock? || pc.OsTake? || pc.OsMap?
  }

  lemma AllocKeeps(s: State, t: nat, ch: Choice)
    requires t < |s.pcs| && PcOk(s.pcs[t]) && Alloc(s.pcs[t]) && !Ending(s.pcs[t])
    ensures Delivers(s, Step(s, t, ch), t, ch)
  {
    hide Bin, Wrap, Range;
  }

  lemma ScanKeeps(s: State, t: nat, ch: Choice)
    requires t < |s.pcs| && s.pcs[t].Scan?
    ensures Delivers(s, Step(s, t, ch), t, ch)
  {
    hide LeastHint;
  }

  lemma SplitKeeps(s: State, t: nat, ch: Choice)
    requires t < |s.pcs| && PcOk(s.pcs[t]) && (Split(s.pcs[t]) || Remainder(s.pcs[t])) && !Ending(s.pcs[t])
    ensures Delivers(s, Step(s, t, ch), t, ch)
  {
    hide Bin, Wrap, Range;
  }

  lemma FreeKeeps(s: State, t: nat, ch: Choice)
    requires t < |s.pcs| && PcOk(s.pcs[t]) && Freeing(s.pcs[t])
    ensures Delivers(s, Step(s, t, ch), t, ch)
  {
    hide Bin, Wrap, Range, Retention;
  }

  lemma PurgeKeeps(s: State, t: nat, ch: Choice)
    requires t < |s.pcs| && PcOk(s.pcs[t]) && (Purging(s.pcs[t]) || s.pcs[t].PDrop? || s.pcs[t].PSub?)
    ensures Delivers(s, Step(s, t, ch), t, ch)
  {
    hide Bin, Wrap, Range;
  }

  lemma EndDelivers(s: State, t: nat, ch: Choice)
    requires t < |s.pcs| && PcOk(s.pcs[t]) && Ending(s.pcs[t]) && Tiled(s) && Enabled(s, Run(t, ch))
    ensures Delivers(s, Step(s, t, ch), t, ch)
  {
    hide Wrap, AllDistinct, Range;
    var own :| Tiles(s, own);
    var pc, s' := s.pcs[t], Step(s, t, ch);
    var n := Asked(pc);
    if pc.ESub? || pc.SUnlock? {
      NotThere(s, own, InHand(t, pc.b, n), WithCaller(pc.b, n));
      assert Span(pc.b, n) !in s.client;
    } else if ch.ok {
      Unheld(s, own, ch.base, n);
      assert Span(ch.base, n) !in s.client;
    }
  }

  lemma Unheld(s: State, own: map<int, Place>, b: int, n: nat)
    requires Tiles(s, own) && n >= 1 && Range(b, n) !! s.held
    ensures Span(b, n) !in s.client
  {
    hide AllDistinct;
    var pl := WithCaller(b, n);
    assert Covers(pl, b) && b in Range(b, n);
    assert Exists(s, pl) ==> b in own;
  }

  /** An allocation keeps its request, and ends with a span of exactly that size which no caller
      had, or with none when the operating system has no memory.  No other call gives anything to a caller. */
  lemma AllocationDelivers(s: State, t: nat, ch: Choice)
    requires Good(s) && t < |s.pcs| && Enabled(s, Run(t, ch))
    ensures Delivers(s, Step(s, t, ch), t, ch)
  {
    hide LocksOk, HintsOk, PcOk, Bytes, Tiled, Step, Enabled, Delivers;
    if Ending(s.pcs[t]) {
      EndDelivers(s, t, ch);
    } else if Alloc(s.pcs[t]) {
      AllocKeeps(s, t, ch);
    } else if s.pcs[t].Scan? {
      ScanKeeps(s, t, ch);
    } else if Split(s.pcs[t]) || Remainder(s.pcs[t]) {
      SplitKeeps(s, t, ch);
    } else if Freeing(s.pcs[t]) {
      FreeKeeps(s, t, ch);
    } else {
      PurgeKeeps(s, t, ch);
    }
  }

  /** The heap gets pages only from the operating system. */
  lemma HeldFromOs(s: State, t: nat, ch: Choice)
    requires t < |s.pcs|
    ensures forall i {:trigger i in Step(s, t, ch).held} :: i in Step(s, t, ch).held ==>
              || i in s.held
              || ((s.pcs[t].OsTake? || s.pcs[t].OsMap?) && ch.ok && i in Range(ch.base, s.pcs[t].n))
  {
    hide Bin, Wrap, Range, LeastHint, Retention;
  }

  /** Two spans of callers are the same or share no page. */
  lemma CallersApart(s: State, x: Span, y: Span)
    requires Tiled(s) && x in s.client && y in s.client
    ensures x == y || x.base + x.pages <= y.base || y.base + y.pages <= x.base
    ensures x.pages >= 1 && forall i {:trigger i in s.held} :: x.base <= i < x.base + x.pages ==> i in s.held
  {
    hide AllDistinct;
    var own :| Tiles(s, own);
    var px, py := WithCaller(x.base, x.pages), WithCaller(y.base, y.pages);
    assert Exists(s, px) && Exists(s, py);
    forall i {:trigger i in s.held} | x.base <= i < x.base + x.pages ensures i in s.held { assert Covers(px, i); }
    if x.base < y.base + y.pages && y.base < x.base + x.pages {
      var i := if x.base < y.base then y.base else x.base;
      assert Covers(px, i) && Covers(py, i);
    }
  }

  /** A caller's span shares no page with a cached one. */
  lemma CachedApart(s: State, x: Span, p: nat, b: int)
    requires Tiled(s) && x in s.client && b in Bin(s.bins, p)
    ensures x.base + x.pages <= b || b + p <= x.base
  {
    hide AllDistinct;
    var own :| Tiles(s, own);
    var px, pb := WithCaller(x.base, x.pages), InBin(p, b);
    assert Exists(s, px) && Exists(s, pb);
    var i := if x.base < b then b else x.base;
    assert Covers(px, i) ==> i in own && own[i] == px;
    assert Covers(pb, i) ==> i in own && own[i] == pb;
  }

  lemma CachedPages(s: State, p: nat, b: int)
    requires Tiled(s) && b in Bin(s.bins, p)
    ensures p >= 1
  {
    hide AllDistinct;
    var own :| Tiles(s, own);
    assert Exists(s, InBin(p, b));
  }

  // ----- Runs ---------------------------------------------------------------------

  /** `s2` can be reached from `s`. */
  ghost predicate Reaches(s: State, s2: State) {
    exists acts :: IsRun(s, acts) && After(s, acts) == s2
  }

  lemma {:induction false} Append(s: State, a: seq<Action>, b: seq<Action>)
    requires IsRun(s, a) && IsRun(After(s, a), b)
    ensures IsRun(s, a + b) && After(s, a + b) == After(After(s, a), b)
    decreases |a|
  {
    hide Enabled, Apply;
    if a == [] {
      assert a + b == b;
    } else {
      Append(Apply(s, a[0]), a[1..], b);
      assert (a + b)[1..] == a[1..] + b;
    }
  }

  lemma Then(s0: State, s1: State, s2: State)
    requires Reaches(s0, s1) && Reaches(s1, s2)
    ensures Reaches(s0, s2)
  {
    var a :| IsRun(s0, a) && After(s0, a) == s1;
    var b :| IsRun(s1, b) && After(s1, b) == s2;
    Append(s0, a, b);
  }

  lemma One(s0: State, s1: State, act: Action)
    requires Reaches(s0, s1) && Enabled(s1, act)
    ensures Reaches(s0, Apply(s1, act))
  {
    hide Enabled, Apply;
    var s2 := Apply(s1, act);
    assert IsRun(s1, [act]) && After(s1, [act]) == s2 by {
      assert [act][1..] == [];
    }
    Then(s0, s1, s2);
  }

  lemma Stay(s: State)
    ensures Reaches(s, s)
  {
    assert IsRun(s, []) && After(s, []) == s;
  }
}
