/** The steps that assemble a batch from pending queues, and hand it over. */
module HeapFeed {
  import opened Config
  import opened Links
  import opened Heap
  import opened HeapInvariant
  import opened HeapFrames
  import opened HeapCore
  import opened HeapWalks
  import opened HeapReturn

  /** The first `n` blocks of `Work` have gone to the end of `Result`. */
  ghost predicate Fed(v: View, v': View, t: nat, n: nat) {
    var work, result := Local(t, Work), Local(t, Result);
    && n <= |Items(v, work)|
    && (forall l {:trigger Items(v', l)} :: l != work && l != result ==> Items(v', l) == Items(v, l))
    && Items(v', result) == Items(v, result) + Items(v, work)[..n]
    && Items(v', work) == Items(v, work)[n..]
    && (forall l {:trigger End(v', l)} :: End(v', l) == End(v, l))
  }

  /** Between these two points a thread may feed its batch. */
  ghost predicate FeedsTo(pc: Pc, pc': Pc, t: nat) {
    && PcOk(pc', t) && Uses(pc', Result) && !pc.Overflow? && !pc'.Overflow?
    && (forall r {:trigger Uses(pc', r)} :: Uses(pc, r) && r != Work ==> Uses(pc', r))
    && (forall r :: !Floating(pc, r) && !Floating(pc', r))
    && (forall r: Reg :: r != Work && r != Result ==> !Uses(pc, r))
    && (forall k {:trigger InReg(pc', t, Result, k)} :: InReg(pc, t, Result, k) || InReg(pc, t, Work, k) ==> InReg(pc', t, Result, k))
    && (forall k {:trigger InReg(pc', t, Work, k)} :: InReg(pc, t, Work, k) ==> InReg(pc', t, Work, k))
    && (forall d :: Refills(pc', d) ==> Refills(pc, d))
  }

  lemma FedMembers(v: View, v': View, t: nat, n: nat)
    requires Fed(v, v', t, n)
    ensures forall y {:trigger y in Items(v', Local(t, Result))} :: y in Items(v', Local(t, Result)) ==>
              y in Items(v, Local(t, Result)) || y in Items(v, Local(t, Work))
    ensures forall y {:trigger y in Items(v', Local(t, Work))} :: y in Items(v', Local(t, Work)) ==> y in Items(v, Local(t, Work))
  {
  }

  lemma FeedThread(pc: Pc, pc': Pc, t: nat, v: View, v': View, tails: map<ListId, int>, count: map<ListId, int>,
                   keys: map<int, Key>, n: nat)
    requires ThreadOk(pc, t, v, tails, count, keys) && FeedsTo(pc, pc', t) && Fed(v, v', t, n)
    requires Uses(pc', Work) || n == |Items(v, Local(t, Work))|
    requires Locals(pc', t, v')
    ensures ThreadOk(pc', t, v', tails, count, keys)
  {
    hide Uses, Floating, InReg, Locals, PcOk, Refills, BinOk, ThreadOk;
    forall d ensures BinOk(pc', t, v', count, d) {
      FedBin(pc, pc', t, v, v', tails, count, keys, n, d);
    }
    forall r, y {:trigger y in Items(v', Local(t, r))} | y in Items(v', Local(t, r))
      ensures y in keys && InReg(pc', t, r, keys[y])
    {
      FedInReg(pc, pc', t, v, v', tails, count, keys, n, r, y);
    }
    forall r {:trigger Items(v', Local(t, r))}{:trigger End(v', Local(t, r))}
      ensures !Uses(pc', r) ==> Items(v', Local(t, r)) == []
      ensures End(v', Local(t, r)) == 0
      ensures r.Out? ==> Items(v', Local(t, r)) == []
    {
      FedReg(pc, pc', t, v, v', tails, count, keys, n, r);
    }
    ThreadIntro(pc', t, v', tails, count, keys);
  }

  lemma ThreadIntro(pc: Pc, t: nat, v: View, tails: map<ListId, int>, count: map<ListId, int>, keys: map<int, Key>)
    requires PcOk(pc, t) && Locals(pc, t, v)
    requires forall r {:trigger Items(v, Local(t, r))} :: !Uses(pc, r) ==> Items(v, Local(t, r)) == []
    requires forall r {:trigger End(v, Local(t, r))} :: End(v, Local(t, r)) == 0
    requires forall r: Reg {:trigger Items(v, Local(t, r))} :: r.Out? ==> Items(v, Local(t, r)) == []
    requires forall r, y {:trigger y in Items(v, Local(t, r))} :: y in Items(v, Local(t, r)) ==> y in keys && InReg(pc, t, r, keys[y])
    requires forall c :: BinOk(pc, t, v, count, c)
    ensures ThreadOk(pc, t, v, tails, count, keys)
  {
    hide Uses, Floating, InReg, Locals, PcOk, BinOk;
  }

  lemma FedBin(pc: Pc, pc': Pc, t: nat, v: View, v': View, tails: map<ListId, int>, count: map<ListId, int>,
               keys: map<int, Key>, n: nat, d: nat)
    requires ThreadOk(pc, t, v, tails, count, keys) && FeedsTo(pc, pc', t) && Fed(v, v', t, n)
    ensures BinOk(pc', t, v', count, d)
  {
    hide Uses, Floating, InReg, Locals, PcOk, Refills;
    assert BinOk(pc, t, v, count, d);
  }

  lemma FedReg(pc: Pc, pc': Pc, t: nat, v: View, v': View, tails: map<ListId, int>, count: map<ListId, int>,
               keys: map<int, Key>, n: nat, r: Reg)
    requires ThreadOk(pc, t, v, tails, count, keys) && FeedsTo(pc, pc', t) && Fed(v, v', t, n)
    requires Uses(pc', Work) || n == |Items(v, Local(t, Work))|
    ensures !Uses(pc', r) ==> Items(v', Local(t, r)) == []
    ensures End(v', Local(t, r)) == 0
    ensures r.Out? ==> Items(v', Local(t, r)) == []
  {
    hide Uses, Floating, InReg, Locals, PcOk, Refills, BinOk;
    RegsOf(pc, t, v, tails, count, keys, r);
    hide ThreadOk;
  }

  lemma FedInReg(pc: Pc, pc': Pc, t: nat, v: View, v': View, tails: map<ListId, int>, count: map<ListId, int>,
                 keys: map<int, Key>, n: nat, r: Reg, y: int)
    requires ThreadOk(pc, t, v, tails, count, keys) && FeedsTo(pc, pc', t) && Fed(v, v', t, n)
    requires y in Items(v', Local(t, r))
    ensures y in keys && InReg(pc', t, r, keys[y])
  {
    hide Uses, Floating, InReg, PcOk, Refills;
    FedMembers(v, v', t, n);
    RegsOf(pc, t, v, tails, count, keys, r);
    RegsOf(pc, t, v, tails, count, keys, Work);
    hide ThreadOk;
    assert r == Work || r == Result;
  }

  lemma FedOthers(h: Heap, v: View, h': Heap, v': View, t: nat, n: nat)
    requires Fed(v, v', t, n)
    requires h'.tails == h.tails && h'.count == h.count && h'.pcs == h.pcs[t := PcIn(h'.pcs, t)]
    ensures OthersKept(h, v, h', v', t)
  {
  }

  /** A step that feeds the batch keeps the invariant. */
  lemma FeedInv(h: Heap, v: View, t: nat, mem': Mem, v': View, pc': Pc, n: nat)
    requires Inv(h, v) && FeedsTo(PcOf(h, t), pc', t) && Fed(v, v', t, n)
    requires Core(mem', h.hdr, h.slabs, h.live, v')
    requires Uses(pc', Work) || n == |Items(v, Local(t, Work))|
    requires Locals(pc', t, v')
    requires Holds(pc', t) == Holds(PcOf(h, t), t)
    requires !PcOf(h, t).ExtractFrom? && !pc'.ExtractFrom?
    ensures Inv(Goto(h, t, pc').(mem := mem'), v')
  {
    hide Inv, Core, Threads, ThreadOk, KeyMap, Separate, LocksOk, SlabLists, OthersKept, LocksKept, Holds, Locals, FeedsTo, Fed, Uses;
    var h' := Goto(h, t, pc').(mem := mem');
    InvParts(h, v);
    ThreadPart(h, v, t);
    FeedThread(PcOf(h, t), pc', t, v, v', h.tails, h.count, KeyMap(h.hdr, h.slabs), n);
    LocksSame(h.locks, h.pcs, t, pc');
    LocksKeptBy(h.locks, t, Key(0, 0));
    FedOthers(h, v, h', v', t, n);
    PrivateStep(h, v, h', v', t);
  }

  // ----- Feeding from the own queue -----------------------------------------

  /** What the feed walk and the cut do to a queue taken over. */
  lemma FeedEffect(mem: Mem, hdr: map<int, Header>, slabs: map<int, Slab>, live: set<int>, v: View, t: nat, r: Reg, want: nat)
    requires Core(mem, hdr, slabs, live, v) && r != Work
    requires Items(v, Local(t, r)) == [] && End(v, Local(t, r)) == 0
    requires End(v, Local(t, Work)) == 0 && |Items(v, Local(t, Work))| > 0 && want >= 1
    ensures var w := Items(v, Local(t, Work));
            var n := Min(want, |w|);
            && Head(mem, Local(t, Work)) == w[0] && Plausible(w[0])
            && FeedWalk(mem.next, w[0], want, 1) == Stop(w[n - 1], n)
            && w[n - 1] in mem.next && mem.next[w[n - 1]] == (if n < |w| then w[n] else 0)
            && (n < |w| ==> Plausible(w[n]))
            && Core(Cut(mem, Local(t, Work), Local(t, r), w[n - 1]), hdr, slabs, live, VCut(v, Local(t, Work), Local(t, r), n))
  {
    hide Core, Rep, VCut, Cut;
    var work := Local(t, Work);
    var w := Items(v, work);
    var n := Min(want, |w|);
    ListBlocks(mem, hdr, slabs, live, v, work);
    assert w[0] in w && w[n - 1] in w;
    if n < |w| { assert w[n] in w; }
    FeedWalkStops(mem.next, w, 0, want, 1);
    CutCore(mem, hdr, slabs, live, v, work, Local(t, r), n);
  }

  /** The bounded walk over the remainder: it ends on the last block exactly if there are at most 64. */
  lemma RemainderWalk(mem: Mem, hdr: map<int, Header>, slabs: map<int, Slab>, live: set<int>, v: View, t: nat)
    requires Core(mem, hdr, slabs, live, v)
    requires End(v, Local(t, Work)) == 0 && |Items(v, Local(t, Work))| > 0
    ensures var w := Items(v, Local(t, Work));
            var n := Min(64, |w|);
            && FeedWalk(mem.next, w[0], 64, 1) == Stop(w[n - 1], n) && w[n - 1] in mem.next
            && (mem.next[w[n - 1]] == 0 <==> |w| <= 64)
  {
    hide Core, Rep;
    var w := Items(v, Local(t, Work));
    ListBlocks(mem, hdr, slabs, live, v, Local(t, Work));
    FeedWalkStops(mem.next, w, 0, 64, 1);
    if |w| > 64 { assert w[64] in w; }
  }

  /** Where the refill goes on after feeding `n` blocks of a queue of length `len`. */
  function AfterFeed(t: nat, c: nat, target: nat, n: nat, w: seq<int>): Pc
    requires n <= |w|
  {
    if n == |w| then Steal(c, target, n, 1)
    else if |w| - n <= 64 then PushLoad(Work, Last(w[n..]), Home(t), c, ToSteal(c, target, n))
    else Fold(Home(t), c, ToSteal(c, target, n))
  }

  lemma RefillCutComputes(h: Heap, t: nat, c: nat, target: nat, w: seq<int>, n: nat)
    requires 1 <= n <= |w| && Head(h.mem, Local(t, Work)) == w[0] && Plausible(w[0])
    requires FeedWalk(h.mem.next, w[0], target, 1) == Stop(w[n - 1], n)
    requires w[n - 1] in h.mem.next && h.mem.next[w[n - 1]] == (if n < |w| then w[n] else 0)
    requires n < |w| ==>
               var next' := h.mem.next[w[n - 1] := 0];
               var m := Min(64, |w| - n);
               && Plausible(w[n]) && FeedWalk(next', w[n], 64, 1) == Stop(w[n + m - 1], m) && w[n + m - 1] in next'
               && (next'[w[n + m - 1]] == 0 <==> |w| - n <= 64)
    ensures StepRefillCut(h, t, c, target)
         == Ok(Goto(h, t, AfterFeed(t, c, target, n, w)).(mem := Cut(h.mem, Local(t, Work), Local(t, Result), w[n - 1])))
  {
    hide FeedWalk;
  }

  /** A feed: up to `target` blocks are taken, a remainder of at most 64 is
      re-parked and a longer one goes into the slabs. */
  lemma RefillCutEffect(h: Heap, v: View, t: nat, c: nat, target: nat)
    requires Core(h.mem, h.hdr, h.slabs, h.live, v) && target >= 1
    requires Items(v, Local(t, Result)) == [] && End(v, Local(t, Result)) == 0
    requires End(v, Local(t, Work)) == 0 && |Items(v, Local(t, Work))| > 0
    ensures var w := Items(v, Local(t, Work));
            var n := Min(target, |w|);
            && w[n - 1] in h.mem.next
            && var mem' := Cut(h.mem, Local(t, Work), Local(t, Result), w[n - 1]);
               && Core(mem', h.hdr, h.slabs, h.live, VCut(v, Local(t, Work), Local(t, Result), n))
               && StepRefillCut(h, t, c, target) == Ok(Goto(h, t, AfterFeed(t, c, target, n, w)).(mem := mem'))
  {
    hide Core, Rep, VCut, FeedWalk, StepRefillCut, Plausible, AfterFeed;
    var work, result := Local(t, Work), Local(t, Result);
    var w := Items(v, work);
    var n := Min(target, |w|);
    FeedEffect(h.mem, h.hdr, h.slabs, h.live, v, t, Result, target);
    var mem', v' := Cut(h.mem, work, result, w[n - 1]), VCut(v, work, result, n);
    if n < |w| {
      assert Items(v', work) == w[n..];
      RemainderWalk(mem', h.hdr, h.slabs, h.live, v', t);
    }
    RefillCutComputes(h, t, c, target, w, n);
  }

  lemma RefillCutInv(h: Heap, v: View, t: nat, c: nat, target: nat) returns (v': View)
    requires Inv(h, v) && PcOf(h, t) == RefillCut(c, target)
    ensures StepRefillCut(h, t, c, target).Ok?
    ensures Inv(StepRefillCut(h, t, c, target).heap, v')
    ensures QueuesKept(v, v')
  {
    hide Inv, Core, VCut, StepRefillCut, Threads, Separate, LocksOk, SlabLists, AfterFeed, FeedsTo;
    var work, result := Local(t, Work), Local(t, Result);
    PcIsOk(h, v, t);
    if Items(v, work) == [] {
      RefillCutEmpty(h, v, t, c, target);
      v' := v;
    } else {
      InvParts(h, v);
      RefillCutEffect(h, v, t, c, target);
      var w := Items(v, work);
      var n := Min(target, |w|);
      v' := VCut(v, work, result, n);
      assert Items(v', result) == [] + w[..n];
      AfterFeedFollows(t, c, target, n, w, v');
      FeedInv(h, v, t, Cut(h.mem, work, result, w[n - 1]), v', AfterFeed(t, c, target, n, w), n);
    }
  }

  lemma AfterFeedFollows(t: nat, c: nat, target: nat, n: nat, w: seq<int>, v: View)
    requires TargetOk(c, target, n) && 1 <= n <= |w|
    requires |Items(v, Local(t, Result))| == n && Items(v, Local(t, Work)) == w[n..]
    ensures var pc := AfterFeed(t, c, target, n, w);
            && FeedsTo(RefillCut(c, target), pc, t) && Locals(pc, t, v)
            && (Uses(pc, Work) || n == |w|) && !pc.ExtractFrom?
            && Holds(pc, t) == Holds(RefillCut(c, target), t)
  {
  }

  lemma RefillCutEmpty(h: Heap, v: View, t: nat, c: nat, target: nat)
    requires Inv(h, v) && PcOf(h, t) == RefillCut(c, target) && Items(v, Local(t, Work)) == []
    ensures StepRefillCut(h, t, c, target).Ok? && Inv(StepRefillCut(h, t, c, target).heap, v)
  {
    hide Inv;
    PcIsOk(h, v, t);
    HeadNull(h, v, Local(t, Work));
    GotoInv(h, v, t, Steal(c, target, 0, 1));
  }

  // ----- Feeding from a foreign queue ---------------------------------------

  /** The batch plus the stolen prefix, joined through the spare register. */
  function VJoin(v: View, t: nat, n: nat, p: int): View
    requires n <= |Items(v, Local(t, Work))|
  {
    var work, result, feed := Local(t, Work), Local(t, Result), Local(t, Feed);
    var v1 := VCut(v, work, feed, n);
    if Items(v, result) == [] then VMove(v1, feed, result)
    else VMove(VSplice(VRelink(v1, result, p), result, feed), feed, result)
  }

  function Join(m: Mem, t: nat, tl: int): Mem {
    var result, feed := Local(t, Result), Local(t, Feed);
    if tl == 0 then Move(m, feed, result)
    else Move(Splice(Relink(m, tl, Head(m, feed)), result, feed), feed, result)
  }

  lemma VJoinFed(v: View, t: nat, n: nat, p: int)
    requires n <= |Items(v, Local(t, Work))| && Items(v, Local(t, Feed)) == []
    requires End(v, Local(t, Result)) == 0 && End(v, Local(t, Feed)) == 0
    ensures Fed(v, VJoin(v, t, n, p), t, n)
  {
    hide VCut, VMove, VSplice, VRelink;
    var work, result, feed := Local(t, Work), Local(t, Result), Local(t, Feed);
    var v1 := VCut(v, work, feed, n);
    if Items(v, result) == [] {
      assert Items(VMove(v1, feed, result), result) == [] + Items(v, work)[..n];
    } else {
      var v2 := VRelink(v1, result, p);
      var v3 := VSplice(v2, result, feed);
      assert Items(v3, feed) == Items(v, result) + Items(v, work)[..n];
    }
  }

  lemma JoinCore(mem: Mem, hdr: map<int, Header>, slabs: map<int, Slab>, live: set<int>, v: View, t: nat)
    requires Core(mem, hdr, slabs, live, v)
    requires End(v, Local(t, Result)) == 0 && End(v, Local(t, Feed)) == 0
    requires |Items(v, Local(t, Feed))| > 0 && |Items(v, Local(t, Result))| > 0
    ensures var result, feed := Local(t, Result), Local(t, Feed);
            Core(Join(mem, t, Last(Items(v, result))), hdr, slabs, live,
                 VMove(VSplice(VRelink(v, result, Head(mem, feed)), result, feed), feed, result))
  {
    hide Core, Rep, VMove, VSplice, VRelink, KeyMap, Chain;
    var result, feed := Local(t, Result), Local(t, Feed);
    CoreRep(mem, hdr, slabs, live, v);
    LastMapped(mem, v, result);
    KeyFits(mem, hdr, slabs, live, v, result, feed);
    RelinkCore(mem, hdr, slabs, live, v, result, Head(mem, feed));
    var m2, v2 := Relink(mem, Last(Items(v, result)), Head(mem, feed)), VRelink(v, result, Head(mem, feed));
    SpliceCore(m2, hdr, slabs, live, v2, result, feed);
    var m3, v3 := Splice(m2, result, feed), VSplice(v2, result, feed);
    KeyFits(m3, hdr, slabs, live, v3, feed, result);
    MoveCore(m3, hdr, slabs, live, v3, feed, result);
  }

  /** The walk to the end of the batch: a list of distinct blocks is never longer than the memory. */
  lemma EndWalk(mem: Mem, hdr: map<int, Header>, slabs: map<int, Slab>, live: set<int>, v: View, l: ListId)
    requires Core(mem, hdr, slabs, live, v) && End(v, l) == 0 && |Items(v, l)| > 0
    ensures Head(mem, l) == Items(v, l)[0]
    ensures FeedWalk(mem.next, Items(v, l)[0], |mem.next|, 1) == Stop(Last(Items(v, l)), |Items(v, l)|)
    ensures Last(Items(v, l)) in mem.next && mem.next[Last(Items(v, l))] == 0
  {
    var s := Items(v, l);
    assert NoDup(s);
    hide Core, Rep;
    ListBlocks(mem, hdr, slabs, live, v, l);
    forall i | 0 <= i < |s| ensures s[i] in mem.next.Keys {
      assert s[i] in s;
    }
    DistinctFits(s, mem.next.Keys);
    FeedWalkStops(mem.next, s, 0, |mem.next|, 1);
  }

  lemma StealCutComputes(h: Heap, t: nat, c: nat, target: nat, got: nat, off: nat, w: seq<int>, n: nat, tl: int)
    requires 1 <= n <= |w| && got < target && Head(h.mem, Local(t, Work)) == w[0] && Plausible(w[0])
    requires FeedWalk(h.mem.next, w[0], target - got, 1) == Stop(w[n - 1], n)
    requires w[n - 1] in h.mem.next && h.mem.next[w[n - 1]] == (if n < |w| then w[n] else 0)
    requires n < |w| ==> Plausible(w[n])
    requires var m1 := Cut(h.mem, Local(t, Work), Local(t, Feed), w[n - 1]);
             if Head(h.mem, Local(t, Result)) == 0 then tl == 0 && got == 0
             else tl != 0 && tl in m1.next && m1.next[tl] == 0
                  && exists k :: FeedWalk(m1.next, Head(m1, Local(t, Result)), |m1.next|, 1) == Stop(tl, k)
    ensures StepStealCut(h, t, c, target, got, off)
         == Ok(Goto(h, t, Fold(Victim(t, off), c, ToStealRelease(c, target, got + n, off)))
               .(mem := Join(Cut(h.mem, Local(t, Work), Local(t, Feed), w[n - 1]), t, tl)))
  {
    hide FeedWalk;
  }

  /** The state after a steal of `n` blocks. */
  ghost predicate StealLeads(h: Heap, v: View, t: nat, c: nat, target: nat, got: nat, off: nat, n: nat) {
    var work, feed := Local(t, Work), Local(t, Feed);
    var w := Items(v, work);
    && 1 <= n <= |w| && w[n - 1] in h.mem.next
    && var m1 := Cut(h.mem, work, feed, w[n - 1]);
       var mem' := Join(m1, t, Last(Items(v, Local(t, Result))));
       && Core(mem', h.hdr, h.slabs, h.live, VJoin(v, t, n, Head(m1, feed)))
       && StepStealCut(h, t, c, target, got, off)
          == Ok(Goto(h, t, Fold(Victim(t, off), c, ToStealRelease(c, target, got + n, off))).(mem := mem'))
  }

  ghost predicate StealReady(h: Heap, v: View, t: nat, got: nat, target: nat) {
    && Core(h.mem, h.hdr, h.slabs, h.live, v) && got < target && got == |Items(v, Local(t, Result))|
    && Items(v, Local(t, Feed)) == [] && End(v, Local(t, Feed)) == 0 && End(v, Local(t, Result)) == 0
    && End(v, Local(t, Work)) == 0 && |Items(v, Local(t, Work))| > 0
  }

  /** A steal into an empty batch. */
  lemma StealFirst(h: Heap, v: View, t: nat, c: nat, target: nat, off: nat)
    requires StealReady(h, v, t, 0, target)
    ensures StealLeads(h, v, t, c, target, 0, off, Min(target, |Items(v, Local(t, Work))|))
  {
    hide Core, Rep, VCut, VMove, VSplice, VRelink, FeedWalk, StepStealCut, Plausible, Join, KeyMap;
    var work, result, feed := Local(t, Work), Local(t, Result), Local(t, Feed);
    var w := Items(v, work);
    var n := Min(target, |w|);
    FeedEffect(h.mem, h.hdr, h.slabs, h.live, v, t, Feed, target);
    var m1, v1 := Cut(h.mem, work, feed, w[n - 1]), VCut(v, work, feed, n);
    CoreRep(h.mem, h.hdr, h.slabs, h.live, v);
    HeadIsFirst(h.mem, v, result);
    KeyFits(m1, h.hdr, h.slabs, h.live, v1, feed, result);
    MoveJoin(m1, h.hdr, h.slabs, h.live, v1, t);
    StealCutComputes(h, t, c, target, 0, off, w, n, 0);
  }

  lemma JoinFacts(mem: Mem, hdr: map<int, Header>, slabs: map<int, Slab>, live: set<int>, v: View, t: nat)
    requires Core(mem, hdr, slabs, live, v)
    requires End(v, Local(t, Result)) == 0 && End(v, Local(t, Feed)) == 0
    requires |Items(v, Local(t, Feed))| > 0 && |Items(v, Local(t, Result))| > 0
    ensures var result, feed := Local(t, Result), Local(t, Feed);
            var tl := Last(Items(v, result));
            && tl != 0 && tl in mem.next && mem.next[tl] == 0
            && FeedWalk(mem.next, Head(mem, result), |mem.next|, 1) == Stop(tl, |Items(v, result)|)
            && Core(Join(mem, t, tl), hdr, slabs, live,
                    VMove(VSplice(VRelink(v, result, Head(mem, feed)), result, feed), feed, result))
  {
    hide Core, Rep, VMove, VSplice, VRelink, FeedWalk, Join;
    EndWalk(mem, hdr, slabs, live, v, Local(t, Result));
    JoinCore(mem, hdr, slabs, live, v, t);
    CoreRep(mem, hdr, slabs, live, v);
    LastMapped(mem, v, Local(t, Result));
  }

  /** A steal into a batch that already holds blocks. */
  lemma StealMore(h: Heap, v: View, t: nat, c: nat, target: nat, got: nat, off: nat)
    requires StealReady(h, v, t, got, target) && got > 0
    ensures StealLeads(h, v, t, c, target, got, off, Min(target - got, |Items(v, Local(t, Work))|))
  {
    hide Core, Rep, VCut, VMove, VSplice, VRelink, FeedWalk, StepStealCut, Plausible, Join, KeyMap, Cut, Victim, Home, Goto, Chain;
    var work, result, feed := Local(t, Work), Local(t, Result), Local(t, Feed);
    var w := Items(v, work);
    var n := Min(target - got, |w|);
    FeedEffect(h.mem, h.hdr, h.slabs, h.live, v, t, Feed, target - got);
    var m1, v1 := Cut(h.mem, work, feed, w[n - 1]), VCut(v, work, feed, n);
    CoreRep(h.mem, h.hdr, h.slabs, h.live, v);
    HeadIsFirst(h.mem, v, result);
    FirstMapped(h.mem, v, result);
    JoinFacts(m1, h.hdr, h.slabs, h.live, v1, t);
    StealCutComputes(h, t, c, target, got, off, w, n, Last(Items(v, result)));
  }

  lemma MoveJoin(m: Mem, hdr: map<int, Header>, slabs: map<int, Slab>, live: set<int>, v: View, t: nat)
    requires Core(m, hdr, slabs, live, v)
    requires Items(v, Local(t, Result)) == [] && End(v, Local(t, Feed)) == 0 && End(v, Local(t, Result)) == 0
    requires forall y :: y in Items(v, Local(t, Feed)) ==> y in hdr && hdr[y].slab in slabs
    ensures Core(Join(m, t, 0), hdr, slabs, live, VMove(v, Local(t, Feed), Local(t, Result)))
  {
    hide Core, VMove;
    MoveCore(m, hdr, slabs, live, v, Local(t, Feed), Local(t, Result));
  }

  lemma StealTakes(h: Heap, v: View, t: nat, c: nat, target: nat, got: nat, off: nat, n: nat) returns (v': View)
    requires Inv(h, v) && PcOf(h, t) == StealCut(c, target, got, off)
    requires StealReady(h, v, t, got, target) && StealLeads(h, v, t, c, target, got, off, n)
    requires TargetOk(c, target, got + n) && 1 <= off < NUM_ARENAS
    ensures StepStealCut(h, t, c, target, got, off).Ok?
    ensures Inv(StepStealCut(h, t, c, target, got, off).heap, v')
    ensures QueuesKept(v, v')
  {
    hide Inv, Core, VJoin, Join, StepStealCut, FeedsTo, Cut, Locals;
    var work, feed := Local(t, Work), Local(t, Feed);
    var w := Items(v, work);
    var m1 := Cut(h.mem, work, feed, w[n - 1]);
    v' := VJoin(v, t, n, Head(m1, feed));
    VJoinFed(v, t, n, Head(m1, feed));
    StealCutFollows(t, c, target, got, off, n, v');
    FeedInv(h, v, t, Join(m1, t, Last(Items(v, Local(t, Result)))), v',
            Fold(Victim(t, off), c, ToStealRelease(c, target, got + n, off)), n);
  }

  lemma StealCutInv(h: Heap, v: View, t: nat, c: nat, target: nat, got: nat, off: nat) returns (v': View)
    requires Inv(h, v) && PcOf(h, t) == StealCut(c, target, got, off)
    ensures StepStealCut(h, t, c, target, got, off).Ok?
    ensures Inv(StepStealCut(h, t, c, target, got, off).heap, v')
    ensures QueuesKept(v, v')
  {
    hide Inv, Core, StepStealCut, Threads, Separate, LocksOk, SlabLists, StealLeads;
    var work := Local(t, Work);
    PcIsOk(h, v, t);
    if Items(v, work) == [] {
      StealCutEmpty(h, v, t, c, target, got, off);
      v' := v;
    } else {
      InvParts(h, v);
      if got == 0 {
        StealFirst(h, v, t, c, target, off);
      } else {
        StealMore(h, v, t, c, target, got, off);
      }
      v' := StealTakes(h, v, t, c, target, got, off, Min(target - got, |Items(v, work)|));
    }
  }

  lemma StealCutFollows(t: nat, c: nat, target: nat, got: nat, off: nat, n: nat, v: View)
    requires TargetOk(c, target, got + n) && 1 <= off < NUM_ARENAS && |Items(v, Local(t, Result))| == got + n
    ensures var pc, pc' := StealCut(c, target, got, off), Fold(Victim(t, off), c, ToStealRelease(c, target, got + n, off));
            && FeedsTo(pc, pc', t) && Locals(pc', t, v) && Uses(pc', Work) && Holds(pc', t) == Holds(pc, t)
  {
  }

  lemma StealCutEmpty(h: Heap, v: View, t: nat, c: nat, target: nat, got: nat, off: nat)
    requires Inv(h, v) && PcOf(h, t) == StealCut(c, target, got, off) && Items(v, Local(t, Work)) == []
    ensures StepStealCut(h, t, c, target, got, off).Ok? && Inv(StepStealCut(h, t, c, target, got, off).heap, v)
  {
    hide Inv;
    PcIsOk(h, v, t);
    HeadNull(h, v, Local(t, Work));
    ReleaseInv(h, v, t, Steal(c, target, got, off + 1), Key(Victim(t, off), c));
  }

  // ----- Handing the batch over ---------------------------------------------

  function VFinish(v: View, t: nat, c: nat): View
    requires |Items(v, Local(t, Result))| > 0
  {
    VMove(VPop(v, Local(t, Result)), Local(t, Result), Bin(t, c))
  }

  lemma FinishThread(t: nat, v: View, tails: map<ListId, int>, count: map<ListId, int>, keys: map<int, Key>, c: nat, got: nat)
    requires ThreadOk(Finish(c, got), t, v, tails, count, keys) && got >= 1
    ensures ThreadOk(Idle, t, VFinish(v, t, c), tails, count[Bin(t, c) := got - 1], keys)
  {
    hide VMove, VPop;
    var pc, bin, v' := Finish(c, got), Bin(t, c), VFinish(v, t, c);
    var count' := count[bin := got - 1];
    assert BinOk(pc, t, v, count, c);
    forall d ensures BinOk(Idle, t, v', count', d) {
      assert BinOk(pc, t, v, count, d);
    }
    forall r {:trigger Items(v', Local(t, r))} ensures Items(v', Local(t, r)) == [] {
      assert r == Result || Items(v, Local(t, r)) == [];
    }
  }

  lemma FinishOthers(h: Heap, v: View, h': Heap, t: nat, c: nat, n: int)
    requires |Items(v, Local(t, Result))| > 0
    requires h'.tails == h.tails && h'.pcs == h.pcs[t := PcIn(h'.pcs, t)] && h'.count == h.count[Bin(t, c) := n]
    ensures OthersKept(h, v, h', VFinish(v, t, c), t)
  {
    hide VMove, VPop;
  }

  lemma FinishCore(h: Heap, v: View, t: nat, c: nat)
    requires Core(h.mem, h.hdr, h.slabs, h.live, v)
    requires |Items(v, Local(t, Result))| > 0 && End(v, Local(t, Result)) == 0 && Items(v, Bin(t, c)) == []
    requires forall y {:trigger y in Items(v, Local(t, Result))} :: y in Items(v, Local(t, Result)) ==>
               y in KeyMap(h.hdr, h.slabs) && KeyMap(h.hdr, h.slabs)[y].cls == c
    ensures var result := Local(t, Result);
            var p := Head(h.mem, result);
            && p in h.mem.next && p == Items(v, result)[0] && p !in h.live && Plausible(p)
            && (h.mem.next[p] == 0 || Plausible(h.mem.next[p]))
            && Core(Move(Pop(h.mem, result), result, Bin(t, c)), h.hdr, h.slabs, h.live + {p}, VFinish(v, t, c))
  {
    hide Core, VMove, VPop, KeyMap, Rep;
    var result, bin := Local(t, Result), Bin(t, c);
    var s := Items(v, result);
    ListBlocks(h.mem, h.hdr, h.slabs, h.live, v, result);
    assert s[0] in s;
    if |s| > 1 { assert s[1] in s; }
    PopCore(h.mem, h.hdr, h.slabs, h.live, v, result);
    var m1, v1, live1 := Pop(h.mem, result), VPop(v, result), h.live + {s[0]};
    assert forall y :: y in Items(v1, result) ==> y in s;
    EndsAt(h.mem, h.hdr, h.slabs, h.live, v, bin);
    KeyFits(m1, h.hdr, h.slabs, live1, v1, result, bin);
    MoveCore(m1, h.hdr, h.slabs, live1, v1, result, bin);
  }

  /** The batch is empty: the client gets null. */
  lemma FinishEmpty(h: Heap, v: View, t: nat, c: nat)
    requires Inv(h, v) && PcOf(h, t) == Finish(c, 0)
    ensures StepFinish(h, t, c, 0).Ok? && Inv(StepFinish(h, t, c, 0).heap, v)
    ensures StepFinish(h, t, c, 0).heap.live == h.live
  {
    hide Inv;
    PcIsOk(h, v, t);
    HeadNull(h, v, Local(t, Result));
    assert Items(v, Local(t, Result)) == [];
    GotoInv(h, v, t, Idle);
  }

  /** The first block goes to the client, who did not own it, and the rest fills the bin. */
  lemma FinishHands(h: Heap, v: View, t: nat, c: nat, got: nat)
    requires Inv(h, v) && PcOf(h, t) == Finish(c, got) && got > 0
    ensures got == |Items(v, Local(t, Result))|
    ensures StepFinish(h, t, c, got).Ok? && Inv(StepFinish(h, t, c, got).heap, VFinish(v, t, c))
    ensures StepFinish(h, t, c, got).heap.live == h.live + {Head(h.mem, Local(t, Result))}
    ensures Head(h.mem, Local(t, Result)) !in h.live
  {
    hide Inv, Core, Threads, ThreadOk, KeyMap, Separate, LocksOk, SlabLists, OthersKept, LocksKept, VFinish;
    var pc, result, keys := Finish(c, got), Local(t, Result), KeyMap(h.hdr, h.slabs);
    PcIsOk(h, v, t);
    InvParts(h, v);
    ThreadPart(h, v, t);
    RegsOf(pc, t, v, h.tails, h.count, keys, Result);
    FinishCore(h, v, t, c);
    FinishThread(t, v, h.tails, h.count, keys, c, got);
    var h' := StepFinish(h, t, c, got).heap;
    FinishOthers(h, v, h', t, c, got - 1);
    LocksSame(h.locks, h.pcs, t, Idle);
    LocksKeptBy(h.locks, t, Key(0, 0));
    PrivateStep(h, v, h', VFinish(v, t, c), t);
  }
}
