/** How parts of the invariant survive steps that do not concern them. */
module HeapFrames {
  import opened Links
  import opened Heap
  import opened HeapInvariant

  /** The blocks on `l` may have gone to `l'`; nothing else changed lists. */
  ghost predicate Rerouted(v: View, v': View, l: ListId, l': ListId) {
    && v'.own.Keys == v.own.Keys
    && (forall y {:trigger y in v'.own} :: y in v'.own && v'.own[y] != v.own[y] ==>
          y in Items(v, l) && v'.own[y] == l')
    && (forall k {:trigger Items(v', k)} :: k != l && k != l' ==> Items(v', k) == Items(v, k))
    && (forall k {:trigger End(v', k)} :: k != l ==> End(v', k) == End(v, k))
  }

  /** A list of fitting blocks may be moved as a whole or in part to another list. */
  lemma RerouteCore(mem: Mem, hdr: map<int, Header>, slabs: map<int, Slab>, live: set<int>, v: View,
                    mem': Mem, v': View, l: ListId, l': ListId)
    requires Core(mem, hdr, slabs, live, v)
    requires Rep(mem', v') && mem'.next.Keys == mem.next.Keys
    requires Rerouted(v, v', l, l') && !l.SlabFree? && !l'.SlabFree?
    requires l.Local? || End(v', l) == 0
    requires forall y :: y in Items(v, l) ==> y in hdr && hdr[y].slab in slabs && Fits(hdr, slabs, y, l')
    ensures Core(mem', hdr, slabs, live, v')
  {
    hide Rep, Chain, Apart;
    CoreFrame(mem, hdr, slabs, live, v, mem', v');
  }

  lemma CoreFrame(mem: Mem, hdr: map<int, Header>, slabs: map<int, Slab>, live: set<int>, v: View, mem': Mem, v': View)
    requires Core(mem, hdr, slabs, live, v)
    requires Rep(mem', v') && mem'.next.Keys == mem.next.Keys
    requires v'.own.Keys == v.own.Keys
    requires forall y {:trigger y in v'.own} :: y in v'.own ==> v'.own[y] == v.own[y] || Fits(hdr, slabs, y, v'.own[y])
    requires forall b :: |Items(v', SlabFree(b))| == |Items(v, SlabFree(b))|
    requires forall l: ListId :: !l.Local? ==> End(v', l) == 0
    ensures Core(mem', hdr, slabs, live, v')
  {
    forall b | b in slabs ensures SlabOk(hdr, slabs, v', b) {
      assert SlabOk(hdr, slabs, v, b);
    }
  }

  predicate Foreign(l: ListId, t: nat) {
    (l.Local? || l.Bin?) && l.thread != t
  }

  ghost predicate OthersKept(h: Heap, v: View, h': Heap, v': View, t: nat) {
    && (forall l {:trigger Items(v', l)} :: Foreign(l, t) ==> Items(v', l) == Items(v, l))
    && (forall l {:trigger End(v', l)} :: Foreign(l, t) ==> End(v', l) == End(v, l))
    && (forall l {:trigger At(h'.tails, l)} :: Foreign(l, t) ==> At(h'.tails, l) == At(h.tails, l))
    && (forall l {:trigger At(h'.count, l)} :: Foreign(l, t) ==> At(h'.count, l) == At(h.count, l))
    && (forall t': nat :: t' != t ==> PcIn(h'.pcs, t') == PcIn(h.pcs, t'))
  }

  /** The key of every block on a thread's list stays what it is. */
  ghost predicate KeysKept(keys: map<int, Key>, v: View, keys': map<int, Key>) {
    forall y {:trigger y in keys'} :: y in keys && y in v.own && v.own[y].Local? ==> y in keys' && keys'[y] == keys[y]
  }

  lemma OtherThread(h: Heap, v: View, keys: map<int, Key>, h': Heap, v': View, keys': map<int, Key>, t: nat, t': nat)
    requires t' != t && Separate(v)
    requires OthersKept(h, v, h', v', t) && KeysKept(keys, v, keys')
    requires ThreadOk(PcIn(h.pcs, t'), t', v, h.tails, h.count, keys)
    ensures ThreadOk(PcIn(h'.pcs, t'), t', v', h'.tails, h'.count, keys')
  {
    ThreadFrame(PcIn(h.pcs, t'), t', v, h.tails, h.count, keys, v', h'.tails, h'.count, keys');
  }

  lemma ThreadsFrame(h: Heap, v: View, h': Heap, v': View, t: nat)
    requires Threads(h, v) && Separate(v)
    requires OthersKept(h, v, h', v', t) && KeysKept(KeyMap(h.hdr, h.slabs), v, KeyMap(h'.hdr, h'.slabs))
    requires ThreadOk(PcIn(h'.pcs, t), t, v', h'.tails, h'.count, KeyMap(h'.hdr, h'.slabs))
    ensures Threads(h', v')
  {
    forall t': nat | t' != t
      ensures ThreadOk(PcIn(h'.pcs, t'), t', v', h'.tails, h'.count, KeyMap(h'.hdr, h'.slabs))
    {
      OtherThread(h, v, KeyMap(h.hdr, h.slabs), h', v', KeyMap(h'.hdr, h'.slabs), t, t');
    }
  }

  // ----- Locks --------------------------------------------------------------

  lemma LocksSame(locks: map<Key, nat>, pcs: map<nat, Pc>, t: nat, pc: Pc)
    requires LocksOk(locks, pcs) && Holds(pc, t) == Holds(PcIn(pcs, t), t)
    ensures LocksOk(locks, pcs[t := pc])
  {
    forall k, t': nat {:trigger k in Holds(PcIn(pcs[t := pc], t'), t')}
      ensures k in Holds(PcIn(pcs[t := pc], t'), t') <==> (k in locks && locks[k] == t') {
      assert k in Holds(PcIn(pcs, t'), t') <==> (k in locks && locks[k] == t');
    }
  }

  lemma LocksAcquire(locks: map<Key, nat>, pcs: map<nat, Pc>, t: nat, pc: Pc, a: Key)
    requires LocksOk(locks, pcs) && a !in locks
    requires Holds(pc, t) == Holds(PcIn(pcs, t), t) + {a}
    ensures LocksOk(locks[a := t], pcs[t := pc])
  {
    var locks' := locks[a := t];
    forall k, t': nat {:trigger k in Holds(PcIn(pcs[t := pc], t'), t')}
      ensures k in Holds(PcIn(pcs[t := pc], t'), t') <==> (k in locks' && locks'[k] == t') {
      assert k in Holds(PcIn(pcs, t'), t') <==> (k in locks && locks[k] == t');
    }
  }

  lemma LocksRelease(locks: map<Key, nat>, pcs: map<nat, Pc>, t: nat, pc: Pc, a: Key)
    requires LocksOk(locks, pcs) && a in Holds(PcIn(pcs, t), t)
    requires Holds(pc, t) == Holds(PcIn(pcs, t), t) - {a}
    ensures LocksOk(locks - {a}, pcs[t := pc])
  {
    var locks' := locks - {a};
    forall k, t': nat {:trigger k in Holds(PcIn(pcs[t := pc], t'), t')}
      ensures k in Holds(PcIn(pcs[t := pc], t'), t') <==> (k in locks' && locks'[k] == t') {
      assert k in Holds(PcIn(pcs, t'), t') <==> (k in locks && locks[k] == t');
      assert a in Holds(PcIn(pcs, t), t) <==> (a in locks && locks[a] == t);
    }
  }

  // ----- Slab lists ---------------------------------------------------------

  /** The locks of the other threads stay what they are. */
  ghost predicate LocksKept(locks: map<Key, nat>, locks': map<Key, nat>, t: nat) {
    && (forall k {:trigger k in locks'} :: k in locks && locks[k] != t ==> k in locks' && locks'[k] == locks[k])
    && (forall k {:trigger k in locks'} :: k in locks' && locks'[k] != t ==> k in locks && locks[k] == locks'[k])
  }

  ghost predicate PcsKept(pcs: map<nat, Pc>, pcs': map<nat, Pc>, t: nat) {
    forall t': nat {:trigger PcIn(pcs', t')} :: t' != t ==> PcIn(pcs', t') == PcIn(pcs, t')
  }

  lemma BusySame(slabs: map<int, Slab>, locks: map<Key, nat>, pcs: map<nat, Pc>,
                 locks': map<Key, nat>, pcs': map<nat, Pc>, t: nat, b: int)
    requires b in slabs
    requires !PcIn(pcs, t).ExtractFrom? && !PcIn(pcs', t).ExtractFrom?
    requires LocksKept(locks, locks', t) && PcsKept(pcs, pcs', t)
    ensures Busy(slabs, locks', pcs', b) == Busy(slabs, locks, pcs, b)
  {
    var k := SlabKey(slabs[b]);
    if k in locks' && locks'[k] != t {
      assert PcIn(pcs', locks'[k]) == PcIn(pcs, locks'[k]);
    }
  }

  /** A thread that does not extract may move on and take or drop locks. */
  lemma ListsSame(slabs: map<int, Slab>, partial: map<Key, seq<int>>, full: map<Key, seq<int>>,
                  locks: map<Key, nat>, pcs: map<nat, Pc>, locks': map<Key, nat>, pcs': map<nat, Pc>, t: nat)
    requires SlabLists(slabs, partial, full, locks, pcs)
    requires !PcIn(pcs, t).ExtractFrom? && !PcIn(pcs', t).ExtractFrom?
    requires LocksKept(locks, locks', t) && PcsKept(pcs, pcs', t)
    ensures SlabLists(slabs, partial, full, locks', pcs')
  {
    forall b | b in slabs ensures Listed(slabs, partial, full, locks', pcs', b) {
      assert Listed(slabs, partial, full, locks, pcs, b);
      BusySame(slabs, locks, pcs, locks', pcs', t, b);
    }
    forall t': nat {:trigger PcIn(pcs', t')} ensures ExtractOk(slabs, PcIn(pcs', t'), t') {
      assert ExtractOk(slabs, PcIn(pcs, t'), t');
    }
  }

  // ----- Assembling the invariant -------------------------------------------

  lemma InvParts(h: Heap, v: View)
    requires Inv(h, v)
    ensures Core(h.mem, h.hdr, h.slabs, h.live, v)
    ensures Threads(h, v) && Separate(v)
    ensures LocksOk(h.locks, h.pcs)
    ensures SlabLists(h.slabs, h.partial, h.full, h.locks, h.pcs)
  {
  }

  lemma ThreadPart(h: Heap, v: View, t: nat)
    requires Threads(h, v)
    ensures ThreadOk(PcIn(h.pcs, t), t, v, h.tails, h.count, KeyMap(h.hdr, h.slabs))
  {
    hide ThreadOk, KeyMap;
  }

  lemma InvIntro(h: Heap, v: View)
    requires Core(h.mem, h.hdr, h.slabs, h.live, v)
    requires Threads(h, v)
    requires LocksOk(h.locks, h.pcs)
    requires SlabLists(h.slabs, h.partial, h.full, h.locks, h.pcs)
    ensures Inv(h, v)
  {
  }

  lemma KeysSame(keys: map<int, Key>, v: View)
    ensures KeysKept(keys, v, keys)
  {
  }

  lemma PcsOfOthers(h: Heap, v: View, h': Heap, v': View, t: nat)
    requires OthersKept(h, v, h', v', t)
    ensures PcsKept(h.pcs, h'.pcs, t)
  {
  }

  /** A step of thread `t` that leaves the slabs and their lists alone. */
  lemma PrivateStep(h: Heap, v: View, h': Heap, v': View, t: nat)
    requires Inv(h, v)
    requires h'.hdr == h.hdr && h'.slabs == h.slabs && h'.partial == h.partial && h'.full == h.full
    requires Core(h'.mem, h.hdr, h.slabs, h'.live, v')
    requires OthersKept(h, v, h', v', t)
    requires ThreadOk(PcIn(h'.pcs, t), t, v', h'.tails, h'.count, KeyMap(h.hdr, h.slabs))
    requires LocksOk(h'.locks, h'.pcs) && LocksKept(h.locks, h'.locks, t)
    requires !PcIn(h.pcs, t).ExtractFrom? && !PcIn(h'.pcs, t).ExtractFrom?
    ensures Inv(h', v')
  {
    hide *;
    InvParts(h, v);
    KeysSame(KeyMap(h.hdr, h.slabs), v);
    ThreadsFrame(h, v, h', v', t);
    PcsOfOthers(h, v, h', v', t);
    ListsSame(h.slabs, h.partial, h.full, h.locks, h.pcs, h'.locks, h'.pcs, t);
    InvIntro(h', v');
  }

  /** Point `pc'` expects no more of the lists than `pc` promises. */
  ghost predicate Follows(pc: Pc, pc': Pc, t: nat, v: View) {
    && PcOk(pc', t)
    && (forall r {:trigger Uses(pc', r)} :: Uses(pc, r) && Items(v, Local(t, r)) != [] ==> Uses(pc', r))
    && (forall r {:trigger Floating(pc', r)} :: Floating(pc, r) ==> Floating(pc', r) || End(v, Local(t, r)) == 0)
    && (forall r, k {:trigger InReg(pc', t, r, k)} ::
          InReg(pc, t, r, k) && Uses(pc, r) && Items(v, Local(t, r)) != [] ==> InReg(pc', t, r, k))
    && Locals(pc', t, v)
    && !pc.Overflow? && !pc'.Overflow?
    && (forall c :: Refills(pc', c) ==> Refills(pc, c) || Items(v, Bin(t, c)) == [])
  }

  lemma Retarget(pc: Pc, pc': Pc, t: nat, v: View, tails: map<ListId, int>, count: map<ListId, int>, keys: map<int, Key>)
    requires ThreadOk(pc, t, v, tails, count, keys) && Follows(pc, pc', t, v)
    ensures ThreadOk(pc', t, v, tails, count, keys)
  {
    forall c ensures BinOk(pc', t, v, count, c) {
      assert BinOk(pc, t, v, count, c);
    }
    forall r {:trigger Items(v, Local(t, r))} | !Uses(pc', r) ensures Items(v, Local(t, r)) == [] {
    }
    forall r, y {:trigger y in Items(v, Local(t, r))} | y in Items(v, Local(t, r))
      ensures y in keys && InReg(pc', t, r, keys[y])
    {
      assert Uses(pc, r);
      assert InReg(pc, t, r, keys[y]);
    }
  }

  lemma GotoOthers(h: Heap, v: View, h': Heap, t: nat)
    requires h'.tails == h.tails && h'.count == h.count && h'.pcs == h.pcs[t := PcIn(h'.pcs, t)]
    ensures OthersKept(h, v, h', v, t)
  {
  }

  lemma LocksKeptBy(locks: map<Key, nat>, t: nat, k: Key)
    ensures LocksKept(locks, locks, t)
    ensures k !in locks ==> LocksKept(locks, locks[k := t], t)
    ensures k in locks && locks[k] == t ==> LocksKept(locks, locks - {k}, t)
  {
  }

  lemma HeldBy(locks: map<Key, nat>, pcs: map<nat, Pc>, t: nat, k: Key)
    requires LocksOk(locks, pcs)
    ensures k in Holds(PcIn(pcs, t), t) <==> (k in locks && locks[k] == t)
  {
  }

  /** A step that only moves the program point. */
  lemma GotoInv(h: Heap, v: View, t: nat, pc: Pc)
    requires Inv(h, v) && Follows(PcOf(h, t), pc, t, v)
    requires Holds(pc, t) == Holds(PcOf(h, t), t)
    requires !PcOf(h, t).ExtractFrom? && !pc.ExtractFrom?
    ensures Inv(Goto(h, t, pc), v)
  {
    hide Inv, Core, Threads, ThreadOk, KeyMap, Separate, LocksOk, SlabLists, OthersKept, LocksKept, Follows, Holds;
    InvParts(h, v);
    ThreadPart(h, v, t);
    Retarget(PcOf(h, t), pc, t, v, h.tails, h.count, KeyMap(h.hdr, h.slabs));
    LocksSame(h.locks, h.pcs, t, pc);
    LocksKeptBy(h.locks, t, Key(0, 0));
    GotoOthers(h, v, Goto(h, t, pc), t);
    PrivateStep(h, v, Goto(h, t, pc), v, t);
  }

  /** A step that takes a free lock. */
  lemma AcquireInv(h: Heap, v: View, t: nat, pc: Pc, k: Key)
    requires Inv(h, v) && Follows(PcOf(h, t), pc, t, v)
    requires k !in h.locks && Holds(pc, t) == Holds(PcOf(h, t), t) + {k}
    requires !PcOf(h, t).ExtractFrom? && !pc.ExtractFrom?
    ensures Inv(Goto(Acquire(h, t, k), t, pc), v)
  {
    hide Inv, Core, Threads, ThreadOk, KeyMap, Separate, LocksOk, SlabLists, OthersKept, LocksKept, Follows, Holds;
    InvParts(h, v);
    ThreadPart(h, v, t);
    Retarget(PcOf(h, t), pc, t, v, h.tails, h.count, KeyMap(h.hdr, h.slabs));
    LocksAcquire(h.locks, h.pcs, t, pc, k);
    LocksKeptBy(h.locks, t, k);
    GotoOthers(h, v, Goto(Acquire(h, t, k), t, pc), t);
    PrivateStep(h, v, Goto(Acquire(h, t, k), t, pc), v, t);
  }

  /** A step that drops a lock the thread holds. */
  lemma ReleaseInv(h: Heap, v: View, t: nat, pc: Pc, k: Key)
    requires Inv(h, v) && Follows(PcOf(h, t), pc, t, v)
    requires k in Holds(PcOf(h, t), t) && Holds(pc, t) == Holds(PcOf(h, t), t) - {k}
    requires !PcOf(h, t).ExtractFrom? && !pc.ExtractFrom?
    ensures Inv(Goto(Release(h, k), t, pc), v)
  {
    hide Inv, Core, Threads, ThreadOk, KeyMap, Separate, LocksOk, SlabLists, OthersKept, LocksKept, Follows, Holds;
    InvParts(h, v);
    ThreadPart(h, v, t);
    Retarget(PcOf(h, t), pc, t, v, h.tails, h.count, KeyMap(h.hdr, h.slabs));
    HeldBy(h.locks, h.pcs, t, k);
    LocksRelease(h.locks, h.pcs, t, pc, k);
    LocksKeptBy(h.locks, t, k);
    GotoOthers(h, v, Goto(Release(h, k), t, pc), t);
    PrivateStep(h, v, Goto(Release(h, k), t, pc), v, t);
  }

  /** What a program point says about one register. */
  lemma RegsOf(pc: Pc, t: nat, v: View, tails: map<ListId, int>, count: map<ListId, int>, keys: map<int, Key>, r: Reg)
    requires ThreadOk(pc, t, v, tails, count, keys)
    ensures PcOk(pc, t) && Locals(pc, t, v)
    ensures !Uses(pc, r) ==> Items(v, Local(t, r)) == []
    ensures !Floating(pc, r) ==> End(v, Local(t, r)) == 0
    ensures r.Out? && |Items(v, Local(t, r))| > 0 ==> At(tails, Local(t, r)) == Last(Items(v, Local(t, r)))
    ensures forall y {:trigger y in Items(v, Local(t, r))} :: y in Items(v, Local(t, r)) ==>
              y in keys && InReg(pc, t, r, keys[y])
  {
  }

  lemma HeadIsFirst(m: Mem, v: View, l: ListId)
    requires Rep(m, v)
    ensures |Items(v, l)| > 0 ==> Head(m, l) == Items(v, l)[0]
    ensures |Items(v, l)| == 0 ==> Head(m, l) == End(v, l)
  {
    assert Chain(m.next, Head(m, l), Items(v, l), End(v, l));
  }

  /** No pending queue gained or lost a block. */
  ghost predicate QueuesKept(v: View, v': View) {
    forall a, c {:trigger Items(v', Pending(a, c))} :: Items(v', Pending(a, c)) == Items(v, Pending(a, c))
  }
}
