/** The invariant of the heap machine. */
module HeapInvariant {
  import opened Config
  import opened Links
  import opened Heap

  // ----- Blocks and slabs ---------------------------------------------------

  /** A carved block: a plausible address, laid out in a slab of its class. */
  ghost predicate BlockOk(hdr: map<int, Header>, slabs: map<int, Slab>, y: int)
    requires y in hdr
  {
    var b := hdr[y].slab;
    && Plausible(y)
    && b in slabs
    && hdr[y].cls == slabs[b].cls
    && exists j: nat :: j < slabs[b].nextNew && y == BlockAt(b, slabs[b].cls, j)
  }

  /** The kind of block each list may hold. */
  ghost predicate Fits(hdr: map<int, Header>, slabs: map<int, Slab>, y: int, l: ListId)
    requires y in hdr && hdr[y].slab in slabs
  {
    match l
    case SlabFree(b) => hdr[y].slab == b
    case Bin(t, c) => hdr[y].cls == c
    case Pending(a, c) => slabs[hdr[y].slab].arena == a && hdr[y].cls == c
    case Local(t, r) => true
  }

  /** Every carved block is either with the client or on exactly one list that may hold it. */
  ghost predicate Blocks(mem: Mem, hdr: map<int, Header>, slabs: map<int, Slab>, live: set<int>, v: View) {
    && hdr.Keys == mem.next.Keys
    && live + v.own.Keys == hdr.Keys
    && live !! v.own.Keys
    && (forall y :: y in hdr ==> BlockOk(hdr, slabs, y))
    && (forall y :: y in v.own ==> Fits(hdr, slabs, y, v.own[y]))
  }

  /** The counters of a slab agree with its free list and its carved blocks. */
  ghost predicate SlabOk(hdr: map<int, Header>, slabs: map<int, Slab>, v: View, b: int)
    requires b in slabs
  {
    var s := slabs[b];
    && s.arena < NUM_ARENAS && s.cls < NUM_SIZE_CLASSES
    && b % PAGE_SIZE == 0 && MIN_USER_PTR <= b && b + SlabBytes(s.cls) <= MAX_USER_PTR
    && s.total == SlabBlocks(s.cls) && s.nextNew <= s.total
    && s.freeBlocks == |Items(v, SlabFree(b))| + s.total - s.nextNew
    && |Carved(hdr, b)| == s.nextNew
  }

  ghost predicate Slabs(hdr: map<int, Header>, slabs: map<int, Slab>, v: View) {
    forall b :: b in slabs ==> SlabOk(hdr, slabs, v, b)
  }

  /** The shared lists end in null. */
  ghost predicate Ends(v: View) {
    forall l: ListId {:trigger End(v, l)} :: !l.Local? ==> End(v, l) == 0
  }

  /** The spans of two slabs do not overlap. */
  ghost predicate Apart(slabs: map<int, Slab>) {
    forall b, b' :: b in slabs && b' in slabs && b < b' ==> b + SlabBytes(slabs[b].cls) <= b'
  }

  ghost predicate Core(mem: Mem, hdr: map<int, Header>, slabs: map<int, Slab>, live: set<int>, v: View) {
    && Rep(mem, v)
    && Blocks(mem, hdr, slabs, live, v)
    && Slabs(hdr, slabs, v)
    && Apart(slabs)
    && Ends(v)
  }

  // ----- Threads ------------------------------------------------------------

  /** The (arena, class) of every carved block. */
  function KeyMap(hdr: map<int, Header>, slabs: map<int, Slab>): map<int, Key> {
    map y | y in hdr && hdr[y].slab in slabs :: Key(slabs[hdr[y].slab].arena, hdr[y].cls)
  }

  /** A refill asks for at least one block and at most half the bin's limit. */
  predicate TargetOk(c: nat, target: nat, got: nat) {
    c < NUM_SIZE_CLASSES && 1 <= target <= RefillCap(c) && got <= target
  }

  predicate AfterOk(after: After) {
    match after
    case ToSteal(c, target, got) => TargetOk(c, target, got)
    case ToStealRelease(c, target, got, off) => TargetOk(c, target, got) && 1 <= off < NUM_ARENAS
    case ToDrain(c, a, flushing) => a < NUM_ARENAS
    case ToRelease(c, a, flushing) => a < NUM_ARENAS
    case ToReturn(c, i, defer, flushing) => 1 <= i <= NUM_ARENAS
    case ToPurge(c, a) => a < NUM_ARENAS
  }

  predicate FoldOk(a: nat, c: nat, after: After, t: nat) {
    && c < NUM_SIZE_CLASSES && after.cls == c && AfterOk(after)
    && match after
       case ToSteal(_, _, _) => a == Home(t)
       case ToStealRelease(_, _, _, off) => a == Victim(t, off)
       case ToReturn(_, _, _, _) => false
       case _ => a == after.arena
  }

  predicate PushOk(r: Reg, a: nat, c: nat, after: After, t: nat) {
    && c < NUM_SIZE_CLASSES && after.cls == c && AfterOk(after)
    && match after
       case ToSteal(_, _, _) => r == Work && a == Home(t)
       case ToReturn(_, i, _, _) => a == i - 1 && r == Out(a)
       case _ => false
  }

  predicate PcOk(pc: Pc, t: nat) {
    match pc
    case Idle => true
    case RefillLock(c, target) => TargetOk(c, target, 0)
    case RefillSwap(c, target) => TargetOk(c, target, 0)
    case RefillCut(c, target) => TargetOk(c, target, 0)
    case Steal(c, target, got, off) => TargetOk(c, target, got) && 1 <= off <= NUM_ARENAS
    case StealSwap(c, target, got, off) => TargetOk(c, target, got) && got < target && 1 <= off < NUM_ARENAS
    case StealCut(c, target, got, off) => TargetOk(c, target, got) && got < target && 1 <= off < NUM_ARENAS
    case Extract(c, target, got) => TargetOk(c, target, got)
    case ExtractFrom(c, target, got, b, tl) => TargetOk(c, target, got)
    case Finish(c, got) => c < NUM_SIZE_CLASSES && got <= RefillCap(c)
    case Fold(a, c, after) => FoldOk(a, c, after, t)
    case PushLoad(r, tl, a, c, after) => PushOk(r, a, c, after, t)
    case PushLink(r, tl, a, c, after, seen) => PushOk(r, a, c, after, t)
    case PushCas(r, tl, a, c, after, seen) => PushOk(r, a, c, after, t)
    case Overflow(c) => c < NUM_SIZE_CLASSES
    case Split(c, _, _) => c < NUM_SIZE_CLASSES
    case Return(c, i, _, _) => c < NUM_SIZE_CLASSES && i <= NUM_ARENAS
    case Drain(c, a, _) => c < NUM_SIZE_CLASSES && a < NUM_ARENAS
    case Flush(c) => c <= NUM_SIZE_CLASSES
    case PurgeLock(c, a) => c < NUM_SIZE_CLASSES && a <= NUM_ARENAS
    case PurgeSwap(c, a) => c < NUM_SIZE_CLASSES && a < NUM_ARENAS
  }

  /** The registers that may still hold blocks after a continuation. */
  predicate AfterUses(after: After, r: Reg) {
    match after
    case ToSteal(_, _, _) => r == Result
    case ToStealRelease(_, _, _, _) => r == Result
    case ToDrain(_, a, _) => r.Out? && a < r.arena < NUM_ARENAS
    case ToRelease(_, a, _) => r.Out? && a < r.arena < NUM_ARENAS
    case ToReturn(_, i, _, _) => r.Out? && i <= r.arena < NUM_ARENAS
    case ToPurge(_, _) => false
  }

  /** The registers that may hold blocks at a program point. */
  predicate Uses(pc: Pc, r: Reg) {
    match pc
    case Idle => false
    case RefillLock(_, _) => false
    case RefillSwap(_, _) => false
    case RefillCut(_, _) => r == Work
    case Steal(_, _, _, _) => r == Result
    case StealSwap(_, _, _, _) => r == Result
    case StealCut(_, _, _, _) => r == Work || r == Result
    case Extract(_, _, _) => r == Result
    case ExtractFrom(_, _, _, _, _) => r == Result
    case Finish(_, _) => r == Result
    case Fold(_, _, after) => r == Work || AfterUses(after, r)
    case PushLoad(reg, _, _, _, after) => r == reg || AfterUses(after, r)
    case PushLink(reg, _, _, _, after, _) => r == reg || AfterUses(after, r)
    case PushCas(reg, _, _, _, after, _) => r == reg || AfterUses(after, r)
    case Overflow(_) => false
    case Split(_, _, _) => r == Work || (r.Out? && r.arena < NUM_ARENAS)
    case Return(_, i, _, _) => r.Out? && i <= r.arena < NUM_ARENAS
    case Drain(_, a, _) => r.Out? && a < r.arena < NUM_ARENAS
    case Flush(_) => false
    case PurgeLock(_, _) => false
    case PurgeSwap(_, _) => false
  }

  /** The register whose last link word is not the end of the list yet. */
  predicate Floating(pc: Pc, r: Reg) {
    || (pc.PushLink? && r == pc.reg)
    || (pc.PushCas? && r == pc.reg)
    || (pc.ExtractFrom? && r == Result)
  }

  /** The arena all blocks of register `Work` come from, where the code relies on it. */
  function WorkArena(pc: Pc, t: nat): int {
    match pc
    case RefillCut(_, _) => Home(t)
    case StealCut(_, _, _, off) => Victim(t, off)
    case Fold(a, _, _) => a
    case PushLoad(_, _, a, _, _) => a
    case PushLink(_, _, a, _, _, _) => a
    case PushCas(_, _, a, _, _, _) => a
    case _ => -1
  }

  predicate InReg(pc: Pc, t: nat, r: Reg, k: Key) {
    && !pc.Idle? && k.cls == pc.cls
    && (r.Out? ==> k.arena == r.arena)
    && (r.Work? && WorkArena(pc, t) >= 0 ==> k.arena == WorkArena(pc, t))
  }

  /** The local variables of a program point agree with the lists. */
  ghost predicate Locals(pc: Pc, t: nat, v: View) {
    var result := Items(v, Local(t, Result));
    match pc
    case Steal(c, _, got, _) => got == |result|
    case StealSwap(c, _, got, _) => got == |result|
    case StealCut(c, _, got, _) => got == |result|
    case Extract(c, _, got) => got == |result|
    case ExtractFrom(c, _, got, b, tl) => got == |result| && tl == Last(result)
    case Finish(c, got) => got == |result|
    case Fold(_, _, after) => AfterLocals(after, t, v)
    case PushLoad(r, tl, _, _, after) =>
      |Items(v, Local(t, r))| > 0 && tl == Last(Items(v, Local(t, r))) && AfterLocals(after, t, v)
    case PushLink(r, tl, _, _, after, seen) =>
      |Items(v, Local(t, r))| > 0 && tl == Last(Items(v, Local(t, r))) && AfterLocals(after, t, v)
    case PushCas(r, tl, _, _, after, seen) =>
      && |Items(v, Local(t, r))| > 0 && tl == Last(Items(v, Local(t, r))) && AfterLocals(after, t, v)
      && End(v, Local(t, r)) == seen
    case _ => true
  }

  ghost predicate AfterLocals(after: After, t: nat, v: View) {
    match after
    case ToSteal(_, _, got) => got == |Items(v, Local(t, Result))|
    case ToStealRelease(_, _, got, _) => got == |Items(v, Local(t, Result))|
    case _ => true
  }

  /** The class whose bin is being refilled. */
  predicate Refills(pc: Pc, c: nat) {
    match pc
    case RefillLock(d, _) => c == d
    case RefillSwap(d, _) => c == d
    case RefillCut(d, _) => c == d
    case Steal(d, _, _, _) => c == d
    case StealSwap(d, _, _, _) => c == d
    case StealCut(d, _, _, _) => c == d
    case Extract(d, _, _) => c == d
    case ExtractFrom(d, _, _, _, _) => c == d
    case Finish(d, _) => c == d
    case Fold(_, d, after) => (after.ToSteal? || after.ToStealRelease?) && c == d
    case PushLoad(_, _, _, d, after) => after.ToSteal? && c == d
    case PushLink(_, _, _, d, after, _) => after.ToSteal? && c == d
    case PushCas(_, _, _, d, after, _) => after.ToSteal? && c == d
    case _ => false
  }

  /** A bin's count is the length of its list and stays below the limit of its class. */
  ghost predicate BinOk(pc: Pc, t: nat, v: View, count: map<ListId, int>, c: nat) {
    var n := |Items(v, Bin(t, c))|;
    && At(count, Bin(t, c)) == n
    && (if pc == Overflow(c) then n == CacheLimit(c) else n < CacheLimit(c))
    && (Refills(pc, c) ==> n == 0)
  }

  ghost predicate ThreadOk(pc: Pc, t: nat, v: View, tails: map<ListId, int>, count: map<ListId, int>, keys: map<int, Key>) {
    && PcOk(pc, t)
    && (forall r {:trigger Items(v, Local(t, r))} :: !Uses(pc, r) ==> Items(v, Local(t, r)) == [])
    && (forall r {:trigger End(v, Local(t, r))} :: !Floating(pc, r) ==> End(v, Local(t, r)) == 0)
    && (forall r: Reg {:trigger Items(v, Local(t, r))} :: r.Out? && |Items(v, Local(t, r))| > 0 ==>
          At(tails, Local(t, r)) == Last(Items(v, Local(t, r))))
    && (forall r, y {:trigger y in Items(v, Local(t, r))} :: y in Items(v, Local(t, r)) ==>
          y in keys && InReg(pc, t, r, keys[y]))
    && Locals(pc, t, v)
    && (forall c :: BinOk(pc, t, v, count, c))
  }

  // ----- Locks --------------------------------------------------------------

  /** The class locks a thread holds at a program point. */
  function Holds(pc: Pc, t: nat): set<Key> {
    match pc
    case RefillSwap(c, _) => {Key(Home(t), c)}
    case RefillCut(c, _) => {Key(Home(t), c)}
    case Steal(c, _, _, _) => {Key(Home(t), c)}
    case StealSwap(c, _, _, off) => {Key(Home(t), c), Key(Victim(t, off), c)}
    case StealCut(c, _, _, off) => {Key(Home(t), c), Key(Victim(t, off), c)}
    case Extract(c, _, _) => {Key(Home(t), c)}
    case ExtractFrom(c, _, _, _, _) => {Key(Home(t), c)}
    case Fold(a, c, after) => if after.ToStealRelease? then {Key(Home(t), c), Key(a, c)} else {Key(a, c)}
    case PushLoad(_, _, a, c, after) => if after.ToSteal? then {Key(a, c)} else {}
    case PushLink(_, _, a, c, after, _) => if after.ToSteal? then {Key(a, c)} else {}
    case PushCas(_, _, a, c, after, _) => if after.ToSteal? then {Key(a, c)} else {}
    case Drain(c, a, _) => {Key(a, c)}
    case PurgeSwap(c, a) => {Key(a, c)}
    case _ => {}
  }

  /** A lock is held by exactly the thread whose program point says so. */
  ghost predicate LocksOk(locks: map<Key, nat>, pcs: map<nat, Pc>) {
    forall k, t: nat {:trigger k in Holds(PcIn(pcs, t), t)} ::
      k in Holds(PcIn(pcs, t), t) <==> (k in locks && locks[k] == t)
  }

  // ----- The slab lists -----------------------------------------------------

  function SlabKey(s: Slab): Key {
    Key(s.arena, s.cls)
  }

  /** Some thread is taking blocks out of this slab. */
  predicate Busy(slabs: map<int, Slab>, locks: map<Key, nat>, pcs: map<nat, Pc>, b: int)
    requires b in slabs
  {
    var k := SlabKey(slabs[b]);
    k in locks && var pc := PcIn(pcs, locks[k]); pc.ExtractFrom? && pc.slab == b
  }

  /** A slab is full exactly if it is on the full list, and partial otherwise;
      while blocks are extracted from it, it stays on the partial list. */
  ghost predicate Listed(slabs: map<int, Slab>, partial: map<Key, seq<int>>, full: map<Key, seq<int>>,
                         locks: map<Key, nat>, pcs: map<nat, Pc>, b: int)
    requires b in slabs
  {
    var k := SlabKey(slabs[b]);
    if Busy(slabs, locks, pcs, b) then b in In(partial, k) && b !in In(full, k)
    else if slabs[b].freeBlocks == 0 then b in In(full, k) && b !in In(partial, k)
    else b in In(partial, k) && b !in In(full, k) && slabs[b].freeBlocks < slabs[b].total
  }

  ghost predicate ListOk(slabs: map<int, Slab>, list: seq<int>, k: Key) {
    && NoDup(list)
    && forall b :: b in list ==> b in slabs && SlabKey(slabs[b]) == k
  }

  /** A thread extracts from a slab of its own arena, and what it got is missing there. */
  predicate ExtractOk(slabs: map<int, Slab>, pc: Pc, t: nat) {
    pc.ExtractFrom? ==>
      && pc.slab in slabs && SlabKey(slabs[pc.slab]) == Key(Home(t), pc.cls)
      && (if pc.got > 0 then slabs[pc.slab].freeBlocks < slabs[pc.slab].total else slabs[pc.slab].freeBlocks > 0)
  }

  ghost predicate SlabLists(slabs: map<int, Slab>, partial: map<Key, seq<int>>, full: map<Key, seq<int>>,
                            locks: map<Key, nat>, pcs: map<nat, Pc>) {
    && (forall k :: ListOk(slabs, In(partial, k), k))
    && (forall k :: ListOk(slabs, In(full, k), k))
    && (forall b :: b in slabs ==> Listed(slabs, partial, full, locks, pcs, b))
    && (forall t: nat {:trigger PcIn(pcs, t)} :: ExtractOk(slabs, PcIn(pcs, t), t))
  }

  // ----- Everything ---------------------------------------------------------

  ghost predicate Threads(h: Heap, v: View) {
    forall t: nat {:trigger PcIn(h.pcs, t)} ::
      ThreadOk(PcIn(h.pcs, t), t, v, h.tails, h.count, KeyMap(h.hdr, h.slabs))
  }

  ghost predicate Inv(h: Heap, v: View) {
    && Core(h.mem, h.hdr, h.slabs, h.live, v)
    && Threads(h, v)
    && LocksOk(h.locks, h.pcs)
    && SlabLists(h.slabs, h.partial, h.full, h.locks, h.pcs)
  }

  /** What does not concern a thread leaves it in order. */
  lemma ThreadFrame(pc: Pc, t: nat, v: View, tails: map<ListId, int>, count: map<ListId, int>, keys: map<int, Key>,
                    v': View, tails': map<ListId, int>, count': map<ListId, int>, keys': map<int, Key>)
    requires ThreadOk(pc, t, v, tails, count, keys)
    requires forall r {:trigger Items(v', Local(t, r))} :: Items(v', Local(t, r)) == Items(v, Local(t, r))
    requires forall r {:trigger End(v', Local(t, r))} :: End(v', Local(t, r)) == End(v, Local(t, r))
    requires forall r {:trigger At(tails', Local(t, r))} :: At(tails', Local(t, r)) == At(tails, Local(t, r))
    requires forall c {:trigger Items(v', Bin(t, c))} :: Items(v', Bin(t, c)) == Items(v, Bin(t, c))
    requires forall c {:trigger At(count', Bin(t, c))} :: At(count', Bin(t, c)) == At(count, Bin(t, c))
    requires forall y {:trigger y in keys'} :: y in keys && y in v.own && v.own[y].Local? ==> y in keys' && keys'[y] == keys[y]
    requires Separate(v)
    ensures ThreadOk(pc, t, v', tails', count', keys')
  {
    forall c ensures BinOk(pc, t, v', count', c) {
      assert BinOk(pc, t, v, count, c);
    }
    forall r: Reg | r.Out? && |Items(v', Local(t, r))| > 0
      ensures At(tails', Local(t, r)) == Last(Items(v', Local(t, r)))
    {
      assert At(tails, Local(t, r)) == Last(Items(v, Local(t, r)));
    }
    forall r, y | y in Items(v', Local(t, r)) ensures y in keys' && InReg(pc, t, r, keys'[y]) {
      assert y in Items(v, Local(t, r));
    }
  }
}
