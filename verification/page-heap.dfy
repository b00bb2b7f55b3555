/**
 The page-span cache (src/global_heap.cpp) as a small-step machine for any
 number of threads.  A step is one lock operation, one list operation under a
 bin's lock, one update of the non-empty hints, or one update of the byte
 counter.  Sizes, the cap and the counter are counted in pages of 4096 bytes;
 the counter is an unsigned 64-bit number of bytes and wraps.  The search for a
 larger bin reads the hint words without a lock, one word a step.
 */
module PageHeap {
  import opened Ranges

  const MAX_PAGES: nat := 512

  /** 2^64 bytes, in pages. */
  const WORD: nat := 0x10_0000_0000_0000

  /** The value of the unsigned byte counter. */
  function Wrap(x: int): nat {
    x % WORD
  }

  /** A span: its first page and its number of pages. */
  datatype Span = Span(base: int, pages: nat)

  datatype Pc =
    | Out
    // Allocation, exact bin
    | ELock(n: nat)
    | EPop(n: nat)
    | EMiss(n: nat)
    | EMark(n: nat, b: int)
    | EUnlock(n: nat, b: int)
    | ESub(n: nat, b: int)
    // Allocation, split of a larger span
    | Scan(n: nat, from: nat, w: nat)
    | SLock(n: nat, p: nat)
    | SPop(n: nat, p: nat)
    | SStale(n: nat, p: nat)
    | SStaleUnlock(n: nat, p: nat)
    | SMark(n: nat, p: nat, b: int)
    | SSub(n: nat, p: nat, b: int)
    | SLockRem(n: nat, p: nat, b: int)
    | SPush(n: nat, p: nat, b: int)
    | SMarkRem(n: nat, p: nat, b: int)
    | SUnlockRem(n: nat, p: nat, b: int)
    | SAdd(n: nat, p: nat, b: int)
    | SUnlock(n: nat, p: nat, b: int)
    // Allocation from the operating system: the span pool under its lock, or a mapping of its own
    | OsLock(n: nat)
    | OsTake(n: nat)
    | OsMap(n: nat)
    // Free
    | FAdd(n: nat, b: int)
    | FLock(n: nat, b: int)
    | FPush(n: nat, b: int)
    | FMark(n: nat)
    | FUnlock(n: nat)
    | FReject(n: nat, b: int)
    | FSub(n: nat, b: int)
    | FOs(n: nat, b: int)
    // Purge of all bins, one after the other
    | PLock(p: nat)
    | PTake(p: nat)
    | PMark(p: nat, list: seq<int>)
    | PUnlock(p: nat, list: seq<int>)
    | PDrop(p: nat, list: seq<int>)
    | PSub(p: nat, list: seq<int>)

  datatype State = State(
    limit: nat,
    bins: map<nat, seq<int>>,
    hints: set<nat>,
    total: nat,
    locks: map<nat, nat>,
    pcs: seq<Pc>,
    client: set<Span>,
    held: set<int>)

  /** The lock of the span pool ranks below the locks of the bins. */
  const POOL: nat := 0

  function Bin(bins: map<nat, seq<int>>, p: nat): seq<int> {
    if p in bins then bins[p] else []
  }

  /** How many spans of `n` pages a bin keeps: 2 MB worth, at least 2 and at most 64. */
  function Retention(n: nat): nat
    requires n > 0
  {
    var bySize := MAX_PAGES / n;
    if bySize < 2 then 2 else if bySize > 64 then 64 else bySize
  }

  /** What the operating system answers. */
  datatype Choice = Choice(base: int, ok: bool)

  function Go(s: State, t: nat, pc: Pc): State
    requires t < |s.pcs|
  {
    s.(pcs := s.pcs[t := pc])
  }

  /** Take a lock, or keep waiting for it. */
  function Lock(s: State, t: nat, k: nat, pc: Pc): State
    requires t < |s.pcs|
  {
    if k in s.locks then s else Go(s.(locks := s.locks[k := t]), t, pc)
  }

  function Unlock(s: State, t: nat, k: nat, pc: Pc): State
    requires t < |s.pcs|
  {
    Go(s.(locks := s.locks - {k}), t, pc)
  }

  function SetBin(s: State, p: nat, list: seq<int>): State {
    s.(bins := s.bins[p := list])
  }

  /** The hint of a bin is cleared if a removal left the bin empty. */
  function Mark(s: State, p: nat): State {
    s.(hints := if Bin(s.bins, p) == [] then s.hints - {p} else s.hints)
  }

  function Give(s: State, t: nat, b: int, n: nat): State
    requires t < |s.pcs|
  {
    Go(s.(client := s.client + {Span(b, n)}), t, Out)
  }

  function NextPurge(p: nat): Pc {
    if p < MAX_PAGES then PLock(p + 1) else Out
  }

  const HINT_BITS: nat := 64
  const HINT_WORDS: nat := 9

  /** The smallest hinted bin from `lo` up to `hi`, or `hi`. */
  function LeastHint(hints: set<nat>, lo: nat, hi: nat): (p: nat)
    requires lo <= hi
    ensures lo <= p <= hi && (p < hi ==> p in hints)
    ensures forall q: nat {:trigger q in hints} :: lo <= q < p ==> q !in hints
    decreases hi - lo
  {
    if lo == hi || lo in hints then lo else LeastHint(hints, lo + 1, hi)
  }

  /** The search above bin `from` starts with the word of bin `from + 1`. */
  function ScanFrom(n: nat, from: nat): Pc {
    Scan(n, from, (from + 1) / HINT_BITS)
  }

  /** One load of a hint word: the lowest bin hinted in it above `from`, the next word, or the operating system. */
  function Scanned(hints: set<nat>, n: nat, from: nat, w: nat): Pc {
    var lo := if from + 1 < w * HINT_BITS then w * HINT_BITS else from + 1;
    var hi := (w + 1) * HINT_BITS;
    if w >= HINT_WORDS then OsLock(n)
    else if hi < lo || LeastHint(hints, lo, hi) == hi then Scan(n, from, w + 1)
    else if LeastHint(hints, lo, hi) <= MAX_PAGES then SLock(n, LeastHint(hints, lo, hi))
    else OsLock(n)
  }

  /** One step of thread `t`. */
  function Step(s: State, t: nat, ch: Choice): State
    requires t < |s.pcs|
  {
    match s.pcs[t]
    case Out => s
    case ELock(n) => Lock(s, t, n, EPop(n))
    case EPop(n) =>
      var list := Bin(s.bins, n);
      if list == [] then Go(s, t, EMiss(n)) else Go(SetBin(s, n, list[1..]), t, EMark(n, list[0]))
    case EMiss(n) => Unlock(s, t, n, ScanFrom(n, n))
    case EMark(n, b) => Go(Mark(s, n), t, EUnlock(n, b))
    case EUnlock(n, b) => Unlock(s, t, n, ESub(n, b))
    case ESub(n, b) => Give(s.(total := Wrap(s.total - n)), t, b, n)
    case Scan(n, from, w) => Go(s, t, Scanned(s.hints, n, from, w))
    case SLock(n, p) => Lock(s, t, p, SPop(n, p))
    case SPop(n, p) =>
      var list := Bin(s.bins, p);
      if list == [] then Go(s, t, SStale(n, p)) else Go(SetBin(s, p, list[1..]), t, SMark(n, p, list[0]))
    case SStale(n, p) => Go(s.(hints := s.hints - {p}), t, SStaleUnlock(n, p))
    case SStaleUnlock(n, p) => Unlock(s, t, p, ScanFrom(n, p))
    case SMark(n, p, b) => Go(Mark(s, p), t, SSub(n, p, b))
    case SSub(n, p, b) => Go(s.(total := Wrap(s.total - p)), t, SLockRem(n, p, b))
    case SLockRem(n, p, b) => if n <= p then Lock(s, t, p - n, SPush(n, p, b)) else s
    case SPush(n, p, b) =>
      if n <= p then Go(SetBin(s, p - n, [b + n] + Bin(s.bins, p - n)), t, SMarkRem(n, p, b)) else s
    case SMarkRem(n, p, b) => if n <= p then Go(s.(hints := s.hints + {p - n}), t, SUnlockRem(n, p, b)) else s
    case SUnlockRem(n, p, b) => if n <= p then Unlock(s, t, p - n, SAdd(n, p, b)) else s
    case SAdd(n, p, b) => Go(s.(total := Wrap(s.total + p - n)), t, SUnlock(n, p, b))
    case SUnlock(n, p, b) => Give(s.(locks := s.locks - {p}), t, b, n)
    case OsLock(n) => Lock(s, t, POOL, OsTake(n))
    case OsTake(n) =>
      var s1 := s.(locks := s.locks - {POOL});
      if ch.ok then Give(s1.(held := s.held + Range(ch.base, n)), t, ch.base, n) else Go(s1, t, OsMap(n))
    case OsMap(n) =>
      if ch.ok then Give(s.(held := s.held + Range(ch.base, n)), t, ch.base, n) else Go(s, t, Out)
    case FAdd(n, b) =>
      var total := Wrap(s.total + n);
      Go(s.(total := total), t, if total <= s.limit then FLock(n, b) else FSub(n, b))
    case FLock(n, b) => Lock(s, t, n, FPush(n, b))
    case FPush(n, b) =>
      if n > 0 && |Bin(s.bins, n)| < Retention(n)
      then Go(SetBin(s, n, [b] + Bin(s.bins, n)), t, FMark(n))
      else Go(s, t, FReject(n, b))
    case FMark(n) => Go(s.(hints := s.hints + {n}), t, FUnlock(n))
    case FUnlock(n) => Unlock(s, t, n, Out)
    case FReject(n, b) => Unlock(s, t, n, FSub(n, b))
    case FSub(n, b) => Go(s.(total := Wrap(s.total - n)), t, FOs(n, b))
    case FOs(n, b) => Go(s.(held := s.held - Range(b, n)), t, Out)
    case PLock(p) => Lock(s, t, p, PTake(p))
    case PTake(p) => Go(SetBin(s, p, []), t, PMark(p, Bin(s.bins, p)))
    case PMark(p, list) => Go(s.(hints := s.hints - {p}), t, PUnlock(p, list))
    case PUnlock(p, list) => Unlock(s, t, p, PDrop(p, list))
    case PDrop(p, list) =>
      if list == [] then Go(s, t, NextPurge(p))
      else Go(s.(held := s.held - Range(list[0], p)), t, PSub(p, list[1..]))
    case PSub(p, list) => Go(s.(total := Wrap(s.total - p)), t, PDrop(p, list))
  }

  datatype Action =
    | Allocate(t: nat, n: nat)
    | Free(t: nat, span: Span)
    | Purge(t: nat)
    | Remap(t: nat, span: Span, to: Span)
    | Run(t: nat, choice: Choice)

  /** What callers may do, and what the operating system may hand out: only pages nobody has.
      A caller may have the system shrink, grow or move its span behind the page heap's back. */
  ghost predicate Enabled(s: State, act: Action) {
    match act
    case Allocate(t, n) => t < |s.pcs| && s.pcs[t] == Out && n > 0
    case Free(t, span) => t < |s.pcs| && s.pcs[t] == Out && span in s.client
    case Purge(t) => t < |s.pcs| && s.pcs[t] == Out
    case Remap(t, span, to) =>
      && t < |s.pcs| && s.pcs[t] == Out && span in s.client && to.pages > 0
      && Range(to.base, to.pages) !! s.held - Range(span.base, span.pages)
    case Run(t, ch) => t < |s.pcs| && ((s.pcs[t].OsTake? || s.pcs[t].OsMap?) && ch.ok ==>
                                       Range(ch.base, s.pcs[t].n) !! s.held)
  }

  /** Requests and frees above 512 pages bypass the bins. */
  function BeginAllocate(s: State, t: nat, n: nat): State
    requires t < |s.pcs|
  {
    Go(s, t, if n <= MAX_PAGES then ELock(n) else OsMap(n))
  }

  function BeginFree(s: State, t: nat, span: Span): State
    requires t < |s.pcs|
  {
    Go(s.(client := s.client - {span}), t,
       if span.pages <= MAX_PAGES then FAdd(span.pages, span.base) else FOs(span.pages, span.base))
  }

  function BeginPurge(s: State, t: nat): State
    requires t < |s.pcs|
  {
    Go(s, t, PLock(1))
  }

  /** The caller's span becomes another one. */
  function Remapped(s: State, span: Span, to: Span): State {
    s.(client := s.client - {span} + {to}, held := s.held - Range(span.base, span.pages) + Range(to.base, to.pages))
  }

  function Apply(s: State, act: Action): State
    requires Enabled(s, act)
  {
    match act
    case Allocate(t, n) => BeginAllocate(s, t, n)
    case Free(t, span) => BeginFree(s, t, span)
    case Purge(t) => BeginPurge(s, t)
    case Remap(_, span, to) => Remapped(s, span, to)
    case Run(t, ch) => Step(s, t, ch)
  }

  /** No span anywhere, `threads` threads outside the page heap. */
  function Start(limit: nat, threads: nat): State {
    State(limit, map[], {}, 0, map[], seq(threads, _ => Out), {}, {})
  }

  ghost predicate IsRun(s: State, acts: seq<Action>)
    decreases |acts|
  {
    |acts| > 0 ==> Enabled(s, acts[0]) && IsRun(Apply(s, acts[0]), acts[1..])
  }

  ghost function After(s: State, acts: seq<Action>): State
    requires IsRun(s, acts)
    decreases |acts|
  {
    if |acts| == 0 then s else After(Apply(s, acts[0]), acts[1..])
  }
}
