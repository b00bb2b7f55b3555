/** What every reachable state of the page heap satisfies: locks, hints, the byte counter and the cap. */
module PageHeapInvariant {
  import opened PageHeap

  // ----- Program points -----------------------------------------------------

  predicate Small(n: nat) {
    1 <= n <= MAX_PAGES
  }

  predicate PcOk(pc: Pc) {
    match pc
    case Out => true
    case ELock(n) => Small(n)
    case EPop(n) => Small(n)
    case EMiss(n) => Small(n)
    case EMark(n, _) => Small(n)
    case EUnlock(n, _) => Small(n)
    case ESub(n, _) => Small(n)
    case Scan(n, from, w) => Small(n) && n <= from <= MAX_PAGES && w <= HINT_WORDS
    case SLock(n, p) => 1 <= n < p <= MAX_PAGES
    case SPop(n, p) => 1 <= n < p <= MAX_PAGES
    case SStale(n, p) => 1 <= n < p <= MAX_PAGES
    case SStaleUnlock(n, p) => 1 <= n < p <= MAX_PAGES
    case SMark(n, p, _) => 1 <= n < p <= MAX_PAGES
    case SSub(n, p, _) => 1 <= n < p <= MAX_PAGES
    case SLockRem(n, p, _) => 1 <= n < p <= MAX_PAGES
    case SPush(n, p, _) => 1 <= n < p <= MAX_PAGES
    case SMarkRem(n, p, _) => 1 <= n < p <= MAX_PAGES
    case SUnlockRem(n, p, _) => 1 <= n < p <= MAX_PAGES
    case SAdd(n, p, _) => 1 <= n < p <= MAX_PAGES
    case SUnlock(n, p, _) => 1 <= n < p <= MAX_PAGES
    case OsLock(n) => n >= 1
    case OsTake(n) => n >= 1
    case OsMap(n) => n >= 1
    case FAdd(n, _) => Small(n)
    case FLock(n, _) => Small(n)
    case FPush(n, _) => Small(n)
    case FMark(n) => Small(n)
    case FUnlock(n) => Small(n)
    case FReject(n, _) => Small(n)
    case FSub(n, _) => Small(n)
    case FOs(n, _) => n >= 1
    case PLock(p) => Small(p)
    case PTake(p) => Small(p)
    case PMark(p, _) => Small(p)
    case PUnlock(p, _) => Small(p)
    case PDrop(p, _) => Small(p)
    case PSub(p, _) => Small(p)
  }

  /** The locks a thread holds at a program point. */
  function Holds(pc: Pc): set<nat> {
    match pc
    case EPop(n) => {n}
    case EMiss(n) => {n}
    case EMark(n, _) => {n}
    case EUnlock(n, _) => {n}
    case SPop(_, p) => {p}
    case SStale(_, p) => {p}
    case SStaleUnlock(_, p) => {p}
    case SMark(_, p, _) => {p}
    case SSub(_, p, _) => {p}
    case SLockRem(_, p, _) => {p}
    case SPush(n, p, _) => if n <= p then {p, p - n} else {p}
    case SMarkRem(n, p, _) => if n <= p then {p, p - n} else {p}
    case SUnlockRem(n, p, _) => if n <= p then {p, p - n} else {p}
    case SAdd(_, p, _) => {p}
    case SUnlock(_, p, _) => {p}
    case OsTake(_) => {POOL}
    case FPush(n, _) => {n}
    case FMark(n) => {n}
    case FUnlock(n) => {n}
    case FReject(n, _) => {n}
    case PTake(p) => {p}
    case PMark(p, _) => {p}
    case PUnlock(p, _) => {p}
    case _ => {}
  }

  ghost predicate LocksOk(s: State) {
    && (forall k {:trigger s.locks[k]} :: k in s.locks ==> s.locks[k] < |s.pcs|)
    && (forall k, t {:trigger k in Holds(s.pcs[t])} :: 0 <= t < |s.pcs| ==>
          (k in Holds(s.pcs[t]) <==> k in s.locks && s.locks[k] == t))
  }

  /** The bin a thread has changed but not yet marked; 0 if none. */
  function Unmarked(pc: Pc): nat {
    match pc
    case EMark(n, _) => n
    case SMark(_, p, _) => p
    case SMarkRem(n, p, _) => if n <= p then p - n else 0
    case FMark(n) => n
    case PMark(p, _) => p
    case _ => 0
  }

  /** What a thread about to correct a hint can rely on: a removal found the hint set,
      an insertion left the bin non-empty, a purge left it empty. */
  predicate Marking(pc: Pc, hint: bool, full: bool) {
    && (pc.EMark? || pc.SMark? ==> hint)
    && (pc.SMarkRem? || pc.FMark? ==> full)
    && (pc.PMark? ==> !full)
  }

  /** Hint `p` says whether bin `p` is non-empty, unless the thread that holds
      the lock of `p` is about to correct it. */
  ghost predicate HintFine(s: State, p: nat) {
    if p in s.locks && s.locks[p] < |s.pcs| && Unmarked(s.pcs[s.locks[p]]) == p && p != 0
    then Marking(s.pcs[s.locks[p]], p in s.hints, Bin(s.bins, p) != [])
    else p in s.hints <==> Bin(s.bins, p) != []
  }

  ghost predicate HintsOk(s: State) {
    && (forall p: nat {:trigger HintFine(s, p)} :: HintFine(s, p))
    && (forall t {:trigger s.pcs[t]} :: 0 <= t < |s.pcs| && s.pcs[t].SStale? ==> Bin(s.bins, s.pcs[t].p) == [])
  }

  ghost predicate Control(s: State) {
    && (forall t :: 0 <= t < |s.pcs| ==> PcOk(s.pcs[t]))
    && LocksOk(s)
    && HintsOk(s)
  }

  // ----- Bytes --------------------------------------------------------------

  /** The pages in bins 1 to `k`. */
  function PagesTo(bins: map<nat, seq<int>>, k: nat): nat {
    if k == 0 then 0 else PagesTo(bins, k - 1) + k * |Bin(bins, k)|
  }

  function Cached(s: State): nat {
    PagesTo(s.bins, MAX_PAGES)
  }

  /** The pages of a list of spans of `p` pages each. */
  function Listed(p: nat, list: seq<int>): nat {
    p * |list|
  }

  /** What the counter shows of a thread beyond what the bins show. */
  function Lead(pc: Pc): int {
    match pc
    case EMark(n, _) => n
    case EUnlock(n, _) => n
    case ESub(n, _) => n
    case SMark(_, p, _) => p
    case SSub(_, p, _) => p
    case SMarkRem(n, p, _) => n - p
    case SUnlockRem(n, p, _) => n - p
    case SAdd(n, p, _) => n - p
    case FLock(n, _) => n
    case FPush(n, _) => n
    case FReject(n, _) => n
    case FSub(n, _) => n
    case PMark(p, list) => Listed(p, list)
    case PUnlock(p, list) => Listed(p, list)
    case PDrop(p, list) => Listed(p, list)
    case PSub(p, list) => p + Listed(p, list)
    case _ => 0
  }

  /** The pages a thread is going to put into a bin without asking again. */
  function Claim(pc: Pc): int {
    match pc
    case SMark(n, p, _) => p - n
    case SSub(n, p, _) => p - n
    case SLockRem(n, p, _) => p - n
    case SPush(n, p, _) => p - n
    case FLock(n, _) => n
    case FPush(n, _) => n
    case _ => 0
  }

  /** The pages a thread will put back on the counter, less those it counted and was refused. */
  function Slack(pc: Pc): int {
    match pc
    case SLockRem(n, p, _) => p - n
    case SPush(n, p, _) => p - n
    case SMarkRem(n, p, _) => p - n
    case SUnlockRem(n, p, _) => p - n
    case SAdd(n, p, _) => p - n
    case FSub(n, _) => 0 - n
    case _ => 0
  }

  function Slacks(pcs: seq<Pc>): int {
    if |pcs| == 0 then 0 else Slacks(pcs[..|pcs| - 1]) + Slack(pcs[|pcs| - 1])
  }

  function Leads(pcs: seq<Pc>): int {
    if |pcs| == 0 then 0 else Leads(pcs[..|pcs| - 1]) + Lead(pcs[|pcs| - 1])
  }

  function Claims(pcs: seq<Pc>): int {
    if |pcs| == 0 then 0 else Claims(pcs[..|pcs| - 1]) + Claim(pcs[|pcs| - 1])
  }

  /** The most pages that may ever be cached. */
  function Bound(s: State): int {
    s.limit + (if |s.pcs| == 0 then 0 else |s.pcs| - 1) * (MAX_PAGES - 1)
  }

  /** The true value of the counter: the cached pages plus what the threads are in the middle of. */
  function Truth(s: State): int {
    Cached(s) + Leads(s.pcs)
  }

  /** The cap and 1024 pages a thread fit in 64 bits. */
  predicate Fits(s: State) {
    s.limit + 1024 * |s.pcs| < WORD
  }

  /** The counter shows its true value, what is cached or claimed stays within the bound,
      and the true value stays below a ceiling that keeps it from wrapping at the top. */
  ghost predicate Bytes(s: State) {
    && Fits(s)
    && s.total == Wrap(Truth(s))
    && Cached(s) + Claims(s.pcs) <= Bound(s)
    && Truth(s) + Slacks(s.pcs) <= s.limit + |s.pcs| * (MAX_PAGES - 1)
  }
}
