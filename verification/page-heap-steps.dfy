/** The page heap: what one step does to the program point, the locks, the bins, the hints and the counter. */
module PageHeapSteps {
  import opened PageHeap
  import opened Ranges
  import opened PageHeapInvariant

  datatype Effect = Keep | Take(k: nat) | Drop(k: nat)

  /** What the next step of a thread does to the locks, if it is not kept waiting. */
  function LockEffect(pc: Pc): Effect {
    match pc
    case ELock(n) => Take(n)
    case SLock(_, p) => Take(p)
    case SLockRem(n, p, _) => if n <= p then Take(p - n) else Keep
    case OsLock(_) => Take(POOL)
    case FLock(n, _) => Take(n)
    case PLock(p) => Take(p)
    case EMiss(n) => Drop(n)
    case EUnlock(n, _) => Drop(n)
    case SStaleUnlock(_, p) => Drop(p)
    case SUnlockRem(n, p, _) => if n <= p then Drop(p - n) else Keep
    case SUnlock(_, p, _) => Drop(p)
    case OsTake(_) => Drop(POOL)
    case FUnlock(n) => Drop(n)
    case FReject(n, _) => Drop(n)
    case PUnlock(p, _) => Drop(p)
    case _ => Keep
  }

  ghost predicate Effected(s: State, s': State, t: nat, e: Effect)
    requires t < |s.pcs| && t < |s'.pcs|
  {
    match e
    case Keep => s'.locks == s.locks && Holds(s'.pcs[t]) == Holds(s.pcs[t])
    case Take(k) =>
      if k in s.locks then s' == s
      else s'.locks == s.locks[k := t] && Holds(s'.pcs[t]) == Holds(s.pcs[t]) + {k}
    case Drop(k) => k in Holds(s.pcs[t]) && s'.locks == s.locks - {k} && Holds(s'.pcs[t]) == Holds(s.pcs[t]) - {k}
  }

  /** The bin whose list or hint the next step may change; 0 if none. */
  function Touches(pc: Pc): nat {
    match pc
    case EPop(n) => n
    case EMark(n, _) => n
    case SPop(_, p) => p
    case SStale(_, p) => p
    case SMark(_, p, _) => p
    case SPush(n, p, _) => if n <= p then p - n else 0
    case SMarkRem(n, p, _) => if n <= p then p - n else 0
    case FPush(n, _) => n
    case FMark(n) => n
    case PTake(p) => p
    case PMark(p, _) => p
    case _ => 0
  }

  /** Program points whose step touches neither a bin nor the counter. */
  predicate Quiet(pc: Pc) {
    match pc
    case EPop(_) => false
    case ESub(_, _) => false
    case SPop(_, _) => false
    case SSub(_, _, _) => false
    case SPush(_, _, _) => false
    case SAdd(_, _, _) => false
    case FAdd(_, _) => false
    case FPush(_, _) => false
    case FSub(_, _) => false
    case PTake(_) => false
    case PDrop(_, _) => false
    case PSub(_, _) => false
    case _ => true
  }

  ghost predicate Facts(s: State, s': State, t: nat)
    requires t < |s.pcs|
  {
    && s'.limit == s.limit && |s'.pcs| == |s.pcs|
    && s'.pcs == s.pcs[t := s'.pcs[t]] && PcOk(s'.pcs[t])
    && Effected(s, s', t, LockEffect(s.pcs[t]))
    && (Quiet(s.pcs[t]) ==> Calm(s, s', t))
    && (Touches(s.pcs[t]) == 0 ==> Untouched(s, s', t))
  }

  ghost predicate Calm(s: State, s': State, t: nat)
    requires t < |s.pcs| && t < |s'.pcs|
  {
    && s'.bins == s.bins && s'.total == s.total
    && Lead(s'.pcs[t]) == Lead(s.pcs[t]) && Claim(s'.pcs[t]) <= Claim(s.pcs[t])
    && Slack(s'.pcs[t]) <= Slack(s.pcs[t])
  }

  ghost predicate Untouched(s: State, s': State, t: nat)
    requires t < |s.pcs| && t < |s'.pcs|
  {
    && s'.bins == s.bins && s'.hints == s.hints
    && Unmarked(s.pcs[t]) == 0 && Unmarked(s'.pcs[t]) == 0 && !s'.pcs[t].SStale?
  }

  lemma ScanFacts(s: State, t: nat, ch: Choice)
    requires t < |s.pcs| && PcOk(s.pcs[t]) && s.pcs[t].Scan?
    ensures Facts(s, Step(s, t, ch), t)
  {
    hide LeastHint;
  }

  predicate Alloc(pc: Pc) {
    pc.Out? || pc.ELock? || pc.EPop? || pc.EMiss? || pc.EMark? || pc.EUnlock? || pc.ESub? || pc.OsLock? || pc.OsTake? || pc.OsMap?
  }

  lemma AllocFacts(s: State, t: nat, ch: Choice)
    requires t < |s.pcs| && PcOk(s.pcs[t]) && Alloc(s.pcs[t])
    ensures Facts(s, Step(s, t, ch), t)
  {
    hide Listed, Retention, Range, Bin;
  }

  predicate Split(pc: Pc) {
    pc.SLock? || pc.SPop? || pc.SStale? || pc.SStaleUnlock? || pc.SMark? || pc.SSub? || pc.SLockRem?
  }

  lemma SplitFacts(s: State, t: nat, ch: Choice)
    requires t < |s.pcs| && PcOk(s.pcs[t]) && Split(s.pcs[t])
    ensures Facts(s, Step(s, t, ch), t)
  {
    hide Listed, Retention, Range, Bin;
  }

  predicate Remainder(pc: Pc) {
    pc.SPush? || pc.SMarkRem? || pc.SUnlockRem? || pc.SAdd? || pc.SUnlock?
  }

  lemma RemainderFacts(s: State, t: nat, ch: Choice)
    requires t < |s.pcs| && PcOk(s.pcs[t]) && Remainder(s.pcs[t])
    ensures Facts(s, Step(s, t, ch), t)
  {
    hide Listed, Retention, Range, Bin;
  }

  predicate Freeing(pc: Pc) {
    Keeping(pc) || pc.FAdd? || pc.FReject? || pc.FSub? || pc.FOs?
  }

  predicate Keeping(pc: Pc) {
    pc.FLock? || pc.FPush? || pc.FMark? || pc.FUnlock?
  }

  lemma KeepFacts(s: State, t: nat, ch: Choice)
    requires t < |s.pcs| && PcOk(s.pcs[t]) && Keeping(s.pcs[t])
    ensures Facts(s, Step(s, t, ch), t)
  {
    hide Listed, Retention, Range, Bin;
  }

  lemma FreeFacts(s: State, t: nat, ch: Choice)
    requires t < |s.pcs| && PcOk(s.pcs[t]) && Freeing(s.pcs[t]) && !Keeping(s.pcs[t])
    ensures Facts(s, Step(s, t, ch), t)
  {
    hide Listed, Retention, Range, Bin;
  }

  predicate Purging(pc: Pc) {
    pc.PLock? || pc.PTake? || pc.PMark? || pc.PUnlock?
  }

  lemma UnlockFacts(s: State, t: nat, ch: Choice)
    requires t < |s.pcs| && PcOk(s.pcs[t]) && (s.pcs[t].PMark? || s.pcs[t].PUnlock?)
    ensures Facts(s, Step(s, t, ch), t)
  {
    hide Listed, Retention, Range, Bin;
  }

  lemma PurgeFacts(s: State, t: nat, ch: Choice)
    requires t < |s.pcs| && PcOk(s.pcs[t]) && (s.pcs[t].PLock? || s.pcs[t].PTake?)
    ensures Facts(s, Step(s, t, ch), t)
  {
    hide Listed, Retention, Range, Bin;
  }

  lemma DropFacts(s: State, t: nat, ch: Choice)
    requires t < |s.pcs| && PcOk(s.pcs[t]) && (s.pcs[t].PDrop? || s.pcs[t].PSub?)
    ensures Facts(s, Step(s, t, ch), t)
  {
    hide Listed, Retention, Range, Bin;
  }

  lemma StepFacts(s: State, t: nat, ch: Choice)
    requires t < |s.pcs| && PcOk(s.pcs[t])
    ensures Facts(s, Step(s, t, ch), t)
  {
    hide PcOk, Facts, Step;
    var pc := s.pcs[t];
    if Alloc(pc) {
      AllocFacts(s, t, ch);
    } else if pc.Scan? {
      ScanFacts(s, t, ch);
    } else if Split(pc) {
      SplitFacts(s, t, ch);
    } else if Remainder(pc) {
      RemainderFacts(s, t, ch);
    } else if Keeping(pc) {
      KeepFacts(s, t, ch);
    } else if Freeing(pc) {
      FreeFacts(s, t, ch);
    } else if pc.PDrop? || pc.PSub? {
      DropFacts(s, t, ch);
    } else if pc.PMark? || pc.PUnlock? {
      UnlockFacts(s, t, ch);
    } else {
      PurgeFacts(s, t, ch);
    }
  }
}
