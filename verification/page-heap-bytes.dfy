/** The page heap: every step keeps the byte counter exact and the bins within the bound. */
module PageHeapBytes {
  import opened PageHeap
  import opened PageHeapInvariant
  import opened PageHeapSteps

  lemma {:induction false} PagesUpdate(bins: map<nat, seq<int>>, p: nat, list: seq<int>, k: nat)
    ensures PagesTo(bins[p := list], k) == PagesTo(bins, k) + if 1 <= p <= k then p * |list| - p * |Bin(bins, p)| else 0
  {
    if k > 0 { PagesUpdate(bins, p, list, k - 1); }
  }

  lemma MulOne(p: nat, n: nat)
    ensures p * (n + 1) == p * n + p
  {
  }

  lemma {:induction false} SumsUpdate(pcs: seq<Pc>, t: nat, pc: Pc)
    requires t < |pcs|
    ensures Leads(pcs[t := pc]) == Leads(pcs) - Lead(pcs[t]) + Lead(pc)
    ensures Claims(pcs[t := pc]) == Claims(pcs) - Claim(pcs[t]) + Claim(pc)
    ensures Slacks(pcs[t := pc]) == Slacks(pcs) - Slack(pcs[t]) + Slack(pc)
  {
    hide Lead, Claim, Slack;
    var n, pcs' := |pcs| - 1, pcs[t := pc];
    if t < n {
      SumsUpdate(pcs[..n], t, pc);
      assert pcs'[..n] == pcs[..n][t := pc];
    } else {
      assert pcs'[..n] == pcs[..n];
    }
  }

  /** A claim exceeds what the counter shows by at most 511 pages a thread. */
  lemma GapOfOne(pc: Pc)
    requires PcOk(pc)
    ensures Claim(pc) - Lead(pc) <= MAX_PAGES - 1 && 0 <= Claim(pc)
    ensures 0 - MAX_PAGES <= Slack(pc) <= MAX_PAGES - 1 && 1 - MAX_PAGES <= Lead(pc)
  {
    hide Listed;
  }

  lemma {:induction false} GapOfAll(pcs: seq<Pc>)
    requires forall t :: 0 <= t < |pcs| ==> PcOk(pcs[t])
    ensures Claims(pcs) - Leads(pcs) <= |pcs| * (MAX_PAGES - 1) && 0 <= Claims(pcs)
    ensures 0 - MAX_PAGES * |pcs| <= Slacks(pcs) <= |pcs| * (MAX_PAGES - 1)
    ensures 0 - |pcs| * (MAX_PAGES - 1) <= Leads(pcs)
  {
    hide Lead, Claim, Slack, PcOk;
    if |pcs| > 0 {
      var n := |pcs| - 1;
      assert forall t :: 0 <= t < n ==> pcs[..n][t] == pcs[t];
      GapOfAll(pcs[..n]);
      GapOfOne(pcs[n]);
    }
  }

  /** All threads but one, which claims nothing the counter does not show. */
  lemma GapOfOthers(pcs: seq<Pc>, t: nat)
    requires t < |pcs| && (forall i :: 0 <= i < |pcs| ==> PcOk(pcs[i]))
    requires Claim(pcs[t]) == Lead(pcs[t]) && Slack(pcs[t]) == 0
    ensures Claims(pcs) - Leads(pcs) <= (|pcs| - 1) * (MAX_PAGES - 1)
    ensures 0 - (|pcs| - 1) * MAX_PAGES <= Slacks(pcs)
  {
    hide Lead, Claim, Slack, PcOk;
    var rest := pcs[..t] + pcs[t + 1..];
    Removed(pcs, t);
    assert forall i :: 0 <= i < |rest| ==> rest[i] == pcs[if i < t then i else i + 1];
    GapOfAll(rest);
  }

  lemma {:induction false} Removed(pcs: seq<Pc>, t: nat)
    requires t < |pcs|
    ensures var rest := pcs[..t] + pcs[t + 1..];
            && Leads(rest) == Leads(pcs) - Lead(pcs[t])
            && Claims(rest) == Claims(pcs) - Claim(pcs[t])
            && Slacks(rest) == Slacks(pcs) - Slack(pcs[t])
  {
    hide Lead, Claim, Slack;
    var n, rest := |pcs| - 1, pcs[..t] + pcs[t + 1..];
    if t < n {
      Removed(pcs[..n], t);
      assert rest[..n - 1] == pcs[..n][..t] + pcs[..n][t + 1..];
      assert rest[n - 1] == pcs[n];
    } else {
      assert rest == pcs[..n];
    }
  }

  lemma WrapAdd(x: int, n: int)
    ensures Wrap(Wrap(x) + n) == Wrap(x + n)
  {
  }

  /** A step of one thread balances: the counter moves by `d`, as the bins and the thread's
      own account do, and neither bins plus claims nor the counter plus slack grow. */
  lemma BytesMove(s: State, s': State, t: nat, d: int)
    requires Bytes(s) && t < |s.pcs| && |s'.pcs| == |s.pcs| && s'.pcs == s.pcs[t := s'.pcs[t]] && s'.limit == s.limit
    requires s'.total == if d == 0 then s.total else Wrap(s.total + d)
    requires d == Cached(s') - Cached(s) + Lead(s'.pcs[t]) - Lead(s.pcs[t])
    requires Cached(s') + Claim(s'.pcs[t]) <= Cached(s) + Claim(s.pcs[t])
    requires d + Slack(s'.pcs[t]) <= Slack(s.pcs[t])
    ensures Bytes(s')
  {
    hide Lead, Claim, Slack, Cached, Wrap;
    SumsUpdate(s.pcs, t, s'.pcs[t]);
    WrapAdd(Truth(s), d);
  }

  lemma PopBytes(s: State, t: nat, ch: Choice)
    requires t < |s.pcs| && PcOk(s.pcs[t]) && (s.pcs[t].EPop? || s.pcs[t].SPop?)
    requires Bytes(s)
    ensures Bytes(Step(s, t, ch))
  {
    hide Bytes, Wrap;
    var s' := Step(s, t, ch);
    var p := if s.pcs[t].EPop? then s.pcs[t].n else s.pcs[t].p;
    var list := Bin(s.bins, p);
    if list != [] {
      PagesUpdate(s.bins, p, list[1..], MAX_PAGES);
      MulOne(p, |list| - 1);
    }
    hide PagesTo;
    BytesMove(s, s', t, 0);
  }

  lemma RemainderBytes(s: State, t: nat, ch: Choice)
    requires t < |s.pcs| && PcOk(s.pcs[t]) && s.pcs[t].SPush?
    requires Bytes(s)
    ensures Bytes(Step(s, t, ch))
  {
    hide Bytes, Wrap;
    var pc, s' := s.pcs[t], Step(s, t, ch);
    var p := pc.p - pc.n;
    PagesUpdate(s.bins, p, [pc.b + pc.n] + Bin(s.bins, p), MAX_PAGES);
    MulOne(p, |Bin(s.bins, p)|);
    hide PagesTo;
    BytesMove(s, s', t, 0);
  }

  lemma PushBytes(s: State, t: nat, ch: Choice)
    requires t < |s.pcs| && PcOk(s.pcs[t]) && s.pcs[t].FPush?
    requires Bytes(s)
    ensures Bytes(Step(s, t, ch))
  {
    hide Bytes, Retention, Wrap;
    var pc, s' := s.pcs[t], Step(s, t, ch);
    PagesUpdate(s.bins, pc.n, [pc.b] + Bin(s.bins, pc.n), MAX_PAGES);
    MulOne(pc.n, |Bin(s.bins, pc.n)|);
    hide PagesTo;
    BytesMove(s, s', t, 0);
  }

  lemma TakeBytes(s: State, t: nat, ch: Choice)
    requires t < |s.pcs| && PcOk(s.pcs[t]) && s.pcs[t].PTake?
    requires Bytes(s)
    ensures Bytes(Step(s, t, ch))
  {
    hide Bytes, Wrap;
    PagesUpdate(s.bins, s.pcs[t].p, [], MAX_PAGES);
    hide PagesTo;
    BytesMove(s, Step(s, t, ch), t, 0);
  }

  lemma DropBytes(s: State, t: nat, ch: Choice)
    requires t < |s.pcs| && PcOk(s.pcs[t]) && s.pcs[t].PDrop?
    requires Bytes(s)
    ensures Bytes(Step(s, t, ch))
  {
    hide Bytes, PagesTo, Wrap;
    var pc := s.pcs[t];
    if pc.list != [] {
      MulOne(pc.p, |pc.list| - 1);
    }
    BytesMove(s, Step(s, t, ch), t, 0);
  }

  lemma CounterBytes(s: State, t: nat, ch: Choice)
    requires t < |s.pcs| && PcOk(s.pcs[t])
    requires s.pcs[t].ESub? || s.pcs[t].SSub? || s.pcs[t].SAdd? || s.pcs[t].FSub? || s.pcs[t].PSub?
    requires Bytes(s)
    ensures Bytes(Step(s, t, ch))
  {
    hide Bytes, PagesTo, Wrap;
    var pc := s.pcs[t];
    var d := match pc
      case ESub(n, _) => 0 - n
      case SSub(_, p, _) => 0 - p
      case SAdd(n, p, _) => p - n
      case FSub(n, _) => 0 - n
      case PSub(p, _) => 0 - p;
    BytesMove(s, Step(s, t, ch), t, d);
  }

  /** Within these bounds an accepted reading of the counter is its true value. */
  lemma Reading(x: int, limit: nat, n: nat)
    requires 0 - n * 1024 <= x <= limit + n * 1024 && limit + 1024 * n < WORD
    ensures Wrap(x) <= limit ==> 0 <= x <= limit
  {
    if x < 0 { assert Wrap(x) == x + WORD; }
  }

  /** The one step that asks for room: the counter it reads may miss what other
      threads have put back but not counted yet. */
  lemma AcceptBytes(s: State, s': State, t: nat)
    requires t < |s.pcs| && (forall i :: 0 <= i < |s.pcs| ==> PcOk(s.pcs[i])) && s.pcs[t].FAdd?
    requires Bytes(s) && Wrap(s.total + s.pcs[t].n) <= s.limit
    requires s' == Go(s.(total := Wrap(s.total + s.pcs[t].n)), t, FLock(s.pcs[t].n, s.pcs[t].b))
    ensures Bytes(s')
  {
    hide Wrap, PagesTo, Leads, Claims, Slacks, PcOk;
    var n := s.pcs[t].n;
    WrapAdd(Truth(s), n);
    SumsUpdate(s.pcs, t, s'.pcs[t]);
    GapOfAll(s.pcs);
    GapOfOthers(s.pcs, t);
    AddSmall(s.pcs[t]);
    Reading(Truth(s) + n, s.limit, |s.pcs|);
  }

  lemma AddSmall(pc: Pc)
    requires pc.FAdd? && PcOk(pc)
    ensures Small(pc.n)
  {
  }

  lemma AddBytes(s: State, t: nat, ch: Choice)
    requires t < |s.pcs| && (forall i :: 0 <= i < |s.pcs| ==> PcOk(s.pcs[i])) && s.pcs[t].FAdd?
    requires Bytes(s)
    ensures Bytes(Step(s, t, ch))
  {
    hide Wrap, PagesTo, Bytes, PcOk;
    var s', n := Step(s, t, ch), s.pcs[t].n;
    AddSmall(s.pcs[t]);
    if s'.pcs[t].FSub? {
      BytesMove(s, s', t, n);
    } else {
      AcceptBytes(s, s', t);
    }
  }

  lemma StepBytes(s: State, t: nat, ch: Choice)
    requires t < |s.pcs| && (forall i :: 0 <= i < |s.pcs| ==> PcOk(s.pcs[i]))
    requires Bytes(s)
    ensures Bytes(Step(s, t, ch))
  {
    hide Bytes, Step, PcOk, Cached;
    match s.pcs[t]
    case EPop(_) => PopBytes(s, t, ch);
    case SPop(_, _) => PopBytes(s, t, ch);
    case SPush(_, _, _) => RemainderBytes(s, t, ch);
    case FPush(_, _) => PushBytes(s, t, ch);
    case PTake(_) => TakeBytes(s, t, ch);
    case PDrop(_, _) => DropBytes(s, t, ch);
    case PSub(_, _) => CounterBytes(s, t, ch);
    case ESub(_, _) => CounterBytes(s, t, ch);
    case SSub(_, _, _) => CounterBytes(s, t, ch);
    case SAdd(_, _, _) => CounterBytes(s, t, ch);
    case FSub(_, _) => CounterBytes(s, t, ch);
    case FAdd(_, _) => AddBytes(s, t, ch);
    case _ =>
      QuietBytes(s, t, ch);
  }

  lemma QuietBytes(s: State, t: nat, ch: Choice)
    requires t < |s.pcs| && PcOk(s.pcs[t]) && Quiet(s.pcs[t]) && Bytes(s)
    ensures Bytes(Step(s, t, ch))
  {
    hide Bytes, Step, PcOk, PagesTo, Lead, Claim;
    StepFacts(s, t, ch);
    BytesMove(s, Step(s, t, ch), t, 0);
  }
}
