/** The page heap: runs of two threads in which the cap is passed, and in which a free is refused though nothing is cached. */
module PageHeapOvershoot {
  import opened PageHeap
  import opened Ranges
  import opened PageHeapInvariant
  import opened PageHeapBytes
  import opened PageHeapTiles
  import opened PageHeapTheorems

  const GO: Choice := Choice(0, false)

  lemma Do(s0: State, s1: State, s2: State, t: nat, ch: Choice)
    requires Reaches(s0, s1) && Enabled(s1, Run(t, ch)) && Step(s1, t, ch) == s2
    ensures Reaches(s0, s2)
  {
    hide Reaches, Step;
    One(s0, s1, Run(t, ch));
  }

  /** An allocation finds its bin empty. */
  lemma MissRun(s: State, t: nat, n: nat)
    requires t < |s.pcs| && s.pcs[t] == Out && Small(n) && n !in s.locks && Bin(s.bins, n) == []
    ensures Reaches(s, Go(s, t, ScanFrom(n, n)))
  {
    hide Reaches, Bin;
    Stay(s);
    var s1, s2 := Go(s, t, ELock(n)), Go(s.(locks := s.locks[n := t]), t, EPop(n));
    var s3, s4 := Go(s2, t, EMiss(n)), Go(s, t, ScanFrom(n, n));
    One(s, s, Allocate(t, n));
    Do(s, s1, s2, t, GO);
    Do(s, s2, s3, t, GO);
    assert s.locks[n := t] - {n} == s.locks;
    Do(s, s3, s4, t, GO);
  }

  /** No bin above `n` is hinted: the search reads all words and goes to the operating system. */
  lemma {:induction false} ScanRun(s: State, t: nat, n: nat, w: nat)
    requires t < |s.pcs| && w <= HINT_WORDS && forall p: nat {:trigger p in s.hints} :: p in s.hints ==> p <= n
    ensures Reaches(Go(s, t, Scan(n, n, w)), Go(s, t, OsLock(n)))
    decreases HINT_WORDS - w
  {
    hide Reaches;
    var s0 := Go(s, t, Scan(n, n, w));
    Stay(s0);
    if w == HINT_WORDS {
      Do(s0, s0, Go(s, t, OsLock(n)), t, GO);
    } else {
      var s1 := Go(s, t, Scan(n, n, w + 1));
      Do(s0, s0, s1, t, GO);
      ScanRun(s, t, n, w + 1);
      Then(s0, s1, Go(s, t, OsLock(n)));
    }
  }

  /** Bin `p` is the lowest hinted one above `n`: the search finds it. */
  lemma {:induction false} FindRun(s: State, t: nat, n: nat, w: nat, p: nat)
    requires t < |s.pcs| && n < p <= MAX_PAGES && p in s.hints && w * HINT_BITS <= p
    requires forall q: nat {:trigger q in s.hints} :: q in s.hints ==> q <= n || p <= q
    ensures Reaches(Go(s, t, Scan(n, n, w)), Go(s, t, SLock(n, p)))
    decreases HINT_WORDS - w
  {
    hide Reaches;
    var s0 := Go(s, t, Scan(n, n, w));
    Stay(s0);
    if p < (w + 1) * HINT_BITS {
      Do(s0, s0, Go(s, t, SLock(n, p)), t, GO);
    } else {
      var s1 := Go(s, t, Scan(n, n, w + 1));
      Do(s0, s0, s1, t, GO);
      FindRun(s, t, n, w + 1, p);
      Then(s0, s1, Go(s, t, SLock(n, p)));
    }
  }

  /** The span pool hands out `b`. */
  lemma PoolRun(s: State, t: nat, n: nat, b: int)
    requires t < |s.pcs| && s.pcs[t] == Out && POOL !in s.locks && Range(b, n) !! s.held
    ensures Reaches(Go(s, t, OsLock(n)), Mapped(s, n, b))
  {
    hide Reaches, Range;
    var s1, s2 := Go(s, t, OsLock(n)), Go(s.(locks := s.locks[POOL := t]), t, OsTake(n));
    Stay(s1);
    Do(s1, s1, s2, t, GO);
    assert s.locks[POOL := t] - {POOL} == s.locks;
    assert s2.pcs[t := Out] == s.pcs;
    Do(s1, s2, Mapped(s, n, b), t, Choice(b, true));
  }

  function Mapped(s: State, n: nat, b: int): State {
    s.(client := s.client + {Span(b, n)}, held := s.held + Range(b, n))
  }

  /** An allocation that finds nothing cached of its size or above. */
  lemma MapRun(s: State, t: nat, n: nat, b: int)
    requires t < |s.pcs| && s.pcs[t] == Out && Small(n) && n !in s.locks && POOL !in s.locks && Bin(s.bins, n) == []
    requires forall p: nat {:trigger p in s.hints} :: p in s.hints ==> p <= n
    requires Range(b, n) !! s.held
    ensures Reaches(s, Mapped(s, n, b))
  {
    hide Reaches, Range, Bin;
    MissRun(s, t, n);
    ScanRun(s, t, n, (n + 1) / HINT_BITS);
    Then(s, Go(s, t, ScanFrom(n, n)), Go(s, t, OsLock(n)));
    PoolRun(s, t, n, b);
    Then(s, Go(s, t, OsLock(n)), Mapped(s, n, b));
  }

  /** A free that fits under the cap puts the span in its bin. */
  lemma FreeRun(s: State, t: nat, n: nat, b: int)
    requires t < |s.pcs| && s.pcs[t] == Out && Small(n) && n !in s.locks && Span(b, n) in s.client
    requires s.total + n <= s.limit < WORD && |Bin(s.bins, n)| < Retention(n)
    ensures Reaches(s, Freed(s, n, b))
  {
    hide Reaches, Bin, Retention;
    Stay(s);
    var s1 := Go(s.(client := s.client - {Span(b, n)}), t, FAdd(n, b));
    var s2 := Go(s1.(total := s.total + n), t, FLock(n, b));
    var s3 := Go(s2.(locks := s.locks[n := t]), t, FPush(n, b));
    One(s, s, Free(t, Span(b, n)));
    Do(s, s1, s2, t, GO);
    Do(s, s2, s3, t, GO);
    KeepRun(s, s3, t, n, b);
    Then(s, s3, Freed(s, n, b));
  }

  lemma KeepRun(s: State, s3: State, t: nat, n: nat, b: int)
    requires t < |s.pcs| && s.pcs[t] == Out && Small(n) && n !in s.locks && |Bin(s.bins, n)| < Retention(n)
    requires s3 == s.(client := s.client - {Span(b, n)}, total := s.total + n, locks := s.locks[n := t],
                      pcs := s.pcs[t := FPush(n, b)])
    ensures Reaches(s3, Freed(s, n, b))
  {
    hide Reaches, Bin, Retention;
    var s4 := Go(SetBin(s3, n, [b] + Bin(s.bins, n)), t, FMark(n));
    var s5 := Go(s4.(hints := s.hints + {n}), t, FUnlock(n));
    Stay(s3);
    Do(s3, s3, s4, t, GO);
    Do(s3, s4, s5, t, GO);
    FreeEnds(s, s5, t, n, b);
    Then(s3, s5, Freed(s, n, b));
  }

  lemma FreeEnds(s: State, s5: State, t: nat, n: nat, b: int)
    requires t < |s.pcs| && s.pcs[t] == Out && n !in s.locks
    requires s5 == Freed(s, n, b).(locks := s.locks[n := t], pcs := s.pcs[t := FUnlock(n)])
    ensures Reaches(s5, Freed(s, n, b))
  {
    hide Reaches, Bin;
    Stay(s5);
    assert s.locks[n := t] - {n} == s.locks;
    assert s5.pcs[t := Out] == s.pcs;
    Do(s5, s5, Freed(s, n, b), t, GO);
  }

  function Freed(s: State, n: nat, b: int): State {
    s.(client := s.client - {Span(b, n)}, total := s.total + n,
       bins := s.bins[n := [b] + Bin(s.bins, n)], hints := s.hints + {n})
  }

  /** A split of the only span of bin `p`, up to the point where the tail is in its bin and not yet counted. */
  lemma SplitRun(s: State, t: nat, n: nat, p: nat, b: int)
    requires t < |s.pcs| && s.pcs[t] == Out && 1 <= n < p <= MAX_PAGES && s.locks == map[]
    requires Bin(s.bins, n) == [] && Bin(s.bins, p) == [b] && p <= s.total < WORD
    requires p in s.hints && forall q: nat {:trigger q in s.hints} :: q in s.hints ==> q <= n || p <= q
    ensures Reaches(s, HalfSplit(s, t, n, p, b))
  {
    hide Reaches, HalfSplit, Bin;
    MissRun(s, t, n);
    var s0 := Go(s, t, ScanFrom(n, n));
    var s1 := Go(s, t, SLock(n, p));
    FindRun(s, t, n, (n + 1) / HINT_BITS, p);
    Then(s, s0, s1);
    var s2 := Go(s.(locks := map[p := t]), t, SPop(n, p));
    var s3 := Go(SetBin(s2, p, []), t, SMark(n, p, b));
    assert s.locks[p := t] == map[p := t];
    Do(s, s1, s2, t, GO);
    assert [b][1..] == [];
    Do(s, s2, s3, t, GO);
    HeadRun(s, s3, t, n, p, b);
    Then(s, s3, HalfSplit(s, t, n, p, b));
  }

  lemma HeadRun(s: State, s3: State, t: nat, n: nat, p: nat, b: int)
    requires t < |s.pcs| && 1 <= n < p <= MAX_PAGES && p <= s.total < WORD
    requires s3 == s.(pcs := s.pcs[t := SMark(n, p, b)], locks := map[p := t], bins := s.bins[p := []])
    ensures Reaches(s3, HalfSplit(s, t, n, p, b))
  {
    hide Reaches, HalfSplit;
    var s4 := Go(s3.(hints := s.hints - {p}), t, SSub(n, p, b));
    var s5 := Go(s4.(total := s.total - p), t, SLockRem(n, p, b));
    var s6 := Go(s5.(locks := map[p := t, p - n := t]), t, SPush(n, p, b));
    Stay(s3);
    Do(s3, s3, s4, t, GO);
    Do(s3, s4, s5, t, GO);
    assert s5.locks[p - n := t] == s6.locks;
    Do(s3, s5, s6, t, GO);
    TailRun(s, s6, t, n, p, b);
    Then(s3, s6, HalfSplit(s, t, n, p, b));
  }

  lemma TailRun(s: State, s6: State, t: nat, n: nat, p: nat, b: int)
    requires t < |s.pcs| && 1 <= n < p <= MAX_PAGES && p <= s.total < WORD
    requires s6 == s.(pcs := s.pcs[t := SPush(n, p, b)], locks := map[p := t, p - n := t], total := s.total - p,
                      bins := s.bins[p := []], hints := s.hints - {p})
    ensures Reaches(s6, HalfSplit(s, t, n, p, b))
  {
    hide Reaches, Retention;
    Stay(s6);
    var s7 := Go(SetBin(s6, p - n, [b + n] + Bin(s.bins, p - n)), t, SMarkRem(n, p, b));
    var s8 := Go(s7.(hints := s.hints - {p} + {p - n}), t, SUnlockRem(n, p, b));
    Do(s6, s6, s7, t, GO);
    Do(s6, s7, s8, t, GO);
    UnlockRun(s6, s8, HalfSplit(s, t, n, p, b), t, n, p, b);
  }

  lemma UnlockRun(s6: State, s8: State, s9: State, t: nat, n: nat, p: nat, b: int)
    requires Reaches(s6, s8) && t < |s8.pcs| && s8.pcs[t] == SUnlockRem(n, p, b) && 1 <= n < p && s8.locks == map[p := t, p - n := t]
    requires s9 == s8.(pcs := s8.pcs[t := SAdd(n, p, b)], locks := map[p := t])
    ensures Reaches(s6, s9)
  {
    hide Reaches;
    assert s8.locks - {p - n} == map[p := t];
    Do(s6, s8, s9, t, GO);
  }

  function HalfSplit(s: State, t: nat, n: nat, p: nat, b: int): State
    requires t < |s.pcs| && n <= p <= s.total
  {
    s.(pcs := s.pcs[t := SAdd(n, p, b)], locks := map[p := t], total := s.total - p,
       bins := s.bins[p := []][p - n := [b + n] + Bin(s.bins, p - n)], hints := s.hints - {p} + {p - n})
  }

  // ----- The cap can be passed --------------------------------------------------------

  /** Three spans with a caller, as far apart as `b` pages. */
  lemma ThreeSpans(limit: nat, threads: nat, n: nat)
    requires threads >= 2 && 2 <= n <= MAX_PAGES
    ensures Reaches(Start(limit, threads), Ready(limit, threads, n))
  {
    hide Reaches;
    var s0 := Start(limit, threads);
    MapRun(s0, 0, n, 0);
    var s1 := s0.(client := {Span(0, n)}, held := Range(0, n));
    assert s0.held + Range(0, n) == s1.held && s0.client + {Span(0, n)} == s1.client;
    Apart(0, n, 1000, 1);
    MapRun(s1, 0, 1, 1000);
    var s2 := s1.(client := s1.client + {Span(1000, 1)}, held := s1.held + Range(1000, 1));
    Then(s0, s1, s2);
    Apart(0, n, 2000, 1);
    Apart(1000, 1, 2000, 1);
    MapRun(s2, 0, 1, 2000);
    Then(s0, s2, Ready(limit, threads, n));
  }

  lemma Apart(b: int, n: nat, b': int, n': nat)
    requires b + n <= b'
    ensures Range(b, n) !! Range(b', n')
  {
  }

  function Ready(limit: nat, threads: nat, n: nat): State {
    Start(limit, threads).(client := {Span(0, n)} + {Span(1000, 1)} + {Span(2000, 1)},
                           held := Range(0, n) + Range(1000, 1) + Range(2000, 1))
  }

  /** One thread is in the middle of splitting a span of `n` pages; the counter shows none of its tail. */
  function InTheMiddle(limit: nat, threads: nat, n: nat): State
    requires threads >= 2 && n >= 1
  {
    HalfSplit(Freed(Ready(limit, threads, n), n, 0), 1, 1, n, 0)
  }

  lemma MiddleRun(limit: nat, threads: nat, n: nat)
    requires threads >= 2 && 2 <= n <= MAX_PAGES && n <= limit < WORD
    ensures Reaches(Start(limit, threads), InTheMiddle(limit, threads, n))
  {
    hide Reaches, Range;
    var s0, s1 := Start(limit, threads), Ready(limit, threads, n);
    ThreeSpans(limit, threads, n);
    FreeRun(s1, 0, n, 0);
    var s2 := Freed(s1, n, 0);
    Then(s0, s1, s2);
    SplitRun(s2, 1, 1, n, 0);
    Then(s0, s2, InTheMiddle(limit, threads, n));
  }

  lemma Witness(s0: State, s5: State, limit: nat)
    requires Reaches(s0, s5) && Cached(s5) > limit
    ensures exists acts :: IsRun(s0, acts) && Cached(After(s0, acts)) > limit
  {
    hide Cached;
  }

  /** In a reachable state in which one thread is about to count the tail of a split and no other
      call is under way, the bins hold that tail on top of what the counter shows. */
  lemma TailUncounted(limit: nat, threads: nat, s: State, n: nat, p: nat, b: int)
    requires Fits(Start(limit, threads)) && Reaches(Start(limit, threads), s)
    requires threads >= 2 && s.pcs == seq(threads, _ => Out)[1 := SAdd(n, p, b)] && n <= p && s.total + p < WORD
    ensures Cached(s) == s.total + p - n
  {
    hide PagesTo, Apply, Enabled, Control, Tiled;
    var acts :| IsRun(Start(limit, threads), acts) && After(Start(limit, threads), acts) == s;
    StartGood(limit, threads);
    RunGood(Start(limit, threads), acts);
    StartSums(threads);
    SumsUpdate(seq(threads, _ => Out), 1, SAdd(n, p, b));
    assert Truth(s) == Cached(s) - (p - n);
    PcsOk(s);
    Unwrapped(s);
  }

  lemma PcsOk(s: State)
    requires Control(s)
    ensures forall t :: 0 <= t < |s.pcs| ==> PcOk(s.pcs[t])
  {
  }

  /** A true count that has not dropped below zero is what the counter shows. */
  lemma Unwrapped(s: State)
    requires Bytes(s) && (forall t :: 0 <= t < |s.pcs| ==> PcOk(s.pcs[t]))
    ensures Truth(s) >= 0 ==> s.total == Truth(s)
    ensures Truth(s) < 0 ==> s.total == Truth(s) + WORD
  {
    hide PagesTo, Leads, Claims, Slacks, PcOk;
    GapOfAll(s.pcs);
    WrapSmall(Truth(s));
    WrapNegative(Truth(s));
  }

  lemma WrapNegative(x: int)
    ensures 0 - WORD < x < 0 ==> Wrap(x) == x + WORD
  {
  }

  /** A cap of at most 512 pages: one span fills the cache. */
  lemma SmallCapPassed(limit: nat, threads: nat)
    requires threads >= 2 && 2 <= limit <= MAX_PAGES && Fits(Start(limit, threads))
    ensures exists acts :: IsRun(Start(limit, threads), acts) && Cached(After(Start(limit, threads), acts)) > limit
  {
    hide Reaches, Range, PagesTo;
    var s0, s3 := Start(limit, threads), InTheMiddle(limit, threads, limit);
    MiddleRun(limit, threads, limit);
    FreeRun(s3, 0, 1, 1000);
    var s4 := Freed(s3, 1, 1000);
    Then(s0, s3, s4);
    FreeRun(s4, 0, 1, 2000);
    var s5 := Freed(s4, 1, 2000);
    Then(s0, s4, s5);
    TailUncounted(limit, threads, s5, 1, limit, 0);
    Witness(s0, s5, limit);
  }

  // ----- Larger caps: splits fill the cache, one page at a time ------------------------

  lemma FreeBins(s: State, n: nat, b: int)
    ensures forall m: nat {:trigger Bin(Freed(s, n, b).bins, m)} ::
              Bin(Freed(s, n, b).bins, m) == if m == n then [b] + Bin(s.bins, n) else Bin(s.bins, m)
  {
  }

  lemma SplitBins(s: State, t: nat, n: nat, p: nat, b: int)
    requires t < |s.pcs| && 1 <= n < p <= s.total
    ensures forall m: nat {:trigger Bin(HalfSplit(s, t, n, p, b).bins, m)} :: Bin(HalfSplit(s, t, n, p, b).bins, m) ==
              if m == p then [] else if m == p - n then [b + n] + Bin(s.bins, m) else Bin(s.bins, m)
    ensures Split(s, n, p, b).bins == HalfSplit(s, t, n, p, b).bins
  {
  }

  lemma Retains(n: nat)
    requires n > 0
    ensures Retention(n) >= 2
  {
  }

  /** A split carried to its end: the head is the caller's, the tail is in its bin and counted. */
  function Split(s: State, n: nat, p: nat, b: int): State
    requires n <= p && n <= s.total
  {
    s.(client := s.client + {Span(b, n)}, total := s.total - n,
       bins := s.bins[p := []][p - n := [b + n] + Bin(s.bins, p - n)], hints := s.hints - {p} + {p - n})
  }

  lemma SplitEnds(s: State, t: nat, n: nat, p: nat, b: int)
    requires t < |s.pcs| && s.pcs[t] == Out && 1 <= n < p <= s.total < WORD && s.locks == map[]
    ensures Reaches(HalfSplit(s, t, n, p, b), Split(s, n, p, b))
  {
    hide Reaches, Bin;
    var s0 := HalfSplit(s, t, n, p, b);
    var s1 := Go(s0.(total := s.total - n), t, SUnlock(n, p, b));
    Stay(s0);
    Do(s0, s0, s1, t, GO);
    assert map[p := t] - {p} == s.locks;
    assert s1.pcs[t := Out] == s.pcs;
    Do(s0, s1, Split(s, n, p, b), t, GO);
  }

  /** Every call is over, `k` pages are cached and counted, all of them single pages, and two spans are with callers. */
  ghost predicate Stage(s: State, limit: nat, threads: nat, k: nat, top: int) {
    && s.limit == limit && s.total == k && s.locks == map[] && s.pcs == seq(threads, _ => Out)
    && (forall p: nat {:trigger p in s.hints} :: p in s.hints ==> p == 1)
    && (forall p: nat {:trigger Bin(s.bins, p)} :: p != 1 ==> Bin(s.bins, p) == [])
    && Span(1000, 255) in s.client && Span(2000, 257) in s.client
    && (forall i {:trigger i in s.held} :: i in s.held ==> i < top) && 3000 <= top
  }

  lemma FirstStage(limit: nat, threads: nat) returns (s: State)
    requires threads >= 2
    ensures Reaches(Start(limit, threads), s) && Stage(s, limit, threads, 0, 3000)
  {
    hide Reaches;
    var s0 := Start(limit, threads);
    MapRun(s0, 0, 255, 1000);
    var s1 := Mapped(s0, 255, 1000);
    Apart(1000, 255, 2000, 257);
    MapRun(s1, 0, 257, 2000);
    s := Mapped(s1, 257, 2000);
    Then(s0, s1, s);
  }

  /** A span of 512 pages is mapped and freed. */
  lemma StageFree(s: State, limit: nat, threads: nat, k: nat, top: int) returns (s': State)
    requires threads >= 2 && Stage(s, limit, threads, k, top) && k + 512 <= limit < WORD
    ensures Reaches(s, s') && s' == Freed(Mapped(s, 512, top), 512, top)
    ensures s'.total == k + 512 && Bin(s'.bins, 512) == [top] && Bin(s'.bins, 511) == [] && 512 in s'.hints
    ensures forall q: nat {:trigger q in s'.hints} :: q in s'.hints ==> q <= 511 || 512 <= q
  {
    hide Reaches;
    assert Range(top, 512) !! s.held;
    MapRun(s, 0, 512, top);
    var s1 := Mapped(s, 512, top);
    FreeRun(s1, 0, 512, top);
    s' := Freed(s1, 512, top);
    FreeBins(s1, 512, top);
    assert [top] + [] == [top];
    Then(s, s1, s');
  }

  /** Then 511 of its pages are allocated: the split leaves one page more in bin 1, which no retention limits. */
  lemma NextStage(s: State, limit: nat, threads: nat, k: nat, top: int) returns (s': State)
    requires threads >= 2 && Stage(s, limit, threads, k, top) && k + 512 <= limit < WORD
    ensures Reaches(s, s') && Stage(s', limit, threads, k + 1, top + 512)
  {
    hide Reaches;
    var s2 := StageFree(s, limit, threads, k, top);
    SplitRun(s2, 0, 511, 512, top);
    SplitEnds(s2, 0, 511, 512, top);
    var s3 := HalfSplit(s2, 0, 511, 512, top);
    Then(s, s2, s3);
    s' := Split(s2, 511, 512, top);
    Then(s, s3, s');
    SplitBins(s2, 0, 511, 512, top);
    FreeBins(Mapped(s, 512, top), 512, top);
    hide Bin, HalfSplit;
    assert s'.bins == s3.bins;
  }

  lemma {:induction false} StageRun(limit: nat, threads: nat, k: nat) returns (s: State, top: int)
    requires threads >= 2 && k + 512 <= limit < WORD
    ensures Reaches(Start(limit, threads), s) && Stage(s, limit, threads, k, top)
  {
    if k == 0 {
      s := FirstStage(limit, threads);
      top := 3000;
    } else {
      hide Reaches, Stage;
      var s0, top0 := StageRun(limit, threads, k - 1);
      s := NextStage(s0, limit, threads, k - 1, top0);
      top := top0 + 512;
      Then(Start(limit, threads), s0, s);
    }
  }

  /** A larger cap: a full cache, a split of its one large span, and two frees that take the place of it. */
  lemma LargeCapPassed(limit: nat, threads: nat)
    requires threads >= 2 && 512 <= limit && Fits(Start(limit, threads))
    ensures exists acts :: IsRun(Start(limit, threads), acts) && Cached(After(Start(limit, threads), acts)) > limit
  {
    hide Reaches, PagesTo;
    var s0 := Start(limit, threads);
    var s1, top := StageRun(limit, threads, limit - 512);
    var s := StageFree(s1, limit, threads, limit - 512, top);
    Then(s0, s1, s);
    hide Start;
    SplitRun(s, 1, 511, 512, top);
    var s3 := HalfSplit(s, 1, 511, 512, top);
    Then(s0, s, s3);
    SplitBins(s, 1, 511, 512, top);
    FreeBins(Mapped(s1, 512, top), 512, top);
    Retains(255);
    Retains(257);
    hide Bin, Retention;
    FreeRun(s3, 0, 255, 1000);
    var s4 := Freed(s3, 255, 1000);
    Then(s0, s3, s4);
    FreeBins(s3, 255, 1000);
    FreeRun(s4, 0, 257, 2000);
    var s5 := Freed(s4, 257, 2000);
    Then(s0, s4, s5);
    TailUncounted(limit, threads, s5, 511, 512, top);
    Witness(s0, s5, limit);
  }

  /** For every cap of at least two pages: no run passes the cap exactly when at most one thread runs. */
  lemma CapHoldsIff(limit: nat, threads: nat)
    requires 2 <= limit && Fits(Start(limit, threads))
    ensures (forall acts :: IsRun(Start(limit, threads), acts) ==> Cached(After(Start(limit, threads), acts)) <= limit)
            <==> threads <= 1
  {
    hide PagesTo;
    if threads <= 1 {
      forall acts | IsRun(Start(limit, threads), acts) ensures Cached(After(Start(limit, threads), acts)) <= limit {
        CapWithinBound(limit, threads, acts);
      }
    } else if limit <= MAX_PAGES {
      SmallCapPassed(limit, threads);
    } else {
      LargeCapPassed(limit, threads);
    }
  }

  // ----- The counter can drop below zero ------------------------------------------------

  /** An allocation takes the only span of its bin. */
  lemma HitRun(s: State, t: nat, n: nat, b: int)
    requires t < |s.pcs| && s.pcs[t] == Out && Small(n) && n !in s.locks && Bin(s.bins, n) == [b]
    ensures Reaches(s, Hit(s, n, b))
  {
    hide Reaches, Wrap;
    Stay(s);
    var s1 := Go(s, t, ELock(n));
    var s2 := Go(s.(locks := s.locks[n := t]), t, EPop(n));
    var s3 := Go(SetBin(s2, n, []), t, EMark(n, b));
    var s4 := Go(s3.(hints := s.hints - {n}), t, EUnlock(n, b));
    var s5 := Go(s4.(locks := s.locks), t, ESub(n, b));
    One(s, s, Allocate(t, n));
    Do(s, s1, s2, t, GO);
    assert [b][1..] == [];
    Do(s, s2, s3, t, GO);
    Do(s, s3, s4, t, GO);
    hide Bin;
    assert s.locks[n := t] - {n} == s.locks;
    Do(s, s4, s5, t, GO);
    assert s5.pcs[t := Out] == s.pcs;
    Do(s, s5, Hit(s, n, b), t, GO);
  }

  function Hit(s: State, n: nat, b: int): State {
    s.(client := s.client + {Span(b, n)}, total := Wrap(s.total - n), bins := s.bins[n := []], hints := s.hints - {n})
  }

  function Refused(limit: nat, threads: nat): State
    requires threads >= 2
  {
    var s := Hit(InTheMiddle(limit, threads, 3), 2, 1);
    Go(s.(client := s.client - {Span(1000, 1)}), 0, FAdd(1, 1000))
  }

  lemma RefusedRun(limit: nat, threads: nat)
    requires threads >= 2 && 3 <= limit < WORD
    ensures Reaches(Start(limit, threads), Refused(limit, threads))
  {
    hide Reaches, Range, Wrap, PagesTo;
    var s0, s3 := Start(limit, threads), InTheMiddle(limit, threads, 3);
    MiddleRun(limit, threads, 3);
    TailInBin(limit, threads);
    HitRun(s3, 0, 2, 1);
    var s4 := Hit(s3, 2, 1);
    Then(s0, s3, s4);
    One(s0, s4, Free(0, Span(1000, 1)));
  }

  lemma TailInBin(limit: nat, threads: nat)
    requires threads >= 2
    ensures Bin(InTheMiddle(limit, threads, 3).bins, 2) == [1]
  {
    hide Range;
  }

  /** A thread splits a span, another takes the tail before it is counted: the counter drops
      below zero, and a free is refused although no page at all is cached. */
  lemma FreeRefusedWithRoom(limit: nat, threads: nat)
    requires threads >= 2 && limit >= 3 && Fits(Start(limit, threads))
    ensures exists acts :: IsRun(Start(limit, threads), acts) && After(Start(limit, threads), acts) == Refused(limit, threads)
    ensures Cached(Refused(limit, threads)) == 0
    ensures Refuses(Refused(limit, threads), 1, 1000)
  {
    RefusedRun(limit, threads);
    NothingCached(limit, threads);
    RefusedStep(limit, threads);
    hide *;
  }

  /** The next step of thread 0 refuses its free. */
  ghost predicate Refuses(s: State, n: nat, b: int) {
    0 < |s.pcs| && s.pcs[0] == FAdd(n, b) && forall ch :: Goes(Step(s, 0, ch), FSub(n, b))
  }

  predicate Goes(s: State, pc: Pc) {
    0 < |s.pcs| && s.pcs[0] == pc
  }

  lemma RefusedStep(limit: nat, threads: nat)
    requires threads >= 2 && limit >= 3 && Fits(Start(limit, threads))
    ensures Refuses(Refused(limit, threads), 1, 1000)
  {
    hide Range;
    assert Wrap(0 - 2) == WORD - 2;
    assert Refused(limit, threads).total == WORD - 2;
  }

  lemma NothingCached(limit: nat, threads: nat)
    requires threads >= 2
    ensures Cached(Refused(limit, threads)) == 0
  {
    var bins := Refused(limit, threads).bins;
    EmptyBins(bins, MAX_PAGES);
  }

  lemma {:induction false} EmptyBins(bins: map<nat, seq<int>>, k: nat)
    requires forall p: nat :: Bin(bins, p) == []
    ensures PagesTo(bins, k) == 0
  {
    if k > 0 { EmptyBins(bins, k - 1); }
  }

  /** In state `s` a free of thread `t` that fits under the cap gets past the counter. */
  ghost predicate Admits(s: State, t: nat) {
    t < |s.pcs| && s.pcs[t].FAdd? && Cached(s) + s.pcs[t].n <= s.limit ==> Step(s, t, GO).pcs[t].FLock?
  }

  ghost predicate AlwaysAdmits(limit: nat, threads: nat) {
    forall acts, t {:trigger Admits(After(Start(limit, threads), acts), t)} ::
      IsRun(Start(limit, threads), acts) ==> Admits(After(Start(limit, threads), acts), t)
  }

  /** For every cap of at least three pages: no run refuses a free that fits exactly when at most one thread runs. */
  lemma FreeAdmittedIff(limit: nat, threads: nat)
    requires 3 <= limit && Fits(Start(limit, threads))
    ensures AlwaysAdmits(limit, threads) <==> threads <= 1
  {
    if threads <= 1 {
      hide Admits;
      forall acts, t {:trigger Admits(After(Start(limit, threads), acts), t)} | IsRun(Start(limit, threads), acts)
        ensures Admits(After(Start(limit, threads), acts), t)
      {
        AloneAdmits(limit, threads, acts, t);
      }
    } else {
      FreeRefusedWithRoom(limit, threads);
      hide Start, Refused, PagesTo;
      var acts :| IsRun(Start(limit, threads), acts) && After(Start(limit, threads), acts) == Refused(limit, threads);
      RefusedWaits(limit, threads);
      assert !Admits(After(Start(limit, threads), acts), 0);
    }
  }

  lemma RefusedWaits(limit: nat, threads: nat)
    requires threads >= 2
    ensures var s := Refused(limit, threads); |s.pcs| == threads && s.pcs[0] == FAdd(1, 1000) && s.limit == limit
  {
    hide Range;
  }

  lemma AloneAdmits(limit: nat, threads: nat, acts: seq<Action>, t: nat)
    requires threads <= 1 && Fits(Start(limit, threads)) && IsRun(Start(limit, threads), acts)
    ensures Admits(After(Start(limit, threads), acts), t)
  {
    hide PagesTo, Control, Tiled, Apply, Enabled, Step;
    StartGood(limit, threads);
    RunGood(Start(limit, threads), acts);
    var s := After(Start(limit, threads), acts);
    if t < |s.pcs| && s.pcs[t].FAdd? {
      FreeAcceptsIff(s, t, GO);
      assert |s.pcs| == 1 && t == 0;
      assert s.pcs[..0] == [];
      assert Leads([]) == 0;
      assert Lead(s.pcs[0]) == 0;
      assert Leads(s.pcs) == 0;
    }
  }
}
