/** The page heap: every step keeps the pages tiled by spans. */
module PageHeapSpans {
  import opened PageHeap
  import opened Ranges
  import opened PageHeapInvariant
  import opened PageHeapTiles

  lemma StillDistinct(s: State, s': State, p: nat, list: seq<int>, t: nat)
    requires AllDistinct(s) && t < |s.pcs| && s'.bins == s.bins[p := list] && Distinct(list)
    requires |s'.pcs| == |s.pcs| && s'.pcs == s.pcs[t := s'.pcs[t]] && Distinct(ListOf(s'.pcs[t]))
    ensures AllDistinct(s')
  {
    hide ListOf, Distinct;
    forall q: nat ensures Distinct(Bin(s'.bins, q)) {
      assert Distinct(Bin(s.bins, q));
    }
    forall u | 0 <= u < |s'.pcs| ensures Distinct(ListOf(s'.pcs[u])) {
      assert Distinct(ListOf(s.pcs[u]));
    }
  }

  /** The first span of bin `p` into the hands of thread `t`. */
  lemma PopTiles(s: State, s': State, t: nat, p: nat, pc: Pc)
    requires Tiled(s) && t < |s.pcs| && Bin(s.bins, p) != []
    requires (forall b, n :: !Hand(s.pcs[t], b, n)) && (forall b, n :: Hand(pc, b, n) <==> b == Bin(s.bins, p)[0] && n == p)
    requires ListOf(pc) == []
    requires s' == Go(SetBin(s, p, Bin(s.bins, p)[1..]), t, pc)
    ensures Tiled(s')
  {
    hide Hand, ListOf;
    var own :| Tiles(s, own);
    var list := Bin(s.bins, p);
    var pl, pl' := InBin(p, list[0]), InHand(t, list[0], p);
    forall q {:trigger Exists(s', q)} ensures Exists(s', q) <==> q == pl' || (q != pl && Exists(s, q)) {
      if q.InBin? && q.p == p { Tail(list, q.b); }
    }
    TailDistinct(list);
    StillDistinct(s, s', p, list[1..], t);
    hide Exists, AllDistinct;
    var own' := MovePlace(s, s', own, pl, pl');
  }

  lemma Tail(list: seq<int>, b: int)
    requires Distinct(list) && list != []
    ensures b in list[1..] <==> b != list[0] && b in list
  {
    if b in list && b != list[0] {
      var i :| 0 <= i < |list| && list[i] == b;
      assert list[1..][i - 1] == b;
    }
  }

  lemma TailDistinct(list: seq<int>)
    requires Distinct(list) && list != []
    ensures Distinct(list[1..])
  {
  }

  /** A span in hand goes to the caller. */
  lemma GiveTiles(s: State, s': State, t: nat, b: int, n: nat)
    requires Tiled(s) && t < |s.pcs|
    requires (forall x, m :: Hand(s.pcs[t], x, m) <==> x == b && m == n)
    requires |s'.pcs| == |s.pcs| && s'.pcs == s.pcs[t := Out] && s'.bins == s.bins && s'.held == s.held
    requires s'.client == s.client + {Span(b, n)}
    ensures Tiled(s')
  {
    var own :| Tiles(s, own);
    var pl, pl' := InHand(t, b, n), WithCaller(b, n);
    forall q {:trigger Exists(s', q)} ensures Exists(s', q) <==> q == pl' || (q != pl && Exists(s, q)) {
    }
    assert AllDistinct(s');
    hide Exists, AllDistinct;
    var own' := MovePlace(s, s', own, pl, pl');
  }

  /** A span a caller frees comes into the hands of a thread. */
  lemma ReceiveTiles(s: State, s': State, t: nat, span: Span, pc: Pc)
    requires Tiled(s) && t < |s.pcs| && span in s.client && s.pcs[t] == Out
    requires (forall x, m :: Hand(pc, x, m) <==> x == span.base && m == span.pages) && ListOf(pc) == []
    requires s' == Go(s.(client := s.client - {span}), t, pc)
    ensures Tiled(s')
  {
    hide ListOf;
    var own :| Tiles(s, own);
    var pl, pl' := WithCaller(span.base, span.pages), InHand(t, span.base, span.pages);
    forall q {:trigger Exists(s', q)} ensures Exists(s', q) <==> q == pl' || (q != pl && Exists(s, q)) {
    }
    assert AllDistinct(s');
    hide Exists, AllDistinct;
    var own' := MovePlace(s, s', own, pl, pl');
  }

  /** A span in hand goes to the front of its bin. */
  lemma PushTiles(s: State, s': State, t: nat, b: int, n: nat, pc: Pc)
    requires Tiled(s) && t < |s.pcs|
    requires (forall x, m :: Hand(s.pcs[t], x, m) <==> x == b && m == n)
    requires (forall x, m :: !Hand(pc, x, m)) && ListOf(pc) == []
    requires s' == Go(SetBin(s, n, [b] + Bin(s.bins, n)), t, pc)
    ensures Tiled(s')
  {
    hide Hand, ListOf;
    var own :| Tiles(s, own);
    var pl, pl' := InHand(t, b, n), InBin(n, b);
    NotThere(s, own, pl, pl');
    forall q {:trigger Exists(s', q)} ensures Exists(s', q) <==> q == pl' || (q != pl && Exists(s, q)) {
    }
    assert Distinct([b] + Bin(s.bins, n));
    StillDistinct(s, s', n, [b] + Bin(s.bins, n), t);
    hide Exists, AllDistinct;
    var own' := MovePlace(s, s', own, pl, pl');
  }

  /** The tail of a span in hand goes to the bin of its size. */
  lemma SplitTiles(s: State, s': State, t: nat, n: nat, p: nat, b: int, pc: Pc)
    requires Tiled(s) && t < |s.pcs| && 1 <= n < p
    requires (forall x, m :: Hand(s.pcs[t], x, m) <==> x == b && m == p)
    requires (forall x, m :: Hand(pc, x, m) <==> x == b && m == n) && ListOf(pc) == []
    requires s' == Go(SetBin(s, p - n, [b + n] + Bin(s.bins, p - n)), t, pc)
    ensures Tiled(s')
  {
    hide Hand, ListOf;
    var own :| Tiles(s, own);
    var pl, lo, hi := InHand(t, b, p), InHand(t, b, n), InBin(p - n, b + n);
    Inside(s, own, pl, hi);
    forall q {:trigger Exists(s', q)} ensures Exists(s', q) <==> q == lo || q == hi || (q != pl && Exists(s, q)) {
    }
    assert Distinct([b + n] + Bin(s.bins, p - n));
    StillDistinct(s, s', p - n, [b + n] + Bin(s.bins, p - n), t);
    assert !Exists(s, lo);
    hide Exists, AllDistinct;
    var own' := SplitPlace(s, s', own, pl, lo, hi);
  }

  /** No other span starts inside a span. */
  lemma Inside(s: State, own: map<int, Place>, pl: Place, q: Place)
    requires Tiles(s, own) && Exists(s, pl) && Covers(pl, q.b) && q != pl && Pages(q) >= 1
    ensures !Exists(s, q)
  {
    hide Exists, AllDistinct;
    assert Covers(q, q.b);
  }

  /** Pages from the operating system go to the caller. */
  lemma MapTiles(s: State, s': State, t: nat, b: int, n: nat)
    requires Tiled(s) && t < |s.pcs| && n >= 1 && (forall x, m :: !Hand(s.pcs[t], x, m))
    requires |s'.pcs| == |s.pcs| && s'.pcs == s.pcs[t := Out] && s'.bins == s.bins
    requires s'.client == s.client + {Span(b, n)}
    requires Range(b, n) !! s.held && s'.held == s.held + Range(b, n)
    ensures Tiled(s')
  {
    var own :| Tiles(s, own);
    var pl := WithCaller(b, n);
    forall q {:trigger Exists(s', q)} ensures Exists(s', q) <==> q == pl || Exists(s, q) {
    }
    assert AllDistinct(s');
    hide Exists, AllDistinct;
    var own' := NewPlace(s, s', own, pl);
  }

  /** A span in hand goes back to the operating system. */
  lemma UnmapTiles(s: State, s': State, t: nat, b: int, n: nat, pc: Pc)
    requires Tiled(s) && t < |s.pcs| && Hand(s.pcs[t], b, n) && Distinct(ListOf(pc))
    requires forall x, m :: Hand(pc, x, m) <==> Hand(s.pcs[t], x, m) && (x != b || m != n)
    requires |s'.pcs| == |s.pcs| && s'.pcs == s.pcs[t := pc] && s'.bins == s.bins && s'.client == s.client
    requires s'.held == s.held - Range(b, n)
    ensures Tiled(s')
  {
    hide Hand, ListOf;
    var own :| Tiles(s, own);
    var pl := InHand(t, b, n);
    forall q {:trigger Exists(s', q)} ensures Exists(s', q) <==> q != pl && Exists(s, q) {
    }
    assert AllDistinct(s');
    hide Exists, AllDistinct;
    var own' := DropPlace(s, s', own, pl);
  }

  /** A caller's span is shrunk, grown or moved by the operating system. */
  lemma RemapTiles(s: State, x: Span, y: Span)
    requires Tiled(s) && x in s.client && y.pages > 0 && Range(y.base, y.pages) !! s.held - Range(x.base, x.pages)
    ensures Tiled(Remapped(s, x, y)) && y !in s.client - {x}
  {
    hide Range, Hand, ListOf;
    var own :| Tiles(s, own);
    var s1, s2 := s.(client := s.client - {x}, held := s.held - Range(x.base, x.pages)), Remapped(s, x, y);
    var px, py := WithCaller(x.base, x.pages), WithCaller(y.base, y.pages);
    forall q {:trigger Exists(s1, q)} ensures Exists(s1, q) <==> q != px && Exists(s, q) {
    }
    forall q {:trigger Exists(s2, q)} ensures Exists(s2, q) <==> q == py || Exists(s1, q) {
    }
    assert Exists(s, px) && (y in s1.client ==> Exists(s1, py));
    assert AllDistinct(s1) && AllDistinct(s2);
    hide Exists, AllDistinct;
    var own1 := DropPlace(s, s1, own, px);
    if y in s1.client { Shared(s1, own1, py); }
    var own2 := NewPlace(s1, s2, own1, py);
  }

  lemma Shared(s: State, own: map<int, Place>, pl: Place)
    requires Tiles(s, own) && Exists(s, pl)
    ensures !(Range(pl.b, Pages(pl)) !! s.held)
  {
    hide Exists, AllDistinct;
    assert Covers(pl, pl.b);
    assert Within(pl.b, pl.b, Pages(pl));
    assert pl.b in Range(pl.b, Pages(pl)) && pl.b in s.held;
  }

  /** A purge takes a whole bin. */
  lemma TakeTiles(s: State, s': State, t: nat, p: nat, pc: Pc)
    requires Tiled(s) && t < |s.pcs| && (forall b, n :: !Hand(s.pcs[t], b, n))
    requires ListOf(pc) == Bin(s.bins, p) && (forall b, n :: Hand(pc, b, n) <==> n == p && b in Bin(s.bins, p))
    requires s' == Go(SetBin(s, p, []), t, pc)
    ensures Tiled(s')
  {
    hide Hand, ListOf;
    var own :| Tiles(s, own);
    forall q {:trigger Exists(s', q)} ensures Exists(s', q) <==>
               || (q.InHand? && q.t == t && q.n == p && Exists(s, InBin(p, q.b)))
               || (Exists(s, q) && !(q.InBin? && q.p == p)) {
    }
    StillDistinct(s, s', p, [], t);
    assert forall b {:trigger InHand(t, b, p)} :: !Exists(s, InHand(t, b, p));
    hide Exists, AllDistinct;
    var own' := MoveBin(s, s', own, p, t);
  }

  /** The spans stay where they are. */
  lemma PlainTiles(s: State, s': State, t: nat)
    requires Tiled(s) && t < |s.pcs| && |s'.pcs| == |s.pcs| && s'.pcs == s.pcs[t := s'.pcs[t]]
    requires s'.bins == s.bins && s'.client == s.client && s'.held == s.held
    requires forall b, n :: Hand(s'.pcs[t], b, n) <==> Hand(s.pcs[t], b, n)
    requires Distinct(ListOf(s'.pcs[t]))
    ensures Tiled(s')
  {
    hide Hand, ListOf;
    var own :| Tiles(s, own);
    forall q {:trigger Exists(s', q)} ensures Exists(s', q) <==> Exists(s, q) {
    }
    assert AllDistinct(s');
    hide Exists, AllDistinct;
    SamePlaces(s, s', own);
  }

  // ----- Every step -----------------------------------------------------------

  /** Program points whose step moves a span. */
  predicate Moves(pc: Pc) {
    || pc.EPop? || pc.SPop? || pc.ESub? || pc.SUnlock? || pc.SPush? || pc.OsTake? || pc.OsMap?
    || pc.FPush? || pc.FOs? || pc.PTake? || pc.PDrop?
  }

  predicate SplitPoint(pc: Pc) {
    || pc.SLock? || pc.SStale? || pc.SStaleUnlock? || pc.SMark? || pc.SSub? || pc.SLockRem?
    || pc.SMarkRem? || pc.SUnlockRem? || pc.SAdd?
  }

  ghost predicate Still(s: State, s': State, t: nat)
    requires t < |s.pcs|
  {
    && |s'.pcs| == |s.pcs| && s'.pcs == s.pcs[t := s'.pcs[t]]
    && s'.bins == s.bins && s'.client == s.client && s'.held == s.held
    && (forall b, n :: Hand(s'.pcs[t], b, n) <==> Hand(s.pcs[t], b, n))
    && ListOf(s'.pcs[t]) == ListOf(s.pcs[t])
  }

  lemma SplitStill(s: State, t: nat, ch: Choice)
    requires t < |s.pcs| && PcOk(s.pcs[t]) && SplitPoint(s.pcs[t])
    ensures Still(s, Step(s, t, ch), t)
  {
    hide Wrap, Bin, Range;
  }

  predicate ExactPoint(pc: Pc) {
    pc.Out? || pc.ELock? || pc.EMiss? || pc.EMark? || pc.EUnlock? || pc.OsLock?
  }

  lemma ExactStill(s: State, t: nat, ch: Choice)
    requires t < |s.pcs| && PcOk(s.pcs[t]) && ExactPoint(s.pcs[t])
    ensures Still(s, Step(s, t, ch), t)
  {
    hide Wrap, Bin, Range;
  }

  lemma ScanStill(s: State, t: nat, ch: Choice)
    requires t < |s.pcs| && s.pcs[t].Scan?
    ensures Still(s, Step(s, t, ch), t)
  {
    hide LeastHint;
  }

  lemma PurgeStill(s: State, t: nat, ch: Choice)
    requires t < |s.pcs| && PcOk(s.pcs[t]) && (s.pcs[t].PLock? || s.pcs[t].PMark? || s.pcs[t].PUnlock? || s.pcs[t].PSub?)
    ensures Still(s, Step(s, t, ch), t)
  {
    hide Wrap, Bin, Range;
  }

  lemma FreeStill(s: State, t: nat, ch: Choice)
    requires t < |s.pcs| && PcOk(s.pcs[t])
    requires var pc := s.pcs[t]; pc.FAdd? || pc.FLock? || pc.FMark? || pc.FUnlock? || pc.FReject? || pc.FSub?
    ensures Still(s, Step(s, t, ch), t)
  {
    hide Wrap, Bin, Range;
  }

  lemma StepStill(s: State, t: nat, ch: Choice)
    requires t < |s.pcs| && PcOk(s.pcs[t]) && !Moves(s.pcs[t])
    ensures Still(s, Step(s, t, ch), t)
  {
    hide PcOk, Step, Still;
    if SplitPoint(s.pcs[t]) {
      SplitStill(s, t, ch);
    } else if ExactPoint(s.pcs[t]) {
      ExactStill(s, t, ch);
    } else if s.pcs[t].Scan? {
      ScanStill(s, t, ch);
    } else if s.pcs[t].PLock? || s.pcs[t].PMark? || s.pcs[t].PUnlock? || s.pcs[t].PSub? {
      PurgeStill(s, t, ch);
    } else {
      FreeStill(s, t, ch);
    }
  }

  lemma StillTiles(s: State, s': State, t: nat)
    requires Tiled(s) && t < |s.pcs| && Still(s, s', t)
    ensures Tiled(s')
  {
    hide Hand, ListOf;
    var own :| Tiles(s, own);
    assert Distinct(ListOf(s.pcs[t]));
    hide Tiles;
    PlainTiles(s, s', t);
  }

  lemma TakeOutTiles(s: State, t: nat, ch: Choice)
    requires t < |s.pcs| && PcOk(s.pcs[t]) && (s.pcs[t].EPop? || s.pcs[t].SPop?) && Tiled(s)
    ensures Tiled(Step(s, t, ch))
  {
    hide Tiled, Bin;
    var pc, s' := s.pcs[t], Step(s, t, ch);
    var p := if pc.EPop? then pc.n else pc.p;
    if Bin(s.bins, p) == [] {
      StillTiles(s, s', t);
    } else {
      PopTiles(s, s', t, p, s'.pcs[t]);
    }
  }

  lemma HandOverTiles(s: State, t: nat, ch: Choice)
    requires t < |s.pcs| && PcOk(s.pcs[t]) && (s.pcs[t].ESub? || s.pcs[t].SUnlock?) && Tiled(s)
    ensures Tiled(Step(s, t, ch))
  {
    hide Tiled, Wrap;
    GiveTiles(s, Step(s, t, ch), t, s.pcs[t].b, s.pcs[t].n);
  }

  lemma PutTiles(s: State, t: nat, ch: Choice)
    requires t < |s.pcs| && PcOk(s.pcs[t]) && (s.pcs[t].SPush? || s.pcs[t].FPush?) && Tiled(s)
    ensures Tiled(Step(s, t, ch))
  {
    hide Tiled, Bin, Retention;
    var pc, s' := s.pcs[t], Step(s, t, ch);
    if pc.SPush? {
      SplitTiles(s, s', t, pc.n, pc.p, pc.b, s'.pcs[t]);
    } else if s'.pcs[t].FMark? {
      PushTiles(s, s', t, pc.b, pc.n, s'.pcs[t]);
    } else {
      StillTiles(s, s', t);
    }
  }

  lemma OsTiles(s: State, t: nat, ch: Choice)
    requires t < |s.pcs| && PcOk(s.pcs[t]) && (s.pcs[t].OsTake? || s.pcs[t].OsMap?) && Tiled(s)
    requires Enabled(s, Run(t, ch))
    ensures Tiled(Step(s, t, ch))
  {
    hide Tiled, Range;
    var pc, s' := s.pcs[t], Step(s, t, ch);
    if ch.ok {
      MapTiles(s, s', t, ch.base, pc.n);
    } else {
      StillTiles(s, s', t);
    }
  }

  lemma FOsTiles(s: State, t: nat, ch: Choice)
    requires t < |s.pcs| && s.pcs[t].FOs? && Tiled(s)
    ensures Tiled(Step(s, t, ch))
  {
    hide Tiled, Range;
    var pc := s.pcs[t];
    UnmapTiles(s, Step(s, t, ch), t, pc.b, pc.n, Out);
  }

  lemma PurgeTiles(s: State, t: nat, ch: Choice)
    requires t < |s.pcs| && s.pcs[t].PTake? && Tiled(s)
    ensures Tiled(Step(s, t, ch))
  {
    hide Tiled, Bin;
    var s' := Step(s, t, ch);
    TakeTiles(s, s', t, s.pcs[t].p, s'.pcs[t]);
  }

  lemma DropTiles(s: State, t: nat, ch: Choice)
    requires t < |s.pcs| && s.pcs[t].PDrop? && Tiled(s)
    ensures Tiled(Step(s, t, ch))
  {
    hide Range, Exists, Wrap;
    var pc, s' := s.pcs[t], Step(s, t, ch);
    var own :| Tiles(s, own);
    assert Distinct(pc.list) by { assert Distinct(ListOf(s.pcs[t])); }
    hide Tiled, Tiles;
    if pc.list == [] {
      StillTiles(s, s', t);
    } else {
      forall x ensures x in pc.list[1..] <==> x != pc.list[0] && x in pc.list { Tail(pc.list, x); }
      TailDistinct(pc.list);
      UnmapTiles(s, s', t, pc.list[0], pc.p, s'.pcs[t]);
    }
  }

  lemma StepTiles(s: State, t: nat, ch: Choice)
    requires t < |s.pcs| && PcOk(s.pcs[t]) && Tiled(s) && Enabled(s, Run(t, ch))
    ensures Tiled(Step(s, t, ch))
  {
    hide Tiled, PcOk, Step, Enabled, Still;
    match s.pcs[t]
    case EPop(_) => TakeOutTiles(s, t, ch);
    case SPop(_, _) => TakeOutTiles(s, t, ch);
    case ESub(_, _) => HandOverTiles(s, t, ch);
    case SUnlock(_, _, _) => HandOverTiles(s, t, ch);
    case SPush(_, _, _) => PutTiles(s, t, ch);
    case FPush(_, _) => PutTiles(s, t, ch);
    case OsTake(_) => OsTiles(s, t, ch);
    case OsMap(_) => OsTiles(s, t, ch);
    case FOs(_, _) => FOsTiles(s, t, ch);
    case PTake(_) => PurgeTiles(s, t, ch);
    case PDrop(_, _) => DropTiles(s, t, ch);
    case _ =>
      StepStill(s, t, ch);
      StillTiles(s, Step(s, t, ch), t);
  }
}
