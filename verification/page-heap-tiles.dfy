/** The page heap: every page it has from the operating system is in exactly one span. */
module PageHeapTiles {
  import opened PageHeap
  import opened Ranges
  import opened PageHeapInvariant

  /** Where a span can be: in a bin, in the hands of a thread, or with a caller. */
  datatype Place = InBin(p: nat, b: int) | InHand(t: nat, b: int, n: nat) | WithCaller(b: int, n: nat)

  function Pages(pl: Place): nat {
    if pl.InBin? then pl.p else pl.n
  }

  predicate Covers(pl: Place, i: int) {
    Within(i, pl.b, Pages(pl))
  }

  /** The spans a thread has taken and not yet put anywhere. */
  predicate Hand(pc: Pc, b: int, n: nat) {
    match pc
    case EMark(m, x) => b == x && n == m
    case EUnlock(m, x) => b == x && n == m
    case ESub(m, x) => b == x && n == m
    case SMark(_, p, x) => b == x && n == p
    case SSub(_, p, x) => b == x && n == p
    case SLockRem(_, p, x) => b == x && n == p
    case SPush(_, p, x) => b == x && n == p
    case SMarkRem(m, _, x) => b == x && n == m
    case SUnlockRem(m, _, x) => b == x && n == m
    case SAdd(m, _, x) => b == x && n == m
    case SUnlock(m, _, x) => b == x && n == m
    case FAdd(m, x) => b == x && n == m
    case FLock(m, x) => b == x && n == m
    case FPush(m, x) => b == x && n == m
    case FReject(m, x) => b == x && n == m
    case FSub(m, x) => b == x && n == m
    case FOs(m, x) => b == x && n == m
    case PMark(p, list) => n == p && b in list
    case PUnlock(p, list) => n == p && b in list
    case PDrop(p, list) => n == p && b in list
    case PSub(p, list) => n == p && b in list
    case _ => false
  }

  ghost predicate Exists(s: State, pl: Place) {
    match pl
    case InBin(p, b) => b in Bin(s.bins, p)
    case InHand(t, b, n) => t < |s.pcs| && Hand(s.pcs[t], b, n)
    case WithCaller(b, n) => Span(b, n) in s.client
  }

  predicate Distinct(list: seq<int>) {
    forall i, j :: 0 <= i < j < |list| ==> list[i] != list[j]
  }

  function ListOf(pc: Pc): seq<int> {
    match pc
    case PMark(_, list) => list
    case PUnlock(_, list) => list
    case PDrop(_, list) => list
    case PSub(_, list) => list
    case _ => []
  }

  ghost predicate AllDistinct(s: State) {
    && (forall p: nat {:trigger Bin(s.bins, p)} :: Distinct(Bin(s.bins, p)))
    && (forall t {:trigger s.pcs[t]} :: 0 <= t < |s.pcs| ==> Distinct(ListOf(s.pcs[t])))
  }

  /** `own` says for every page held which span it belongs to. */
  ghost predicate Tiles(s: State, own: map<int, Place>) {
    && AllDistinct(s)
    && (forall i: int {:trigger i in own}{:trigger i in s.held} :: i in own <==> i in s.held)
    && (forall pl, i {:trigger Exists(s, pl), Covers(pl, i)} :: Exists(s, pl) && Covers(pl, i) ==> i in own && own[i] == pl)
    && (forall i {:trigger own[i]} :: i in own ==> Exists(s, own[i]) && Covers(own[i], i))
    && (forall pl {:trigger Exists(s, pl)} :: Exists(s, pl) ==> Pages(pl) >= 1)
  }

  ghost predicate Tiled(s: State) {
    exists own :: Tiles(s, own)
  }

  // ----- What can happen to spans ---------------------------------------------

  lemma SamePlaces(s: State, s': State, own: map<int, Place>)
    requires Tiles(s, own) && AllDistinct(s') && s'.held == s.held
    requires forall q {:trigger Exists(s', q)} :: Exists(s', q) <==> Exists(s, q)
    ensures Tiles(s', own)
  {
    hide Exists, Covers, AllDistinct;
  }

  lemma MovePlace(s: State, s': State, own: map<int, Place>, pl: Place, pl': Place) returns (own': map<int, Place>)
    requires Tiles(s, own) && AllDistinct(s') && s'.held == s.held
    requires Exists(s, pl) && pl' != pl && pl'.b == pl.b && Pages(pl') == Pages(pl)
    requires forall q {:trigger Exists(s', q)} :: Exists(s', q) <==> q == pl' || (q != pl && Exists(s, q))
    ensures Tiles(s', own')
  {
    hide Exists, AllDistinct;
    own' := map i | i in own :: if own[i] == pl then pl' else own[i];
    NotThere(s, own, pl, pl');
    forall q, i {:trigger Exists(s', q), Covers(q, i)} | Exists(s', q) && Covers(q, i)
      ensures i in own' && own'[i] == q
    {
      if q == pl' { assert Covers(pl, i); }
    }
    forall i {:trigger own'[i]} | i in own' ensures Exists(s', own'[i]) && Covers(own'[i], i) {
      assert Exists(s, own[i]) && Covers(own[i], i);
    }
  }

  /** Two spans that share a page are one. */
  lemma NotThere(s: State, own: map<int, Place>, pl: Place, pl': Place)
    requires Tiles(s, own) && Exists(s, pl) && pl' != pl && pl'.b == pl.b && Pages(pl') == Pages(pl)
    ensures !Exists(s, pl')
  {
    hide Exists, AllDistinct;
    assert Covers(pl, pl.b);
    assert Covers(pl', pl.b);
  }

  lemma SplitPlace(s: State, s': State, own: map<int, Place>, pl: Place, lo: Place, hi: Place) returns (own': map<int, Place>)
    requires Tiles(s, own) && AllDistinct(s') && s'.held == s.held
    requires Exists(s, pl) && lo.b == pl.b && hi.b == pl.b + Pages(lo) && Pages(pl) == Pages(lo) + Pages(hi)
    requires Pages(lo) >= 1 && Pages(hi) >= 1
    requires lo != pl && hi != pl && !Exists(s, lo) && !Exists(s, hi)
    requires forall q {:trigger Exists(s', q)} :: Exists(s', q) <==> q == lo || q == hi || (q != pl && Exists(s, q))
    ensures Tiles(s', own')
  {
    hide Exists, AllDistinct;
    own' := map i | i in own :: if own[i] == pl then (if i < hi.b then lo else hi) else own[i];
    forall q, i {:trigger Exists(s', q), Covers(q, i)} | Exists(s', q) && Covers(q, i)
      ensures i in own' && own'[i] == q
    {
      if q == lo || q == hi { assert Covers(pl, i); }
    }
    forall i {:trigger own'[i]} | i in own' ensures Exists(s', own'[i]) && Covers(own'[i], i) {
      assert Exists(s, own[i]) && Covers(own[i], i);
    }
  }

  lemma DropPlace(s: State, s': State, own: map<int, Place>, pl: Place) returns (own': map<int, Place>)
    requires Tiles(s, own) && AllDistinct(s') && Exists(s, pl) && s'.held == s.held - Range(pl.b, Pages(pl))
    requires forall q {:trigger Exists(s', q)} :: Exists(s', q) <==> q != pl && Exists(s, q)
    ensures Tiles(s', own')
  {
    hide Exists, AllDistinct;
    own' := map i | i in own && own[i] != pl :: own[i];
    forall i: int ensures i in own' <==> i in s'.held {
      assert i in Range(pl.b, Pages(pl)) <==> Covers(pl, i);
    }
    forall q, i {:trigger Exists(s', q), Covers(q, i)} | Exists(s', q) && Covers(q, i)
      ensures i in own' && own'[i] == q
    {
      assert Exists(s, q);
    }
    forall i {:trigger own'[i]} | i in own' ensures Exists(s', own'[i]) && Covers(own'[i], i) {
      assert Exists(s, own[i]) && Covers(own[i], i);
    }
  }

  lemma NewPlace(s: State, s': State, own: map<int, Place>, pl: Place) returns (own': map<int, Place>)
    requires Tiles(s, own) && AllDistinct(s') && Pages(pl) >= 1
    requires Range(pl.b, Pages(pl)) !! s.held && s'.held == s.held + Range(pl.b, Pages(pl))
    requires forall q {:trigger Exists(s', q)} :: Exists(s', q) <==> q == pl || Exists(s, q)
    ensures Tiles(s', own')
  {
    hide Exists, AllDistinct;
    own' := own + map i | i in Range(pl.b, Pages(pl)) :: pl;
  }

  /** A whole bin into the hands of a thread. */
  lemma MoveBin(s: State, s': State, own: map<int, Place>, p: nat, t: nat) returns (own': map<int, Place>)
    requires Tiles(s, own) && AllDistinct(s') && s'.held == s.held
    requires forall b {:trigger InHand(t, b, p)} :: !Exists(s, InHand(t, b, p))
    requires forall q {:trigger Exists(s', q)} :: Exists(s', q) <==>
               || (q.InHand? && q.t == t && q.n == p && Exists(s, InBin(p, q.b)))
               || (Exists(s, q) && !(q.InBin? && q.p == p))
    ensures Tiles(s', own')
  {
    hide Exists, AllDistinct;
    own' := map i | i in own :: if own[i].InBin? && own[i].p == p then InHand(t, own[i].b, p) else own[i];
    forall pl, i {:trigger Exists(s', pl), Covers(pl, i)} | Exists(s', pl) && Covers(pl, i)
      ensures i in own' && own'[i] == pl
    {
      if pl.InHand? && pl.t == t && pl.n == p {
        assert !Exists(s, InHand(t, pl.b, p));
        assert Covers(InBin(p, pl.b), i);
      }
    }
  }
}
