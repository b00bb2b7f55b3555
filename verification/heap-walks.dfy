/** What the walks over private lists find. */
module HeapWalks {
  import opened Config
  import opened Links
  import opened Heap

  function Min(a: nat, b: nat): nat {
    if a <= b then a else b
  }

  /** The feed walk stops at block `limit` or at the last block, whichever is first. */
  lemma {:induction false} FeedWalkStops(next: map<int, int>, s: seq<int>, i: nat, limit: nat, taken: nat)
    requires i < |s| && Chain(next, s[0], s, 0)
    requires forall y :: y in s ==> Plausible(y)
    requires 1 <= taken
    ensures taken >= limit ==> FeedWalk(next, s[i], limit, taken) == Stop(s[i], taken)
    ensures taken < limit ==>
              var k := Min(limit - taken, |s| - 1 - i);
              FeedWalk(next, s[i], limit, taken) == Stop(s[i + k], taken + k)
    decreases |s| - i
  {
    if taken < limit && i + 1 < |s| {
      assert s[i + 1] in s;
      FeedWalkStops(next, s, i + 1, limit, taken + 1);
    }
  }

  /** On a list of at least `limit` blocks the overflow walk ends on block `limit`. */
  lemma {:induction false} FlushWalkStops(next: map<int, int>, s: seq<int>, i: nat, limit: nat)
    requires i < limit <= |s| && Chain(next, s[0], s, 0)
    requires forall y :: y in s ==> Plausible(y)
    ensures FlushWalk(next, s[i], limit, i + 1) == Stop(s[limit - 1], limit)
    decreases |s| - i
  {
    if i + 1 < limit {
      assert s[i + 1] in s;
      FlushWalkStops(next, s, i + 1, limit);
    }
  }
}
