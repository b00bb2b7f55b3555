/** The doubly linked lists of slabs (src/global_heap.cpp): a slab is pushed at the front and removed from anywhere. */
module SlabList {
  import opened Links

  /** From `head`, the `next` links give `s` and the `prev` links give it backwards. */
  ghost predicate Dll(next: map<int, int>, prev: map<int, int>, head: int, s: seq<int>) {
    && NoDup(s)
    && Chain(next, head, s, 0)
    && (forall i :: 0 <= i < |s| ==> s[i] in prev)
    && (forall i, j :: 0 <= i && j == i + 1 && j < |s| ==> prev[s[j]] == s[i])
    && (|s| > 0 ==> prev[s[0]] == 0)
  }

  /** A list sees only the links of its own slabs. */
  lemma DllFrame(next: map<int, int>, prev: map<int, int>, next': map<int, int>, prev': map<int, int>, head: int, s: seq<int>)
    requires Dll(next, prev, head, s)
    requires forall i :: 0 <= i < |s| ==> s[i] in next' && next'[s[i]] == next[s[i]] && s[i] in prev' && prev'[s[i]] == prev[s[i]]
    ensures Dll(next', prev', head, s)
  {
  }

  /** Every list that shares no slab with `s` and does not hold `slab` stays as it is. */
  ghost predicate OtherListsKept(next: map<int, int>, prev: map<int, int>, next': map<int, int>, prev': map<int, int>, s: seq<int>, slab: int) {
    forall h: int, t: seq<int> {:trigger Dll(next, prev, h, t)} ::
      Dll(next, prev, h, t) && slab !in t && (forall y :: y in t ==> y !in s) ==> Dll(next', prev', h, t)
  }

  lemma OthersStay(next: map<int, int>, prev: map<int, int>, next': map<int, int>, prev': map<int, int>, s: seq<int>, slab: int)
    requires forall y {:trigger y in s} :: y !in s && y != slab ==>
               (y in next ==> y in next' && next'[y] == next[y]) && (y in prev ==> y in prev' && prev'[y] == prev[y])
    ensures OtherListsKept(next, prev, next', prev', s, slab)
  {
    forall h: int, t: seq<int> {:trigger Dll(next, prev, h, t)} | Dll(next, prev, h, t) && slab !in t && (forall y :: y in t ==> y !in s)
      ensures Dll(next', prev', h, t)
    {
      forall i | 0 <= i < |t|
        ensures t[i] in next' && t[i] in next && next'[t[i]] == next[t[i]] && t[i] in prev' && prev'[t[i]] == prev[t[i]]
      {
        assert t[i] in t;
      }
      DllFrame(next, prev, next', prev', h, t);
    }
  }

  class Slabs {
    var next: map<int, int>
    var prev: map<int, int>

    /** `PushSlab`: the slab becomes the first of the list; only its links and the old first's change. */
    method Push(head: int, slab: int, ghost s: seq<int>) returns (head': int)
      requires Dll(next, prev, head, s) && slab != 0 && slab !in s
      modifies this
      ensures Dll(next, prev, head', [slab] + s)
      ensures OtherListsKept(old(next), old(prev), next, prev, s, slab)
      ensures forall y {:trigger y in s} :: y !in s && y != slab ==>
                (y in next <==> y in old(next)) && (y in next ==> next[y] == old(next)[y]) &&
                (y in prev <==> y in old(prev)) && (y in prev ==> prev[y] == old(prev)[y])
    {
      next := next[slab := head];
      prev := prev[slab := 0];
      if head != 0 { prev := prev[head := slab]; }
      head' := slab;
      OthersStay(old(next), old(prev), next, prev, s, slab);
    }

    /** `RemoveSlab`: the slab leaves the list, wherever it is, and is linked to nothing. */
    method Remove(head: int, slab: int, ghost s: seq<int>, ghost k: nat) returns (head': int)
      requires Dll(next, prev, head, s) && k < |s| && slab == s[k]
      modifies this
      ensures Dll(next, prev, head', s[..k] + s[k + 1..])
      ensures slab in next && slab in prev && next[slab] == 0 && prev[slab] == 0
      ensures OtherListsKept(old(next), old(prev), next, prev, s, slab)
      ensures forall y {:trigger y in s} :: y !in s ==>
                (y in next <==> y in old(next)) && (y in next ==> next[y] == old(next)[y]) &&
                (y in prev <==> y in old(prev)) && (y in prev ==> prev[y] == old(prev)[y])
    {
      head' := head;
      var n, p := next[slab], prev[slab];
      assert n == (if k + 1 < |s| then s[k + 1] else 0) && p == (if k > 0 then s[k - 1] else 0);
      if p != 0 { next := next[p := n]; } else { head' := n; }
      if n != 0 { prev := prev[n := p]; }
      next := next[slab := 0];
      prev := prev[slab := 0];
      Unlinked(old(next), old(prev), next, prev, head, head', s, k);
      OthersStay(old(next), old(prev), next, prev, s, slab);
    }

    /** A slab that fills up, or is no longer full, moves from one list to the front of the other. */
    method Move(from: int, to: int, slab: int, ghost s: seq<int>, ghost t: seq<int>, ghost k: nat) returns (from': int, to': int)
      requires Dll(next, prev, from, s) && Dll(next, prev, to, t) && k < |s| && slab == s[k]
      requires forall y :: y in t ==> y !in s
      modifies this
      ensures Dll(next, prev, from', s[..k] + s[k + 1..]) && Dll(next, prev, to', [slab] + t)
      ensures forall h: int, u: seq<int> {:trigger Dll(old(next), old(prev), h, u)} ::
                Dll(old(next), old(prev), h, u) && (forall y :: y in u ==> y !in s && y !in t) ==> Dll(next, prev, h, u)
    {
      WithoutIt(s, k);
      hide Dll;
      from' := Remove(from, slab, s, k);
      ghost var n1, p1 := next, prev;
      ghost var rest := s[..k] + s[k + 1..];
      assert Dll(next, prev, to, t);
      to' := Push(to, slab, t);
      forall h: int, u: seq<int> {:trigger Dll(old(next), old(prev), h, u)} |
        Dll(old(next), old(prev), h, u) && (forall y :: y in u ==> y !in s && y !in t)
        ensures Dll(next, prev, h, u)
      {
        assert slab in s;
        assert Dll(n1, p1, h, u);
      }
    }
  }

  lemma Unlinked(next: map<int, int>, prev: map<int, int>, next': map<int, int>, prev': map<int, int>,
                 head: int, head': int, s: seq<int>, k: nat)
    requires Dll(next, prev, head, s) && k < |s|
    requires head' == if k == 0 then (if |s| > 1 then s[1] else 0) else head
    requires forall i :: 0 <= i < |s| && i != k ==> s[i] in next' && s[i] in prev'
    requires forall i :: 0 <= i < |s| && i != k && i != k - 1 ==> next'[s[i]] == next[s[i]]
    requires forall i :: 0 <= i < |s| && i != k && i != k + 1 ==> prev'[s[i]] == prev[s[i]]
    requires k > 0 ==> next'[s[k - 1]] == if k + 1 < |s| then s[k + 1] else 0
    requires k + 1 < |s| ==> prev'[s[k + 1]] == if k > 0 then s[k - 1] else 0
    ensures Dll(next', prev', head', s[..k] + s[k + 1..])
  {
    var t := s[..k] + s[k + 1..];
    assert forall i :: 0 <= i < |t| ==> t[i] == s[if i < k then i else i + 1];
  }

  lemma WithoutIt(s: seq<int>, k: nat)
    requires NoDup(s) && k < |s|
    ensures s[k] !in s[..k] + s[k + 1..] && forall y :: y in s[..k] + s[k + 1..] ==> y in s
  {
  }
}
