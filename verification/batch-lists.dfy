/**
 Splitting a list of freed blocks in place (src/global_heap.cpp): first by the arena of
 each block's slab, then by size class, relinking the blocks as the walk meets them.
 */
module BatchLists {
  import opened Config
  import opened Links

  /** The blocks of `s` with key `a`, in order. */
  function Pick(s: seq<int>, key: map<int, nat>, a: nat): seq<int> {
    if |s| == 0 then []
    else
      var n := |s| - 1;
      var rest := Pick(s[..n], key, a);
      if s[n] in key && key[s[n]] == a then rest + [s[n]] else rest
  }

  lemma {:induction false} PickIn(s: seq<int>, key: map<int, nat>, a: nat, y: int)
    ensures y in Pick(s, key, a) <==> y in s && y in key && key[y] == a
  {
    if |s| > 0 {
      var n := |s| - 1;
      PickIn(s[..n], key, a, y);
      assert s == s[..n] + [s[n]];
    }
  }

  lemma {:induction false} PickNoDup(s: seq<int>, key: map<int, nat>, a: nat)
    requires NoDup(s)
    ensures NoDup(Pick(s, key, a))
  {
    if |s| > 0 {
      var n := |s| - 1;
      PickNoDup(s[..n], key, a);
      PickIn(s[..n], key, a, s[n]);
    }
  }

  /** The blocks of `s` with both keys, in order. */
  function PickBoth(s: seq<int>, key: map<int, nat>, a: nat, key': map<int, nat>, c: nat): seq<int> {
    if |s| == 0 then []
    else
      var n := |s| - 1;
      var rest := PickBoth(s[..n], key, a, key', c);
      if s[n] in key && key[s[n]] == a && s[n] in key' && key'[s[n]] == c then rest + [s[n]] else rest
  }

  /** Two splits, one after the other, pick the blocks both pick, in order. */
  lemma {:induction false} PickTwice(s: seq<int>, key: map<int, nat>, a: nat, key': map<int, nat>, c: nat)
    ensures Pick(Pick(s, key, a), key', c) == PickBoth(s, key, a, key', c)
    ensures forall y :: y in Pick(Pick(s, key, a), key', c) <==>
              y in s && y in key && key[y] == a && y in key' && key'[y] == c
  {
    if |s| > 0 {
      var n := |s| - 1;
      var rest := Pick(s[..n], key, a);
      PickTwice(s[..n], key, a, key', c);
      assert (rest + [s[n]])[..|rest|] == rest;
    }
    forall y ensures y in Pick(Pick(s, key, a), key', c) <==>
                       y in s && y in key && key[y] == a && y in key' && key'[y] == c {
      PickIn(Pick(s, key, a), key', c, y);
      PickIn(s, key, a, y);
    }
  }

  /** The keys that occur, in the order they first occur. */
  function Present(s: seq<int>, key: map<int, nat>): seq<nat> {
    if |s| == 0 then []
    else
      var n := |s| - 1;
      var rest := Present(s[..n], key);
      if s[n] in key && key[s[n]] !in rest then rest + [key[s[n]]] else rest
  }

  lemma {:induction false} PresentIs(s: seq<int>, key: map<int, nat>)
    ensures forall a: nat {:trigger a in Present(s, key)} :: a in Present(s, key) <==> Pick(s, key, a) != []
    ensures forall i, j :: 0 <= i < j < |Present(s, key)| ==> Present(s, key)[i] != Present(s, key)[j]
  {
    if |s| > 0 { PresentIs(s[..|s| - 1], key); }
  }

  lemma PresentNext(s: seq<int>, key: map<int, nat>, i: nat)
    requires i < |s| && s[i] in key
    ensures var rest := Present(s[..i], key);
            Present(s[..i + 1], key) == if Pick(s[..i], key, key[s[i]]) == [] then rest + [key[s[i]]] else rest
  {
    assert s[..i + 1][..i] == s[..i];
    PresentIs(s[..i], key);
  }

  /** A chain depends only on the links of its blocks. */
  lemma ChainFrame(next: map<int, int>, next': map<int, int>, p: int, s: seq<int>, e: int)
    requires Chain(next, p, s, e)
    requires forall y {:trigger y in s} :: y in s ==> y in next' && (y in next ==> next'[y] == next[y])
    ensures Chain(next', p, s, e)
  {
    forall i | 0 <= i < |s| ensures s[i] in next' && next'[s[i]] == next[s[i]] { assert s[i] in s; }
  }

  /** Linking a block behind the last one. */
  function Linked(next: map<int, int>, s: seq<int>, y: int): map<int, int> {
    (if |s| == 0 then next else next[Last(s) := y])[y := 0]
  }

  lemma LinkedChain(next: map<int, int>, p: int, s: seq<int>, y: int)
    requires Chain(next, p, s, 0) && NoDup(s) && y !in s && y != 0
    ensures Chain(Linked(next, s, y), if |s| == 0 then y else p, s + [y], 0)
  {
  }

  /** Lists at `hs`, their last blocks in `ts`: each key's blocks, in the order of `s`. */
  ghost predicate Lists(next: map<int, int>, hs: seq<int>, ts: seq<int>, key: map<int, nat>, s: seq<int>) {
    && |hs| == |ts|
    && (forall a: nat {:trigger Pick(s, key, a)} :: a < |hs| ==>
          Chain(next, hs[a], Pick(s, key, a), 0) && ts[a] == Last(Pick(s, key, a)))
  }

  lemma PickNext(s: seq<int>, key: map<int, nat>, a: nat, i: nat)
    requires i < |s| && s[i] in key
    ensures Pick(s[..i + 1], key, a) == if key[s[i]] == a then Pick(s[..i], key, a) + [s[i]] else Pick(s[..i], key, a)
  {
    assert s[..i + 1][..i] == s[..i];
  }

  lemma OneKey(next: map<int, int>, h: int, s: seq<int>, key: map<int, nat>, i: nat)
    requires NoDup(s) && i < |s| && s[i] in key && s[i] != 0 && Chain(next, h, Pick(s[..i], key, key[s[i]]), 0)
    ensures var l := Pick(s[..i], key, key[s[i]]);
            && (h == 0 <==> |l| == 0) && NoDup(l) && s[i] !in l
            && Chain(Linked(next, l, s[i]), if |l| == 0 then s[i] else h, Pick(s[..i + 1], key, key[s[i]]), 0)
  {
    var a, l := key[s[i]], Pick(s[..i], key, key[s[i]]);
    PickNext(s, key, a, i);
    PickNoDup(s[..i], key, a);
    PickIn(s[..i], key, a, s[i]);
    hide Pick;
    LinkedChain(next, h, l, s[i]);
  }

  /** Only the block and the one it is linked behind change. */
  lemma LinkedSame(next: map<int, int>, l: seq<int>, y: int, z: int)
    requires z != y && (|l| > 0 ==> z != l[|l| - 1]) && z in next
    ensures z in Linked(next, l, y) && Linked(next, l, y)[z] == next[z]
  {
  }

  lemma OtherKey(next: map<int, int>, h: int, s: seq<int>, key: map<int, nat>, i: nat, b: nat)
    requires NoDup(s) && i < |s| && s[i] in key && b != key[s[i]] && Chain(next, h, Pick(s[..i], key, b), 0)
    ensures Pick(s[..i + 1], key, b) == Pick(s[..i], key, b)
    ensures Chain(Linked(next, Pick(s[..i], key, key[s[i]]), s[i]), h, Pick(s[..i + 1], key, b), 0)
  {
    var l, o := Pick(s[..i], key, key[s[i]]), Pick(s[..i], key, b);
    PickNext(s, key, b, i);
    forall z | z in o ensures z != s[i] && (|l| > 0 ==> z != l[|l| - 1]) {
      PickIn(s[..i], key, b, z);
      PickIn(s[..i], key, key[s[i]], Last(l));
    }
    hide Pick;
    forall z | z in o ensures z in Linked(next, l, s[i]) && Linked(next, l, s[i])[z] == next[z] {
      LinkedSame(next, l, s[i], z);
    }
    ChainFrame(next, Linked(next, l, s[i]), h, o, 0);
  }

  lemma TailChain(next: map<int, int>, s: seq<int>, key: map<int, nat>, i: nat)
    requires NoDup(s) && i < |s| && s[i] in key && Chain(next, s[i], s[i..], 0)
    ensures Chain(Linked(next, Pick(s[..i], key, key[s[i]]), s[i]), next[s[i]], s[i + 1..], 0)
  {
    var l, rest := Pick(s[..i], key, key[s[i]]), s[i + 1..];
    ChainTail(next, s[i], s[i..], 0);
    assert s[i..][1..] == rest;
    forall z | z in rest ensures z != s[i] && (|l| > 0 ==> z != l[|l| - 1]) {
      PickIn(s[..i], key, key[s[i]], Last(l));
    }
    hide Pick;
    forall z | z in rest ensures z in Linked(next, l, s[i]) && Linked(next, l, s[i])[z] == next[z] {
      LinkedSame(next, l, s[i], z);
    }
    ChainFrame(next, Linked(next, l, s[i]), next[s[i]], rest, 0);
  }

  lemma SplitStep(next: map<int, int>, hs: seq<int>, ts: seq<int>, key: map<int, nat>, s: seq<int>, i: nat)
    requires i < |s| && NoDup(s) && Lists(next, hs, ts, key, s[..i]) && Chain(next, s[i], s[i..], 0)
    requires s[i] in key && key[s[i]] < |hs| && s[i] != 0
    ensures var y, a := s[i], key[s[i]]; var l := Pick(s[..i], key, a);
            && (hs[a] == 0 <==> |l| == 0) && ts[a] == Last(l)
            && Lists(Linked(next, l, y), hs[a := if |l| == 0 then y else hs[a]], ts[a := y], key, s[..i + 1])
            && Chain(Linked(next, l, y), next[y], s[i + 1..], 0)
  {
    var y, a := s[i], key[s[i]];
    var l := Pick(s[..i], key, a);
    OneKey(next, hs[a], s, key, i);
    PickNext(s, key, a, i);
    TailChain(next, s, key, i);
    var next', hs', ts' := Linked(next, l, y), hs[a := if |l| == 0 then y else hs[a]], ts[a := y];
    hide Chain, Linked;
    forall b: nat | b < |hs'|
      ensures Chain(next', hs'[b], Pick(s[..i + 1], key, b), 0) && ts'[b] == Last(Pick(s[..i + 1], key, b))
    {
      if b != a {
        assert Chain(next, hs[b], Pick(s[..i], key, b), 0);
        OtherKey(next, hs[b], s, key, i, b);
      }
    }
  }

  lemma SplitFrame(next: map<int, int>, s: seq<int>, key: map<int, nat>, i: nat, y: int)
    requires i < |s| && s[i] in key && y !in s && y in next
    ensures var next' := Linked(next, Pick(s[..i], key, key[s[i]]), s[i]); y in next' && next'[y] == next[y]
  {
    var l := Pick(s[..i], key, key[s[i]]);
    PickIn(s[..i], key, key[s[i]], Last(l));
    LinkedSame(next, l, s[i], y);
  }

  // ----- Routing by arena and class -------------------------------------------------

  /** A list handed to the pending queue or to the locked class of an arena. */
  datatype Handoff = Handoff(arena: nat, cls: nat, head: int, tail: int)

  /** The blocks of `s` that belong to class `c` of arena `i`, in order. */
  function ListFor(s: seq<int>, arenaOf: map<int, nat>, clsOf: map<int, nat>, i: nat, c: nat): seq<int> {
    Pick(Pick(s, arenaOf, i), clsOf, c)
  }

  ghost predicate HandoffOk(next: map<int, int>, h: Handoff, s: seq<int>, arenaOf: map<int, nat>, clsOf: map<int, nat>) {
    var l := ListFor(s, arenaOf, clsOf, h.arena, h.cls);
    l != [] && Chain(next, h.head, l, 0) && h.tail == Last(l)
  }

  /** For the arenas below `n`: each list is handed over whole, none twice, and none is left out. */
  ghost predicate Routed(next: map<int, int>, out: seq<Handoff>, s: seq<int>, arenaOf: map<int, nat>, clsOf: map<int, nat>, n: nat) {
    && (forall k :: 0 <= k < |out| ==> out[k].arena < n && HandoffOk(next, out[k], s, arenaOf, clsOf))
    && (forall j, k :: 0 <= j < k < |out| ==> out[j].arena != out[k].arena || out[j].cls != out[k].cls)
    && (forall i: nat, c: nat {:trigger ListFor(s, arenaOf, clsOf, i, c)} ::
          i < n && ListFor(s, arenaOf, clsOf, i, c) != [] ==> Handed(out, i, c))
  }

  ghost predicate Handed(out: seq<Handoff>, i: nat, c: nat) {
    exists k :: 0 <= k < |out| && out[k].arena == i && out[k].cls == c
  }

  /** Every block is on the list of exactly one handoff, that of its own arena and class. */
  lemma RoutedAlone(next: map<int, int>, out: seq<Handoff>, s: seq<int>, arenaOf: map<int, nat>, clsOf: map<int, nat>, y: int)
    requires Routed(next, out, s, arenaOf, clsOf, NUM_ARENAS)
    requires y in s && y in arenaOf && arenaOf[y] < NUM_ARENAS && y in clsOf
    ensures exists k :: 0 <= k < |out| && y in ListFor(s, arenaOf, clsOf, out[k].arena, out[k].cls)
    ensures forall k :: 0 <= k < |out| && y in ListFor(s, arenaOf, clsOf, out[k].arena, out[k].cls) ==>
              out[k].arena == arenaOf[y] && out[k].cls == clsOf[y]
  {
    hide Pick;
    forall i: nat, c: nat {:trigger ListFor(s, arenaOf, clsOf, i, c)}
      ensures y in ListFor(s, arenaOf, clsOf, i, c) <==> i == arenaOf[y] && c == clsOf[y]
    {
      PickTwice(s, arenaOf, i, clsOf, c);
    }
    assert ListFor(s, arenaOf, clsOf, arenaOf[y], clsOf[y]) != [];
    assert Handed(out, arenaOf[y], clsOf[y]);
  }

  /** The arenas from `i` on still wait with their whole lists. */
  ghost predicate Waiting(next: map<int, int>, hs: seq<int>, s: seq<int>, arenaOf: map<int, nat>, i: nat) {
    forall j: nat {:trigger Pick(s, arenaOf, j)} :: i <= j < |hs| ==> Chain(next, hs[j], Pick(s, arenaOf, j), 0)
  }

  lemma NothingRouted(next: map<int, int>, s: seq<int>, arenaOf: map<int, nat>, clsOf: map<int, nat>)
    ensures Routed(next, [], s, arenaOf, clsOf, 0)
  {
  }

  lemma EmptyArena(next: map<int, int>, hs: seq<int>, out: seq<Handoff>, s: seq<int>, arenaOf: map<int, nat>, clsOf: map<int, nat>, i: nat)
    requires Routed(next, out, s, arenaOf, clsOf, i) && Waiting(next, hs, s, arenaOf, i) && i < |hs| && hs[i] == 0
    ensures Routed(next, out, s, arenaOf, clsOf, i + 1) && Waiting(next, hs, s, arenaOf, i + 1)
  {
    assert Chain(next, hs[i], Pick(s, arenaOf, i), 0);
    assert Pick(s, arenaOf, i) == [];
  }

  /** What the blocks of one arena do to the links, the others do not see. */
  lemma OthersWait(next: map<int, int>, next': map<int, int>, hs: seq<int>, out: seq<Handoff>, s: seq<int>,
                   arenaOf: map<int, nat>, clsOf: map<int, nat>, i: nat)
    requires Routed(next, out, s, arenaOf, clsOf, i) && Waiting(next, hs, s, arenaOf, i)
    requires forall y {:trigger y in Pick(s, arenaOf, i)} :: y in next && y !in Pick(s, arenaOf, i) ==> y in next' && next'[y] == next[y]
    ensures Routed(next', out, s, arenaOf, clsOf, i) && Waiting(next', hs, s, arenaOf, i + 1)
  {
    hide Pick, Chain;
    forall j: nat | i + 1 <= j < |hs| ensures Chain(next', hs[j], Pick(s, arenaOf, j), 0) {
      ChainKept(next, next', hs[j], Pick(s, arenaOf, j), s, arenaOf, i, j);
    }
    forall k | 0 <= k < |out| ensures HandoffOk(next', out[k], s, arenaOf, clsOf) {
      var h := out[k];
      assert HandoffOk(next, h, s, arenaOf, clsOf);
      forall y | y in ListFor(s, arenaOf, clsOf, h.arena, h.cls) ensures y in Pick(s, arenaOf, h.arena) {
        PickIn(Pick(s, arenaOf, h.arena), clsOf, h.cls, y);
      }
      ChainKept(next, next', h.head, ListFor(s, arenaOf, clsOf, h.arena, h.cls), s, arenaOf, i, h.arena);
    }
  }

  lemma ChainKept(next: map<int, int>, next': map<int, int>, h: int, l: seq<int>, s: seq<int>, arenaOf: map<int, nat>, i: nat, j: nat)
    requires Chain(next, h, l, 0) && i != j && forall y {:trigger y in l} :: y in l ==> y in Pick(s, arenaOf, j)
    requires forall y {:trigger y in Pick(s, arenaOf, i)} :: y in next && y !in Pick(s, arenaOf, i) ==> y in next' && next'[y] == next[y]
    ensures Chain(next', h, l, 0)
  {
    hide Pick;
    forall y {:trigger y in l} | y in l ensures y in next' && (y in next ==> next'[y] == next[y]) {
      PickIn(s, arenaOf, i, y);
      PickIn(s, arenaOf, j, y);
      assert y in next;
    }
    ChainFrame(next, next', h, l, 0);
  }

  function Handoffs(i: nat, present: seq<nat>, hs: seq<int>, ts: seq<int>): seq<Handoff>
    requires |hs| == |ts| && forall k :: 0 <= k < |present| ==> present[k] < |hs|
  {
    seq(|present|, k requires 0 <= k < |present| => Handoff(i, present[k], hs[present[k]], ts[present[k]]))
  }

  lemma PresentBelow(s: seq<int>, key: map<int, nat>, n: nat, k: nat)
    requires forall y {:trigger y in s} :: y in s && y in key ==> key[y] < n
    requires k < |Present(s, key)|
    ensures Present(s, key)[k] < n
  {
    PresentIs(s, key);
    var a := Present(s, key)[k];
    assert a in Present(s, key);
    PickIn(s, key, a, Pick(s, key, a)[0]);
  }

  /** The lists of arena `i`, as a split by class leaves them. */
  ghost predicate ByClass(next: map<int, int>, t: seq<int>, clsOf: map<int, nat>, present: seq<nat>, hs: seq<int>, ts: seq<int>) {
    && |hs| == |ts| && Lists(next, hs, ts, clsOf, t) && present == Present(t, clsOf)
    && (forall k :: 0 <= k < |present| ==> present[k] < |hs|)
  }

  lemma MoreOk(next: map<int, int>, s: seq<int>, arenaOf: map<int, nat>, clsOf: map<int, nat>, i: nat,
               present: seq<nat>, hs: seq<int>, ts: seq<int>, k: nat)
    requires ByClass(next, Pick(s, arenaOf, i), clsOf, present, hs, ts) && k < |present|
    ensures HandoffOk(next, Handoffs(i, present, hs, ts)[k], s, arenaOf, clsOf)
  {
    PresentIs(Pick(s, arenaOf, i), clsOf);
    hide Pick, Present, Chain;
    assert present[k] in present;
  }

  lemma MoreHanded(next: map<int, int>, out: seq<Handoff>, s: seq<int>, arenaOf: map<int, nat>, clsOf: map<int, nat>, i: nat,
                   present: seq<nat>, hs: seq<int>, ts: seq<int>, a: nat, c: nat)
    requires Routed(next, out, s, arenaOf, clsOf, i) && ByClass(next, Pick(s, arenaOf, i), clsOf, present, hs, ts)
    requires a < i + 1 && ListFor(s, arenaOf, clsOf, a, c) != []
    ensures Handed(out + Handoffs(i, present, hs, ts), a, c)
  {
    PresentIs(Pick(s, arenaOf, i), clsOf);
    hide Pick, Present, Chain;
    var out' := out + Handoffs(i, present, hs, ts);
    if a == i {
      assert c in present;
      var k :| 0 <= k < |present| && present[k] == c;
      assert out'[|out| + k].arena == i && out'[|out| + k].cls == c;
    } else {
      assert Handed(out, a, c);
      var k :| 0 <= k < |out| && out[k].arena == a && out[k].cls == c;
      assert out'[k] == out[k];
    }
  }

  lemma MoreDistinct(next: map<int, int>, out: seq<Handoff>, s: seq<int>, arenaOf: map<int, nat>, clsOf: map<int, nat>, i: nat,
                     present: seq<nat>, hs: seq<int>, ts: seq<int>, j: nat, k: nat)
    requires Routed(next, out, s, arenaOf, clsOf, i) && ByClass(next, Pick(s, arenaOf, i), clsOf, present, hs, ts)
    requires j < k < |out| + |present|
    ensures var out' := out + Handoffs(i, present, hs, ts); out'[j].arena != out'[k].arena || out'[j].cls != out'[k].cls
  {
    PresentIs(Pick(s, arenaOf, i), clsOf);
    hide Pick, Present, Chain, Lists, HandoffOk;
  }

  lemma ArenaRouted(next: map<int, int>, out: seq<Handoff>, s: seq<int>, arenaOf: map<int, nat>, clsOf: map<int, nat>, i: nat,
                    present: seq<nat>, hs: seq<int>, ts: seq<int>)
    requires Routed(next, out, s, arenaOf, clsOf, i) && ByClass(next, Pick(s, arenaOf, i), clsOf, present, hs, ts)
    ensures Routed(next, out + Handoffs(i, present, hs, ts), s, arenaOf, clsOf, i + 1)
  {
    hide Pick, Present, Chain, Lists, HandoffOk, ListFor, Handed;
    var more := Handoffs(i, present, hs, ts);
    var out' := out + more;
    forall k | 0 <= k < |out'| ensures out'[k].arena < i + 1 && HandoffOk(next, out'[k], s, arenaOf, clsOf) {
      if k < |out| {
        assert out'[k] == out[k];
      } else {
        assert out'[k] == more[k - |out|];
        MoreOk(next, s, arenaOf, clsOf, i, present, hs, ts, k - |out|);
      }
    }
    forall j, k | 0 <= j < k < |out'| ensures out'[j].arena != out'[k].arena || out'[j].cls != out'[k].cls {
      MoreDistinct(next, out, s, arenaOf, clsOf, i, present, hs, ts, j, k);
    }
    forall a: nat, c: nat {:trigger ListFor(s, arenaOf, clsOf, a, c)} | a < i + 1 && ListFor(s, arenaOf, clsOf, a, c) != []
      ensures Handed(out', a, c)
    {
      MoreHanded(next, out, s, arenaOf, clsOf, i, present, hs, ts, a, c);
    }
  }

  class Blocks {
    var next: map<int, int>

    /** `SplitListByArena`, and each of the two phases of `DeallocateBatch`: a stable partition in place.
        No link check fires. */
    method Split(head: int, key: map<int, nat>, heads: array<int>, tails: array<int>, ghost s: seq<int>)
      returns (present: seq<nat>)
      requires Chain(next, head, s, 0) && NoDup(s) && heads != tails && heads.Length == tails.Length
      requires forall y {:trigger y in s} :: y in s ==> Plausible(y) && y in key && key[y] < heads.Length
      modifies this, heads, tails
      ensures Lists(next, heads[..], tails[..], key, s) && present == Present(s, key)
      ensures forall y {:trigger y in s} :: y in old(next) && y !in s ==> y in next && next[y] == old(next)[y]
    {
      hide Lists, Chain, Linked, Pick, Present;
      for a := 0 to heads.Length
        invariant forall b :: 0 <= b < a ==> heads[b] == 0 && tails[b] == 0
        invariant unchanged(this)
      {
        heads[a], tails[a] := 0, 0;
      }
      NothingYet(next, heads[..], tails[..], key);
      present := [];
      var curr := head;
      ghost var i := 0;
      assert s[0..] == s && s[..0] == [];
      ChainHead(next, curr, s[i..]);
      while curr != 0
        invariant 0 <= i <= |s| && Chain(next, curr, s[i..], 0) && (curr == 0 <==> i == |s|) && (i < |s| ==> curr == s[i])
        invariant Lists(next, heads[..], tails[..], key, s[..i]) && present == Present(s[..i], key)
        invariant forall y {:trigger y in s} :: y in old(next) && y !in s ==> y in next && next[y] == old(next)[y]
        decreases |s| - i
      {
        assert curr in s;
        if !Plausible(curr) { assert false; }
        InNext(next, curr, s[i..]);
        var following, a := next[curr], key[curr];
        SplitStep(next, heads[..], tails[..], key, s, i);
        forall y {:trigger y in s} | y in next && y !in s
          ensures var next' := Linked(next, Pick(s[..i], key, a), curr); y in next' && next'[y] == next[y]
        {
          SplitFrame(next, s, key, i, y);
        }
        PresentNext(s, key, i);
        LinkedIs(next, Pick(s[..i], key, a), curr);
        ghost var hs, ts := heads[..], tails[..];
        if heads[a] == 0 {
          heads[a], tails[a] := curr, curr;
          present := present + [a];
        } else {
          next := next[tails[a] := curr];
          tails[a] := curr;
        }
        next := next[curr := 0];
        assert heads[..] == hs[a := if hs[a] == 0 then curr else hs[a]] && tails[..] == ts[a := curr];
        curr := following;
        i := i + 1;
        ChainHead(next, curr, s[i..]);
      }
      assert s[..i] == s;
    }

    /** The lists of one arena, class by class in the order the classes were met. */
    method RouteArena(i: nat, head: int, clsOf: map<int, nat>, before: seq<Handoff>,
                      ghost s: seq<int>, ghost arenaOf: map<int, nat>, ghost hs: seq<int>) returns (out: seq<Handoff>)
      requires NoDup(s) && i < |hs| && head == hs[i]
      requires Routed(next, before, s, arenaOf, clsOf, i) && Waiting(next, hs, s, arenaOf, i)
      requires forall y {:trigger y in s} :: y in s ==> Plausible(y) && y in clsOf && clsOf[y] < NUM_SIZE_CLASSES
      modifies this
      ensures Routed(next, out, s, arenaOf, clsOf, i + 1) && Waiting(next, hs, s, arenaOf, i + 1)
      ensures forall y {:trigger y in s} :: y in old(next) && y !in s ==> y in next && next[y] == old(next)[y]
    {
      hide Pick, Present, Chain, Routed, Plausible, Lists;
      ghost var t := Pick(s, arenaOf, i);
      PickNoDup(s, arenaOf, i);
      forall y ensures y in t ==> y in s { PickIn(s, arenaOf, i, y); }
      var heads, tails := new int[NUM_SIZE_CLASSES], new int[NUM_SIZE_CLASSES];
      var present := Split(head, clsOf, heads, tails, t);
      OthersWait(old(next), next, hs, before, s, arenaOf, clsOf, i);
      forall k | 0 <= k < |present| ensures present[k] < NUM_SIZE_CLASSES { PresentBelow(t, clsOf, NUM_SIZE_CLASSES, k); }
      ArenaRouted(next, before, s, arenaOf, clsOf, i, present, heads[..], tails[..]);
      out := before;
      label Done:
      for pi := 0 to |present|
        invariant next == old@Done(next) && heads[..] == old@Done(heads[..]) && tails[..] == old@Done(tails[..])
        invariant out == before + Handoffs(i, present[..pi], heads[..], tails[..])
      {
        var c := present[pi];
        assert present[..pi + 1] == present[..pi] + [c];
        out := out + [Handoff(i, c, heads[c], tails[c])];
      }
      assert present[..|present|] == present;
    }

    /** `DeallocateBatch`: every block ends up on the list for its own arena and class. */
    method Route(head: int, arenaOf: map<int, nat>, clsOf: map<int, nat>, ghost s: seq<int>) returns (out: seq<Handoff>)
      requires Chain(next, head, s, 0) && NoDup(s)
      requires forall y {:trigger y in s} :: y in s ==>
                 Plausible(y) && y in arenaOf && arenaOf[y] < NUM_ARENAS && y in clsOf && clsOf[y] < NUM_SIZE_CLASSES
      modifies this
      ensures Routed(next, out, s, arenaOf, clsOf, NUM_ARENAS)
      ensures forall y {:trigger y in s} :: y in old(next) && y !in s ==> y in next && next[y] == old(next)[y]
    {
      hide Chain, Pick, Routed, Plausible, Present;
      var heads, tails := new int[NUM_ARENAS], new int[NUM_ARENAS];
      var _ := Split(head, arenaOf, heads, tails, s);
      out := [];
      NothingRouted(next, s, arenaOf, clsOf);
      ghost var hs := heads[..];
      assert Waiting(next, hs, s, arenaOf, 0);
      hide Lists, Waiting;
      for i := 0 to NUM_ARENAS
        invariant heads[..] == hs
        invariant Waiting(next, hs, s, arenaOf, i) && Routed(next, out, s, arenaOf, clsOf, i)
        invariant forall y {:trigger y in s} :: y in old(next) && y !in s ==> y in next && next[y] == old(next)[y]
      {
        if heads[i] != 0 {
          out := RouteArena(i, heads[i], clsOf, out, s, arenaOf, hs);
        } else {
          EmptyArena(next, hs, out, s, arenaOf, clsOf, i);
        }
      }
    }
  }

  lemma NothingYet(next: map<int, int>, hs: seq<int>, ts: seq<int>, key: map<int, nat>)
    requires |hs| == |ts| && forall b :: 0 <= b < |hs| ==> hs[b] == 0 && ts[b] == 0
    ensures Lists(next, hs, ts, key, []) && Present([], key) == []
  {
  }

  lemma ChainHead(next: map<int, int>, p: int, s: seq<int>)
    requires Chain(next, p, s, 0)
    ensures (p == 0 <==> |s| == 0) && (|s| > 0 ==> p == s[0])
  {
  }

  lemma InNext(next: map<int, int>, p: int, s: seq<int>)
    requires Chain(next, p, s, 0) && |s| > 0
    ensures p in next
  {
  }

  lemma LinkedIs(next: map<int, int>, l: seq<int>, y: int)
    ensures Linked(next, l, y) == (if |l| == 0 then next else next[Last(l) := y])[y := 0]
  {
  }
}
