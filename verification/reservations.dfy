/**
 The reservation registry of the Windows layer (src/os_memory.cpp): one reservation
 per span mapped, given back piece by piece.  Whether a decommit succeeds is a parameter.
 */
module Reservations {
  import opened Ranges

  /** A reservation: its first byte, its size and the bytes not yet decommitted. */
  datatype Region = Region(base: int, size: nat, live: nat)

  /** Ordered by base, one after the other. */
  predicate Ordered(regions: seq<Region>) {
    && (forall i :: 0 <= i < |regions| ==> regions[i].size > 0)
    && (forall i, j :: 0 <= i < j < |regions| ==> regions[i].base + regions[i].size <= regions[j].base)
  }

  function Bytes(r: Region): set<int> {
    Range(r.base, r.size)
  }

  /** The region holds all of the `size` bytes at `p`. */
  predicate Holds(r: Region, p: int, size: nat) {
    r.base <= p && p + size <= r.base + r.size
  }

  datatype Option<T> = None | Some(value: T)

  ghost predicate Known(regions: seq<Region>, b: int) {
    exists i :: 0 <= i < |regions| && regions[i].base == b
  }

  /** Each region counts its committed bytes, has some, and none are committed elsewhere. */
  ghost predicate Exact(regions: seq<Region>, committed: set<int>) {
    && Ordered(regions)
    && (forall i {:trigger regions[i]} :: 0 <= i < |regions| ==> 1 <= regions[i].live == |committed * Bytes(regions[i])|)
    && (forall a {:trigger a in committed} :: a in committed ==> Owned(regions, a))
  }

  ghost predicate Owned(regions: seq<Region>, a: int) {
    exists i :: 0 <= i < |regions| && a in Bytes(regions[i])
  }

  /** Each reservation is released once, or is still known. */
  ghost predicate Balanced(regions: seq<Region>, added: multiset<int>, released: multiset<int>) {
    forall b: int {:trigger added[b]} :: added[b] == released[b] + if Known(regions, b) then 1 else 0
  }

  // ----- Sets of bytes ------------------------------------------------------------

  lemma RangeIn(b: int, n: nat, b': int, n': nat)
    requires b' <= b && b + n <= b' + n'
    ensures Range(b, n) <= Range(b', n')
  {
    forall i | i in Range(b, n) ensures i in Range(b', n') { assert Within(i, b', n'); }
  }

  lemma RangesApart(b: int, n: nat, b': int, n': nat)
    requires b + n <= b' || b' + n' <= b
    ensures Range(b, n) !! Range(b', n')
  {
  }

  /** Decommitting bytes of a region lowers its count by their number. */
  lemma Fewer(committed: set<int>, r: Region, p: int, size: nat)
    requires Holds(r, p, size) && Range(p, size) <= committed
    ensures |(committed - Range(p, size)) * Bytes(r)| == |committed * Bytes(r)| - size
    ensures size <= |committed * Bytes(r)|
    ensures size == |committed * Bytes(r)| <==> committed * Bytes(r) == Range(p, size)
  {
    hide Range;
    var part, whole := Range(p, size), committed * Bytes(r);
    RangeIn(p, size, r.base, r.size);
    RangeSize(p, size);
    Remove(whole, part);
    assert (committed - part) * Bytes(r) == whole - part;
    if size == |whole| {
      assert whole - part == {};
      assert whole == part;
    }
  }

  /** It leaves the counts of the other regions alone. */
  lemma Others(committed: set<int>, o: Region, p: int, size: nat)
    requires p + size <= o.base || o.base + o.size <= p
    ensures (committed - Range(p, size)) * Bytes(o) == committed * Bytes(o)
    ensures (committed + Range(p, size)) * Bytes(o) == committed * Bytes(o)
  {
    RangesApart(p, size, o.base, o.size);
  }

  lemma Lowered(regions: seq<Region>, committed: set<int>, k: nat, p: int, size: nat)
    requires Exact(regions, committed) && k < |regions| && Holds(regions[k], p, size) && Range(p, size) <= committed
    requires committed * Bytes(regions[k]) != Range(p, size)
    ensures size < regions[k].live
    ensures Exact(regions[k := regions[k].(live := regions[k].live - size)], committed - Range(p, size))
  {
    hide Range, Owned;
    Fewer(committed, regions[k], p, size);
    var regions', committed' := regions[k := regions[k].(live := regions[k].live - size)], committed - Range(p, size);
    forall i | 0 <= i < |regions'| ensures 1 <= regions'[i].live == |committed' * Bytes(regions'[i])| {
      if i != k { Others(committed, regions[i], p, size); }
    }
    forall a | a in committed' ensures Owned(regions', a) { StillOwned(regions, regions', a); }
  }

  lemma StillOwned(regions: seq<Region>, regions': seq<Region>, a: int)
    requires |regions'| == |regions| && Owned(regions, a)
    requires forall i :: 0 <= i < |regions| ==> Bytes(regions'[i]) == Bytes(regions[i])
    ensures Owned(regions', a)
  {
    var i :| 0 <= i < |regions| && a in Bytes(regions[i]);
    assert a in Bytes(regions'[i]);
  }

  /** When the last committed bytes of a region go, the region goes. */
  lemma Dropped(regions: seq<Region>, committed: set<int>, k: nat, p: int, size: nat)
    requires Exact(regions, committed) && k < |regions| && Holds(regions[k], p, size)
    requires committed * Bytes(regions[k]) == Range(p, size)
    ensures Exact(regions[..k] + regions[k + 1..], committed - Range(p, size))
  {
    hide Range, Owned;
    var regions', committed' := regions[..k] + regions[k + 1..], committed - Range(p, size);
    assert forall i :: 0 <= i < |regions'| ==> regions'[i] == regions[if i < k then i else i + 1];
    forall i | 0 <= i < |regions'| ensures 1 <= regions'[i].live == |committed' * Bytes(regions'[i])| {
      Others(committed, regions'[i], p, size);
    }
    forall a | a in committed' ensures Owned(regions', a) {
      assert Owned(regions, a) && a !in Bytes(regions[k]);
      OwnedWithout(regions, k, a);
    }
  }

  lemma OwnedWithout(regions: seq<Region>, k: nat, a: int)
    requires k < |regions| && Owned(regions, a) && a !in Bytes(regions[k])
    ensures Owned(regions[..k] + regions[k + 1..], a)
  {
    hide Bytes;
    var i :| 0 <= i < |regions| && a in Bytes(regions[i]);
    var regions' := regions[..k] + regions[k + 1..];
    assert regions'[if i < k then i else i - 1] == regions[i];
  }

  lemma BalancedWith(regions: seq<Region>, regions': seq<Region>, added: multiset<int>, released: multiset<int>, base: int)
    requires Balanced(regions, added, released) && !Known(regions, base)
    requires forall b: int {:trigger Known(regions', b)} :: Known(regions', b) <==> Known(regions, b) || b == base
    ensures Balanced(regions', added + multiset{base}, released)
  {
    hide Known;
    forall b: int ensures (added + multiset{base})[b] == released[b] + if Known(regions', b) then 1 else 0 {
      assert added[b] == released[b] + if Known(regions, b) then 1 else 0;
    }
  }

  lemma BalancedWithout(regions: seq<Region>, regions': seq<Region>, added: multiset<int>, released: multiset<int>, base: int)
    requires Balanced(regions, added, released) && Known(regions, base)
    requires forall b: int {:trigger Known(regions', b)} :: Known(regions', b) <==> Known(regions, b) && b != base
    ensures Balanced(regions', added, released + multiset{base})
  {
    hide Known;
    forall b: int ensures added[b] == (released + multiset{base})[b] + if Known(regions', b) then 1 else 0 {
      assert added[b] == released[b] + if Known(regions, b) then 1 else 0;
    }
  }

  lemma BalancedSame(regions: seq<Region>, regions': seq<Region>, added: multiset<int>, released: multiset<int>)
    requires Balanced(regions, added, released)
    requires forall b: int {:trigger Known(regions', b)} :: Known(regions', b) <==> Known(regions, b)
    ensures Balanced(regions', added, released)
  {
    hide Known;
    forall b: int ensures added[b] == released[b] + if Known(regions', b) then 1 else 0 {
      assert added[b] == released[b] + if Known(regions, b) then 1 else 0;
    }
  }

  lemma Unlisted(regions: seq<Region>, k: nat, b: int)
    requires Ordered(regions) && k < |regions|
    ensures Known(regions[..k] + regions[k + 1..], b) <==> Known(regions, b) && b != regions[k].base
  {
    var regions' := regions[..k] + regions[k + 1..];
    assert forall i :: 0 <= i < |regions'| ==> regions'[i] == regions[if i < k then i else i + 1];
    if Known(regions, b) && b != regions[k].base {
      var i :| 0 <= i < |regions| && regions[i].base == b;
      assert regions'[if i < k then i else i - 1].base == b;
    }
  }

  lemma Listed(regions: seq<Region>, k: nat, r: Region, b: int)
    requires k <= |regions|
    ensures Known(regions[..k] + [r] + regions[k..], b) <==> Known(regions, b) || b == r.base
  {
    var regions' := regions[..k] + [r] + regions[k..];
    assert regions'[k] == r;
    assert forall i :: 0 <= i < |regions| ==> regions'[if i < k then i else i + 1] == regions[i];
  }

  /** A fresh reservation, all of it committed, at its place in the order. */
  lemma Inserted(regions: seq<Region>, committed: set<int>, k: nat, base: int, size: nat)
    requires Exact(regions, committed) && k <= |regions| && size > 0
    requires forall i :: 0 <= i < k ==> regions[i].base + regions[i].size <= base
    requires forall i :: k <= i < |regions| ==> base + size <= regions[i].base
    ensures Exact(regions[..k] + [Region(base, size, size)] + regions[k..], committed + Range(base, size))
  {
    hide Range, Owned;
    var r := Region(base, size, size);
    var regions', committed' := regions[..k] + [r] + regions[k..], committed + Range(base, size);
    assert forall i :: 0 <= i < |regions'| && i != k ==> regions'[i] == regions[if i < k then i else i - 1];
    assert committed' * Bytes(r) == Bytes(r);
    RangeSize(base, size);
    forall i | 0 <= i < |regions'| ensures 1 <= regions'[i].live == |committed' * Bytes(regions'[i])| {
      if i != k { Others(committed, regions'[i], base, size); }
    }
    forall a | a in committed' ensures Owned(regions', a) { OwnedWith(regions, k, r, a); }
  }

  lemma OwnedWith(regions: seq<Region>, k: nat, r: Region, a: int)
    requires k <= |regions| && (Owned(regions, a) || a in Bytes(r))
    ensures Owned(regions[..k] + [r] + regions[k..], a)
  {
    hide Bytes;
    var regions' := regions[..k] + [r] + regions[k..];
    assert regions'[k] == r;
    assert forall i :: 0 <= i < |regions| ==> regions'[if i < k then i else i + 1] == regions[i];
  }

  class Registry {
    var regions: seq<Region>
    /** The bytes committed now; the bases reserved and released so far. */
    ghost var committed: set<int>
    ghost var added: multiset<int>
    ghost var released: multiset<int>

    ghost predicate Valid()
      reads this
    {
      Exact(regions, committed) && Balanced(regions, added, released)
    }

    constructor ()
      ensures Valid() && regions == [] && committed == {} && added == released == multiset{}
    {
      regions, committed, added, released := [], {}, multiset{}, multiset{};
    }

    /** The region that holds a span, found as the last one that starts at or before it. */
    method FindRegion(p: int, size: nat) returns (k: Option<nat>)
      requires Ordered(regions) && size > 0
      ensures k.Some? ==> k.value < |regions| && Holds(regions[k.value], p, size)
      ensures k.None? ==> forall i :: 0 <= i < |regions| ==> !Holds(regions[i], p, size)
    {
      var above := 0;
      while above < |regions| && regions[above].base <= p
        invariant 0 <= above <= |regions|
        invariant forall i :: 0 <= i < above ==> regions[i].base <= p
      {
        above := above + 1;
      }
      if above == 0 { return None; }
      if p + size > regions[above - 1].base + regions[above - 1].size { return None; }
      k := Some(above - 1);
    }

    /** A fresh reservation is tracked whole. */
    method Add(base: int, size: nat)
      requires Valid() && size > 0
      requires forall i :: 0 <= i < |regions| ==>
                 base + size <= regions[i].base || regions[i].base + regions[i].size <= base
      modifies this
      ensures Valid() && committed == old(committed) + Range(base, size)
      ensures added == old(added) + multiset{base} && released == old(released)
      ensures exists k :: 0 <= k <= |old(regions)| && regions == old(regions)[..k] + [Region(base, size, size)] + old(regions)[k..]
    {
      hide Exact, Balanced, Range;
      var k := 0;
      while k < |regions| && regions[k].base <= base
        invariant 0 <= k <= |regions| && unchanged(this)
        invariant forall i :: 0 <= i < k ==> regions[i].base <= base
      {
        k := k + 1;
      }
      ghost var was := regions;
      regions := regions[..k] + [Region(base, size, size)] + regions[k..];
      AddKeeps(was, committed, added, released, k, base, size);
      committed := committed + Range(base, size);
      added := added + multiset{base};
    }

    /** A span is given back: its bytes are decommitted, and the whole reservation is released exactly
        when these were its last committed bytes.  An unknown span is ignored. */
    method ReleaseSpan(p: int, size: nat, decommits: bool) returns (gone: Option<int>)
      requires Valid()
      requires p != 0 && size > 0 ==>
                 forall i :: 0 <= i < |regions| && Holds(regions[i], p, size) ==> Range(p, size) <= committed
      modifies this
      ensures Valid() && added == old(added)
      ensures released == old(released) + if gone.Some? then multiset{gone.value} else multiset{}
      ensures p == 0 || size == 0 ==> gone.None? && committed == old(committed) && regions == old(regions)
      ensures p != 0 && size > 0 && (forall i :: 0 <= i < |old(regions)| ==> !Holds(old(regions)[i], p, size)) ==>
                gone.None? && committed == old(committed) && regions == old(regions)
      ensures gone.None? ==> SamePlaces(old(regions), regions)
      ensures forall i :: p != 0 && size > 0 && 0 <= i < |old(regions)| && Holds(old(regions)[i], p, size) ==>
                Released(old(regions)[i], old(committed), committed, p, size, decommits, gone)
    {
      hide Exact, Balanced, Range, Bytes;
      if p == 0 || size == 0 { return None; }
      InOrder(regions, committed);
      var found := FindRegion(p, size);
      if found.None? { return None; }
      var k := found.value;
      OnlyHolder(regions, k, p, size);
      var r := regions[k];
      Counted(regions, committed, k);
      Fewer(committed, r, p, size);
      if p == r.base && size == r.size && r.live == r.size {
        BytesAre(r);
        Dropped(regions, committed, k, p, size);
        DropRegion(k, p, size);
        return Some(r.base);
      }
      if !decommits {
        NotWhole(committed, r, p, size);
        return None;
      }
      var live := if r.live >= size then r.live - size else 0;
      if live == 0 {
        Dropped(regions, committed, k, p, size);
        DropRegion(k, p, size);
        return Some(r.base);
      }
      Lowered(regions, committed, k, p, size);
      SameBases(regions, added, released, k, live);
      regions := regions[k := r.(live := live)];
      committed := committed - Range(p, size);
      return None;
    }

    /** Hand the reservation back to the operating system and forget it. */
    method DropRegion(k: nat, ghost p: int, ghost size: nat)
      requires Valid() && k < |regions|
      requires Exact(regions[..k] + regions[k + 1..], committed - Range(p, size))
      modifies this
      ensures Valid() && added == old(added) && committed == old(committed) - Range(p, size)
      ensures regions == old(regions)[..k] + old(regions)[k + 1..]
      ensures released == old(released) + multiset{old(regions)[k].base}
    {
      hide Exact, Balanced, Range;
      InOrder(regions, committed);
      DropKeeps(regions, added, released, k);
      released := released + multiset{regions[k].base};
      committed := committed - Range(p, size);
      regions := regions[..k] + regions[k + 1..];
    }

    /** The tail of a span is decommitted; the caller keeps the head. */
    method DecommitRange(p: int, size: nat, decommits: bool)
      requires Valid()
      requires p != 0 && size > 0 ==>
                 forall i :: 0 <= i < |regions| && Holds(regions[i], p, size) ==>
                   Range(p, size) <= committed && committed * Bytes(regions[i]) != Range(p, size)
      modifies this
      ensures Valid() && added == old(added) && released == old(released)
      ensures committed == if p != 0 && size > 0 && decommits && (exists i :: 0 <= i < |old(regions)| && Holds(old(regions)[i], p, size))
                           then old(committed) - Range(p, size) else old(committed)
    {
      hide Exact, Balanced, Range, Bytes;
      if p == 0 || size == 0 { return; }
      InOrder(regions, committed);
      var found := FindRegion(p, size);
      if found.None? { return; }
      var k := found.value;
      if !decommits { return; }
      Lowered(regions, committed, k, p, size);
      var r := regions[k];
      var live := if r.live >= size then r.live - size else 0;
      SameBases(regions, added, released, k, live);
      regions := regions[k := r.(live := live)];
      committed := committed - Range(p, size);
    }
  }

  lemma AddKeeps(regions: seq<Region>, committed: set<int>, added: multiset<int>, released: multiset<int>, k: nat, base: int, size: nat)
    requires Exact(regions, committed) && Balanced(regions, added, released) && k <= |regions| && size > 0
    requires forall i :: 0 <= i < |regions| ==> base + size <= regions[i].base || regions[i].base + regions[i].size <= base
    requires (forall i :: 0 <= i < k ==> regions[i].base <= base) && (k < |regions| ==> base < regions[k].base)
    ensures var regions' := regions[..k] + [Region(base, size, size)] + regions[k..];
            Exact(regions', committed + Range(base, size)) && Balanced(regions', added + multiset{base}, released)
  {
    hide Balanced, Owned, Range;
    var r := Region(base, size, size);
    var regions' := regions[..k] + [r] + regions[k..];
    Inserted(regions, committed, k, base, size);
    forall b: int ensures Known(regions', b) <==> Known(regions, b) || b == base {
      Listed(regions, k, r, b);
    }
    assert !Known(regions, base);
    BalancedWith(regions, regions', added, released, base);
  }

  lemma DropKeeps(regions: seq<Region>, added: multiset<int>, released: multiset<int>, k: nat)
    requires Ordered(regions) && Balanced(regions, added, released) && k < |regions|
    ensures Balanced(regions[..k] + regions[k + 1..], added, released + multiset{regions[k].base})
  {
    hide Balanced;
    var regions' := regions[..k] + regions[k + 1..];
    forall b: int ensures Known(regions', b) <==> Known(regions, b) && b != regions[k].base {
      Unlisted(regions, k, b);
    }
    assert Known(regions, regions[k].base);
    BalancedWithout(regions, regions', added, released, regions[k].base);
  }

  /** The same reservations. */
  ghost predicate SamePlaces(regions: seq<Region>, regions': seq<Region>) {
    |regions'| == |regions| && forall i :: 0 <= i < |regions| ==> regions'[i].base == regions[i].base && regions'[i].size == regions[i].size
  }

  /** What giving back a span of region `r` does: nothing is decommitted if the decommit fails, unless the
      span is the whole untouched reservation, which is released without one. */
  ghost predicate Released(r: Region, before: set<int>, after: set<int>, p: int, size: nat, decommits: bool, gone: Option<int>) {
    var freed := decommits || Range(p, size) == Bytes(r);
    && after == (if freed then before - Range(p, size) else before)
    && gone == if freed && before * Bytes(r) == Range(p, size) then Some(r.base) else None
  }

  lemma OnlyHolder(regions: seq<Region>, k: nat, p: int, size: nat)
    requires Ordered(regions) && k < |regions| && Holds(regions[k], p, size) && size > 0
    ensures forall i :: 0 <= i < |regions| && Holds(regions[i], p, size) ==> i == k
  {
  }

  /** A span that is the whole region takes all its committed bytes. */
  lemma NotWhole(committed: set<int>, r: Region, p: int, size: nat)
    requires Holds(r, p, size) && size > 0 && Range(p, size) <= committed && r.live == |committed * Bytes(r)|
    requires !(p == r.base && size == r.size && r.live == r.size)
    ensures Range(p, size) != Bytes(r)
  {
    RangeSize(p, size);
    RangeSize(r.base, r.size);
    assert Range(p, size) == Bytes(r) ==> committed * Bytes(r) == Bytes(r);
  }

  lemma SameBases(regions: seq<Region>, added: multiset<int>, released: multiset<int>, k: nat, live: nat)
    requires k < |regions| && Balanced(regions, added, released)
    ensures Balanced(regions[k := regions[k].(live := live)], added, released)
  {
    hide Balanced;
    var regions' := regions[k := regions[k].(live := live)];
    assert forall i :: 0 <= i < |regions| ==> regions'[i].base == regions[i].base;
    forall b: int ensures Known(regions', b) <==> Known(regions, b) {
    }
    BalancedSame(regions, regions', added, released);
  }

  lemma BytesAre(r: Region)
    ensures Bytes(r) == Range(r.base, r.size)
  {
  }

  lemma InOrder(regions: seq<Region>, committed: set<int>)
    requires Exact(regions, committed)
    ensures Ordered(regions)
  {
  }

  lemma Counted(regions: seq<Region>, committed: set<int>, k: nat)
    requires Exact(regions, committed) && k < |regions|
    ensures 1 <= regions[k].live == |committed * Bytes(regions[k])|
  {
  }

  /** A reservation in two spans: if giving back the last one fails to decommit, the reservation stays, although
      every span of it has been given back. */
  method LeftBehind(base: int, a: nat, b: nat) returns (registry: Registry)
    requires base > 0 && a > 0 && b > 0
    ensures fresh(registry) && registry.Valid() && Known(registry.regions, base)
    ensures registry.committed == Range(base + a, b) && registry.released == multiset{}
  {
    hide Exact, Range;
    registry := new Registry();
    registry.Add(base, a + b);
    assert registry.regions == [Region(base, a + b, a + b)];
    Halves(base, a, b);
    var first := registry.ReleaseSpan(base, a, true);
    assert registry.regions[0].base == base;
    var last := registry.ReleaseSpan(base + a, b, false);
    assert registry.regions[0].base == base;
  }

  lemma Halves(base: int, a: nat, b: nat)
    requires a > 0 && b > 0
    ensures Range(base, a) <= Range(base, a + b) && Range(base, a + b) - Range(base, a) == Range(base + a, b)
    ensures Range(base, a + b) * Range(base, a + b) != Range(base, a)
    ensures Range(base + a, b) != Range(base, a + b)
  {
    RangeIn(base, a, base, a + b);
    assert Within(base, base, a + b) && Within(base + a, base, a + b);
    assert base + a in Range(base, a + b) && base + a !in Range(base, a);
    assert base in Range(base, a + b) && base !in Range(base + a, b);
    forall x {:trigger x in Range(base + a, b)} ensures x in Range(base, a + b) - Range(base, a) <==> x in Range(base + a, b) {
      assert Within(x, base, a + b) || !Within(x, base, a + b);
      assert Within(x, base + a, b) || !Within(x, base + a, b);
    }
  }
}
