/**
 A thread's cache of large spans (src/tls_cache.cpp, src/tls_cache.h): free spans by
 power-of-two size class.  What the global heap answers on a miss is a parameter.
 */
module LargeCache {
  import opened Bits
  import opened Config

  const NUM_LARGE_CLASSES: nat := 64
  const LARGE_CLASS_BASE: nat := 12

  /** The index of the highest bit set. */
  function Log2(n: nat): nat
    requires n > 0
  {
    if n == 1 then 0 else Log2(n / 2) + 1
  }

  lemma {:induction false} Log2Is(n: nat)
    requires n > 0
    ensures Two(Log2(n)) <= n < Two(Log2(n) + 1)
  {
    if n > 1 { Log2Is(n / 2); }
  }

  lemma {:induction false} TwoMonotone(i: nat, j: nat)
    requires i <= j
    ensures Two(i) <= Two(j)
  {
    if i < j { TwoMonotone(i, j - 1); }
  }

  function LargeSizeToClass(size: nat): nat {
    if size <= Two(LARGE_CLASS_BASE) then 0
    else
      TwoPositive(LARGE_CLASS_BASE);
      BigLog(size - 1);
      var cls := Log2(size - 1) - LARGE_CLASS_BASE + 1;
      if cls < NUM_LARGE_CLASSES then cls else NUM_LARGE_CLASSES - 1
  }

  lemma BigLog(n: nat)
    requires n > 0 && n >= Two(LARGE_CLASS_BASE)
    ensures Log2(n) >= LARGE_CLASS_BASE
  {
    hide Two;
    Log2Is(n);
    if Log2(n) < LARGE_CLASS_BASE { TwoMonotone(Log2(n) + 1, LARGE_CLASS_BASE); }
  }

  /** The sizes of a class: up to a page, or a power-of-two bracket above it. */
  predicate InClass(size: nat, cls: nat) {
    if cls == 0 then size <= Two(LARGE_CLASS_BASE)
    else Two(cls + LARGE_CLASS_BASE - 1) < size <= Two(cls + LARGE_CLASS_BASE)
  }

  /** Every 64-bit size falls in the bracket of its class; the last classes stay unused. */
  lemma ClassBracket(size: nat)
    requires size < Two(64)
    ensures LargeSizeToClass(size) < 53 && InClass(size, LargeSizeToClass(size))
  {
    hide Two;
    if size > Two(LARGE_CLASS_BASE) {
      TwoPositive(LARGE_CLASS_BASE);
      var k := Log2(size - 1);
      Log2Is(size - 1);
      BigLog(size - 1);
      if k >= 64 { TwoMonotone(64, k); }
    }
  }

  /** No size is in two classes. */
  lemma ClassUnique(size: nat, c: nat, d: nat)
    requires InClass(size, c) && InClass(size, d)
    ensures c == d
  {
    hide Two;
    if c < d {
      TwoMonotone(c + LARGE_CLASS_BASE, d + LARGE_CLASS_BASE - 1);
    } else if d < c {
      TwoMonotone(d + LARGE_CLASS_BASE, c + LARGE_CLASS_BASE - 1);
    }
  }

  lemma Quotient(a: nat, b: nat, q: nat)
    requires b > 0 && q == a / b
    ensures forall n: nat {:trigger n * b} :: n <= q ==> n * b <= a
    ensures forall n: nat {:trigger (n + 1) * b} :: q <= n ==> a < (n + 1) * b
  {
    assert q * b <= a < (q + 1) * b;
    forall n: nat {:trigger n * b} | n <= q ensures n * b <= a { assert n * b <= q * b; }
    forall n: nat {:trigger (n + 1) * b} | q <= n ensures a < (n + 1) * b { assert (q + 1) * b <= (n + 1) * b; }
  }

  /** How many spans of a size a class keeps: 2 MB worth, at least 4 and at most 64. */
  function MaxLargeCacheSize(size: nat): (n: nat)
    ensures 4 <= n <= 64
    ensures size > 0 && n > 4 ==> n * size <= 0x20_0000
    ensures size > 0 && n < 64 ==> 0x20_0000 < (n + 1) * size
  {
    var count := 0x20_0000 / (if size == 0 then 1 else size);
    Quotient(0x20_0000, if size == 0 then 1 else size, count);
    if count < 4 then 4 else if count > 64 then 64 else count
  }

  /** A span: where its header is and how many bytes it has. */
  datatype Entry = Entry(header: int, size: nat)

  datatype Option<T> = None | Some(value: T)

  predicate EntryOk(e: Entry, cls: nat) {
    Plausible(e.header) && e.size < Two(64) && InClass(e.size, cls)
  }

  /** The first entry with at least `size` bytes, or the length of the list. */
  ghost predicate FirstFit(list: seq<Entry>, size: nat, i: nat) {
    && i <= |list|
    && (forall j :: 0 <= j < i ==> list[j].size < size)
    && (i < |list| ==> list[i].size >= size)
  }

  lemma FirstFitUnique(list: seq<Entry>, size: nat, i: nat, j: nat)
    requires FirstFit(list, size, i) && FirstFit(list, size, j)
    ensures i == j
  {
  }

  /** Entry `i` of bin `c` leaves it, or, past the end, the global heap serves the request. */
  ghost predicate Served(bins0: seq<seq<Entry>>, bins1: seq<seq<Entry>>, c: nat, i: nat, size: nat,
                         global: Option<int>, r: Option<Entry>)
    requires c < |bins0| && i <= |bins0[c]|
  {
    if i < |bins0[c]| then
      r == Some(bins0[c][i]) && bins1 == bins0[c := bins0[c][..i] + bins0[c][i + 1..]]
    else
      bins1 == bins0 && r == if global.Some? then Some(Entry(global.value, size)) else None
  }

  class Cache {
    var bins: seq<seq<Entry>>
    var counts: seq<nat>

    ghost predicate Valid()
      reads this
    {
      && |bins| == NUM_LARGE_CLASSES == |counts|
      && (forall c :: 0 <= c < NUM_LARGE_CLASSES ==> counts[c] == |bins[c]| <= 64)
      && (forall c, i :: 0 <= c < NUM_LARGE_CLASSES && 0 <= i < |bins[c]| ==> EntryOk(bins[c][i], c))
    }

    constructor ()
      ensures Valid() && forall c :: 0 <= c < NUM_LARGE_CLASSES ==> bins[c] == []
    {
      bins := seq(NUM_LARGE_CLASSES, _ => []);
      counts := seq(NUM_LARGE_CLASSES, _ => 0);
    }

    /** The first cached span of the class that is large enough leaves the cache, with its true size; the
        global heap is asked only when there is none. */
    method Allocate(size: nat, global: Option<int>) returns (r: Option<Entry>)
      requires Valid() && size < Two(64)
      modifies this
      ensures Valid()
      ensures LargeSizeToClass(size) < |old(bins)|
      ensures forall i: nat :: FirstFit(old(bins)[LargeSizeToClass(size)], size, i) ==>
                Served(old(bins), bins, LargeSizeToClass(size), i, size, global, r)
      ensures r.Some? ==> size <= r.value.size
      ensures r.Some? && size > Two(LARGE_CLASS_BASE) ==> r.value.size < 2 * size
    {
      hide Two, LargeSizeToClass;
      ClassBracket(size);
      var c := LargeSizeToClass(size);
      var i := 0;
      while i < |bins[c]| && bins[c][i].size < size
        invariant 0 <= i <= |bins[c]| && unchanged(this)
        invariant forall j :: 0 <= j < i ==> bins[c][j].size < size
      {
        if !Plausible(bins[c][i].header) { assert false; }
        i := i + 1;
      }
      assert FirstFit(bins[c], size, i);
      forall j: nat | FirstFit(bins[c], size, j) ensures j == i { FirstFitUnique(bins[c], size, i, j); }
      if i < |bins[c]| {
        var e := bins[c][i];
        Waste(size, e.size, c);
        bins := bins[c := bins[c][..i] + bins[c][i + 1..]];
        counts := counts[c := counts[c] - 1];
        r := Some(e);
      } else if global.Some? {
        r := Some(Entry(global.value, size));
      } else {
        r := None;
      }
    }

    /** A span given back is cached in the class of its size, or goes to the global heap. */
    method Deallocate(e: Entry) returns (cached: bool)
      requires Valid() && Plausible(e.header) && e.size < Two(64)
      modifies this
      ensures Valid()
      ensures LargeSizeToClass(e.size) < |old(bins)|
      ensures cached <==> |old(bins)[LargeSizeToClass(e.size)]| < MaxLargeCacheSize(e.size)
      ensures cached ==> bins == old(bins)[LargeSizeToClass(e.size) := [e] + old(bins)[LargeSizeToClass(e.size)]]
      ensures !cached ==> bins == old(bins)
    {
      hide Two, LargeSizeToClass;
      ClassBracket(e.size);
      var c := LargeSizeToClass(e.size);
      cached := counts[c] < MaxLargeCacheSize(e.size);
      if cached {
        bins := bins[c := [e] + bins[c]];
        counts := counts[c := counts[c] + 1];
      }
    }
  }

  /** Spans of one class differ by less than a factor of two. */
  lemma Waste(size: nat, span: nat, c: nat)
    requires InClass(size, c) && InClass(span, c)
    ensures size > Two(LARGE_CLASS_BASE) ==> span < 2 * size
  {
    hide InClass, Two;
    InBracket(size, c);
    InBracket(span, c);
  }

  lemma InBracket(size: nat, c: nat)
    requires InClass(size, c)
    ensures size > Two(LARGE_CLASS_BASE) ==> c > 0
    ensures c > 0 ==> Two(c + LARGE_CLASS_BASE) == 2 * Two(c + LARGE_CLASS_BASE - 1)
                      && Two(c + LARGE_CLASS_BASE - 1) < size <= Two(c + LARGE_CLASS_BASE)
  {
  }

  /** What was just given back, and was kept, serves the next request of its class it is large enough for. */
  method GiveThenTake(cache: Cache, e: Entry, size: nat, global: Option<int>) returns (cached: bool, r: Option<Entry>)
    requires cache.Valid() && Plausible(e.header) && e.size < Two(64)
    requires size <= e.size && LargeSizeToClass(size) == LargeSizeToClass(e.size)
    modifies cache
    ensures cache.Valid() && LargeSizeToClass(size) < |old(cache.bins)|
    ensures cached <==> |old(cache.bins)[LargeSizeToClass(size)]| < MaxLargeCacheSize(e.size)
    ensures cached ==> r == Some(e) && cache.bins == old(cache.bins) && cache.counts == old(cache.counts)
  {
    hide Two, LargeSizeToClass, MaxLargeCacheSize, InClass;
    cached := cache.Deallocate(e);
    ghost var c, was := LargeSizeToClass(size), cache.bins;
    assert cached ==> FirstFit(was[c], size, 0);
    r := cache.Allocate(size, global);
    if cached {
      assert Served(was, cache.bins, c, 0, size, global, r);
      assert was[c][..0] + was[c][1..] == old(cache.bins)[c];
      assert cache.bins == old(cache.bins);
      assert forall i :: 0 <= i < NUM_LARGE_CLASSES ==> cache.counts[i] == old(cache.counts)[i];
    }
  }
}
