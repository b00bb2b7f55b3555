/**
 The page-span cache (src/global_heap.cpp) with calls that run one at a time:
 bins of free spans by page count, a bitmap of the non-empty bins and a page counter.
 Sizes are in pages.
 */
module PageCache {
  import opened Bits
  import opened PageHeap

  const WORDS: nat := 9

  // ----- The bitmap -------------------------------------------------------------

  predicate HintsFit(hints: seq<nat>) {
    |hints| == WORDS && forall w :: 0 <= w < WORDS ==> hints[w] < Two(WIDTH)
  }

  predicate Hint(hints: seq<nat>, p: nat)
    requires |hints| == WORDS && p < WORDS * WIDTH
  {
    Bit(hints[p / WIDTH], p % WIDTH)
  }

  function MarkNonEmpty(hints: seq<nat>, p: nat): seq<nat>
    requires |hints| == WORDS && p <= MAX_PAGES
  {
    hints[p / WIDTH := SetBit(hints[p / WIDTH], p % WIDTH)]
  }

  function MarkMaybeEmpty(hints: seq<nat>, p: nat): seq<nat>
    requires |hints| == WORDS && p <= MAX_PAGES
  {
    hints[p / WIDTH := ClearBit(hints[p / WIDTH], p % WIDTH)]
  }

  lemma MarkIs(hints: seq<nat>, p: nat)
    requires HintsFit(hints) && p <= MAX_PAGES
    ensures HintsFit(MarkNonEmpty(hints, p)) && HintsFit(MarkMaybeEmpty(hints, p))
    ensures forall q: nat {:trigger Hint(MarkNonEmpty(hints, p), q)} :: q < WORDS * WIDTH ==>
              (Hint(MarkNonEmpty(hints, p), q) <==> q == p || Hint(hints, q))
    ensures forall q: nat {:trigger Hint(MarkMaybeEmpty(hints, p), q)} :: q < WORDS * WIDTH ==>
              (Hint(MarkMaybeEmpty(hints, p), q) <==> q != p && Hint(hints, q))
  {
    hide Bit, SetBit, ClearBit, Two;
    var w, i := p / WIDTH, p % WIDTH;
    SetBitFits(hints[w], i, WIDTH);
    OnlyClears(hints[w], i);
    forall q: nat | q < WORDS * WIDTH
      ensures Hint(MarkNonEmpty(hints, p), q) <==> q == p || Hint(hints, q)
      ensures Hint(MarkMaybeEmpty(hints, p), q) <==> q != p && Hint(hints, q)
    {
      SetBitIs(hints[w], i, q % WIDTH);
      ClearBitIs(hints[w], i, q % WIDTH);
    }
  }

  /** No bin from `lo` up to `hi` is marked. */
  ghost predicate NoneMarked(hints: seq<nat>, lo: nat, hi: nat)
    requires |hints| == WORDS
  {
    forall q: nat {:trigger Hint(hints, q)} :: lo <= q < hi && q < WORDS * WIDTH ==> !Hint(hints, q)
  }

  /** The smallest marked bin above `pages`, or 0. */
  method FirstNonEmptyAbove(hints: seq<nat>, pages: nat) returns (p: nat)
    requires HintsFit(hints) && pages <= MAX_PAGES && NoneMarked(hints, MAX_PAGES + 1, WORDS * WIDTH)
    ensures p == 0 ==> NoneMarked(hints, pages + 1, WORDS * WIDTH)
    ensures p != 0 ==> pages < p <= MAX_PAGES && Hint(hints, p) && NoneMarked(hints, pages + 1, p)
  {
    hide Bit, Mask, Two;
    var need := pages + 1;
    var w := need / WIDTH;
    OnlyClears(hints[w], need % WIDTH);
    var word := Mask(hints[w], need % WIDTH);
    if word == 0 {
      FirstWord(hints, need, word);
      w := w + 1;
      while w < WORDS
        invariant need / WIDTH < w <= WORDS && word == 0
        invariant NoneMarked(hints, need, w * WIDTH)
      {
        word := hints[w];
        if word != 0 { break; }
        EmptyWord(hints, w);
        w := w + 1;
      }
      if word == 0 { return 0; }
      var bit := TrailingZeros(word);
      p := w * WIDTH + bit;
      LaterWord(hints, w, bit);
    } else {
      var bit := TrailingZeros(word);
      p := w * WIDTH + bit;
      FirstBit(hints, need, word, bit);
    }
    if p > MAX_PAGES || p <= pages { p := 0; }
  }

  lemma FirstWord(hints: seq<nat>, need: nat, word: nat)
    requires HintsFit(hints) && need <= MAX_PAGES + 1 && word == Mask(hints[need / WIDTH], need % WIDTH) == 0
    ensures NoneMarked(hints, need, (need / WIDTH + 1) * WIDTH)
  {
    hide Bit, Mask;
    forall q: nat | need <= q < (need / WIDTH + 1) * WIDTH && q < WORDS * WIDTH ensures !Hint(hints, q) {
      MaskIs(hints[need / WIDTH], need % WIDTH, q % WIDTH);
      ZeroBit(q % WIDTH);
    }
  }

  lemma FirstBit(hints: seq<nat>, need: nat, word: nat, bit: nat)
    requires HintsFit(hints) && need <= MAX_PAGES + 1 && word == Mask(hints[need / WIDTH], need % WIDTH)
    requires bit < WIDTH && Bit(word, bit) && forall j: nat :: j < bit ==> !Bit(word, j)
    ensures var p := need / WIDTH * WIDTH + bit; need <= p < WORDS * WIDTH && Hint(hints, p) && NoneMarked(hints, need, p)
  {
    hide Bit, Mask;
    var w := need / WIDTH;
    var p := w * WIDTH + bit;
    MaskIs(hints[w], need % WIDTH, bit);
    forall q: nat | need <= q < p && q < WORDS * WIDTH ensures !Hint(hints, q) {
      MaskIs(hints[w], need % WIDTH, q % WIDTH);
      assert !Bit(word, q % WIDTH);
    }
  }

  lemma EmptyWord(hints: seq<nat>, w: nat)
    requires HintsFit(hints) && w < WORDS && hints[w] == 0
    ensures NoneMarked(hints, w * WIDTH, (w + 1) * WIDTH)
  {
    hide Bit;
    forall q: nat | w * WIDTH <= q < (w + 1) * WIDTH && q < WORDS * WIDTH ensures !Hint(hints, q) {
      ZeroBit(q % WIDTH);
    }
  }

  lemma LaterWord(hints: seq<nat>, w: nat, bit: nat)
    requires HintsFit(hints) && w < WORDS
    requires bit < WIDTH && Bit(hints[w], bit) && forall j: nat :: j < bit ==> !Bit(hints[w], j)
    ensures var p := w * WIDTH + bit; p < WORDS * WIDTH && Hint(hints, p) && NoneMarked(hints, w * WIDTH, p)
  {
    hide Bit;
    var p := w * WIDTH + bit;
    forall q: nat | w * WIDTH <= q < p && q < WORDS * WIDTH ensures !Hint(hints, q) {
      assert !Bit(hints[w], q % WIDTH);
    }
  }

  // ----- Bins ---------------------------------------------------------------------

  predicate BinsFit(bins: seq<seq<int>>) {
    |bins| == MAX_PAGES + 1 && bins[0] == []
  }

  /** The pages in bins below `k`. */
  function PagesIn(bins: seq<seq<int>>, k: nat): nat
    requires k <= |bins|
  {
    if k == 0 then 0 else PagesIn(bins, k - 1) + (k - 1) * |bins[k - 1]|
  }

  function Pages(bins: seq<seq<int>>): nat {
    PagesIn(bins, |bins|)
  }

  lemma {:induction false} PagesUpdate(bins: seq<seq<int>>, p: nat, list: seq<int>, k: nat)
    requires p < |bins| && k <= |bins|
    ensures PagesIn(bins[p := list], k) == PagesIn(bins, k) + if p < k then p * |list| - p * |bins[p]| else 0
  {
    if k > 0 { PagesUpdate(bins, p, list, k - 1); }
  }

  lemma Grown(bins: seq<seq<int>>, p: nat, b: int)
    requires p < |bins|
    ensures Pages(bins[p := [b] + bins[p]]) == Pages(bins) + p
  {
    PagesUpdate(bins, p, [b] + bins[p], |bins|);
    assert p * (|bins[p]| + 1) == p * |bins[p]| + p;
  }

  lemma Shrunk(bins: seq<seq<int>>, p: nat)
    requires p < |bins| && bins[p] != []
    ensures Pages(bins[p := bins[p][1..]]) == Pages(bins) - p
  {
    PagesUpdate(bins, p, bins[p][1..], |bins|);
    assert p * |bins[p]| == p * (|bins[p]| - 1) + p;
  }

  /** Bin `p` is the smallest non-empty one that holds spans of at least `n` pages. */
  ghost predicate BestFit(bins: seq<seq<int>>, n: nat, p: nat)
    requires BinsFit(bins)
  {
    n <= p <= MAX_PAGES && bins[p] != [] && forall q {:trigger bins[q]} :: n <= q < p ==> bins[q] == []
  }

  /** No cached span has `n` pages. */
  ghost predicate NoFit(bins: seq<seq<int>>, n: nat)
    requires BinsFit(bins)
  {
    forall q {:trigger bins[q]} :: n <= q <= MAX_PAGES ==> bins[q] == []
  }

  /** The head of the first span of bin `p` is taken, its tail is parked. */
  function Taken(bins: seq<seq<int>>, n: nat, p: nat): seq<seq<int>>
    requires BinsFit(bins) && 1 <= n <= p <= MAX_PAGES && bins[p] != []
  {
    var rest := bins[p := bins[p][1..]];
    if p == n then rest else rest[p - n := [bins[p][0] + n] + rest[p - n]]
  }

  /** Taking a span uses up exactly the pages asked for; the parked tail ends where the span ended. */
  lemma TakenPages(bins: seq<seq<int>>, n: nat, p: nat)
    requires BinsFit(bins) && 1 <= n <= p <= MAX_PAGES && bins[p] != []
    ensures BinsFit(Taken(bins, n, p)) && Pages(Taken(bins, n, p)) == Pages(bins) - n
  {
    Shrunk(bins, p);
    if p > n { Grown(bins[p := bins[p][1..]], p - n, bins[p][0] + n); }
  }

  ghost predicate Marks(hints: seq<nat>, bins: seq<seq<int>>)
    requires HintsFit(hints) && BinsFit(bins)
  {
    forall p: nat {:trigger Hint(hints, p)} :: p < WORDS * WIDTH ==> (Hint(hints, p) <==> p <= MAX_PAGES && bins[p] != [])
  }

  /** The spans of the bins, as a purge meets them. */
  function Listing(bins: seq<seq<int>>, k: nat): seq<Span>
    requires k <= |bins|
  {
    if k == 0 then [] else Listing(bins, k - 1) + SpansOf(bins[k - 1], k - 1)
  }

  function SpansOf(list: seq<int>, p: nat): seq<Span> {
    seq(|list|, i requires 0 <= i < |list| => Span(list[i], p))
  }

  datatype Option<T> = None | Some(value: T)

  class Cache {
    const limit: nat
    var bins: seq<seq<int>>
    var hints: seq<nat>
    var total: nat

    ghost predicate Valid()
      reads this
    {
      && BinsFit(bins) && HintsFit(hints) && Marks(hints, bins)
      && total == Pages(bins) <= limit
    }

    constructor (limit: nat)
      ensures Valid() && this.limit == limit && total == 0
    {
      this.limit := limit;
      bins := seq(MAX_PAGES + 1, _ => []);
      hints := seq(WORDS, _ => 0);
      total := 0;
      new;
      NothingIn(bins, |bins|);
      NothingMarked(hints, bins);
    }

    /** A span of `n` pages: the best fit among the cached spans, split if it is larger;
        the operating system is asked only when no cached span is large enough. */
    method Allocate(n: nat, os: Option<int>) returns (r: Option<int>)
      requires Valid()
      modifies this
      ensures Valid()
      ensures 1 <= n ==> forall p: nat :: BestFit(old(bins), n, p) ==>
                r == Some(old(bins)[p][0]) && bins == Taken(old(bins), n, p) && total == old(total) - n
      ensures n == 0 || NoFit(old(bins), n) ==> r == os && bins == old(bins) && total == old(total)
    {
      if n == 0 || n > MAX_PAGES { return os; }
      var p := n;
      if bins[n] == [] {
        p := FirstNonEmptyAbove(hints, n);
        NextFit(hints, bins, n, p);
      }
      if p == 0 { return os; }
      r := Some(bins[p][0]);
      Take(n, p);
    }

    method Take(n: nat, p: nat)
      requires Valid() && 1 <= n <= p <= MAX_PAGES && bins[p] != []
      modifies this
      ensures Valid() && bins == Taken(old(bins), n, p) && total == old(total) - n
    {
      TakenPages(bins, n, p);
      Shrunk(bins, p);
      var b := bins[p][0];
      bins := bins[p := bins[p][1..]];
      if bins[p] == [] {
        MarkIs(hints, p);
        hints := MarkMaybeEmpty(hints, p);
      }
      total := total - p;
      if p - n > 0 {
        bins := bins[p - n := [b + n] + bins[p - n]];
        MarkIs(hints, p - n);
        hints := MarkNonEmpty(hints, p - n);
        total := total + (p - n);
      }
    }

    /** A span given back is kept exactly when the cap and the bin's own limit leave room. */
    method Free(b: int, n: nat) returns (kept: bool)
      requires Valid()
      modifies this
      ensures Valid()
      ensures kept <==> 1 <= n <= MAX_PAGES && old(total) + n <= limit && |old(bins)[n]| < Retention(n)
      ensures kept ==> bins == old(bins)[n := [b] + old(bins)[n]] && total == old(total) + n
      ensures !kept ==> bins == old(bins) && total == old(total)
    {
      if n == 0 || n > MAX_PAGES { return false; }
      total := total + n;
      if total <= limit {
        if |bins[n]| < Retention(n) {
          Grown(bins, n, b);
          bins := bins[n := [b] + bins[n]];
          MarkIs(hints, n);
          hints := MarkNonEmpty(hints, n);
          return true;
        }
      }
      total := total - n;
      return false;
    }

    /** Every cached span goes back to the operating system, once; the pages reported are those the counter showed. */
    method Purge() returns (released: nat, freed: seq<Span>)
      requires Valid()
      modifies this
      ensures Valid() && total == 0 && forall p :: 0 <= p <= MAX_PAGES ==> bins[p] == []
      ensures released == old(total) && freed == Listing(old(bins), MAX_PAGES + 1)
    {
      released, freed := 0, [];
      ghost var start := bins;
      assert Listing(start, 1) == [];
      for p := 1 to MAX_PAGES + 1
        invariant Valid() && |start| == |bins|
        invariant forall q :: 0 <= q < p ==> bins[q] == []
        invariant forall q :: p <= q <= MAX_PAGES ==> bins[q] == start[q]
        invariant released + total == old(total) && freed == Listing(start, p)
      {
        var n, more := PurgeBin(p);
        released, freed := released + n, freed + more;
      }
      NothingIn(bins, |bins|);
    }

    method PurgeBin(p: nat) returns (released: nat, freed: seq<Span>)
      requires Valid() && 1 <= p <= MAX_PAGES
      modifies this
      ensures Valid() && bins == old(bins)[p := []] && released + total == old(total)
      ensures freed == SpansOf(old(bins)[p], p)
    {
      var list := bins[p];
      released, freed := 0, [];
      PagesUpdate(bins, p, [], |bins|);
      bins := bins[p := []];
      MarkIs(hints, p);
      hints := MarkMaybeEmpty(hints, p);
      var i := 0;
      while i < |list|
        invariant 0 <= i <= |list| && bins == old(bins)[p := []] && hints == MarkMaybeEmpty(old(hints), p)
        invariant released == p * i && total + released == old(total)
        invariant freed == SpansOf(list[..i], p)
      {
        AtMost(p, i + 1, |list|);
        assert list[..i + 1] == list[..i] + [list[i]];
        freed := freed + [Span(list[i], p)];
        total := total - p;
        released := released + p;
        i := i + 1;
      }
      assert list[..i] == list;
    }
  }

  lemma AtMost(p: nat, i: nat, n: nat)
    requires i <= n
    ensures p * i <= p * n && (i > 0 ==> p * i == p * (i - 1) + p)
  {
  }

  lemma {:induction false} NothingIn(bins: seq<seq<int>>, k: nat)
    requires k <= |bins| && forall p :: 0 <= p < |bins| ==> bins[p] == []
    ensures PagesIn(bins, k) == 0
  {
    if k > 0 { NothingIn(bins, k - 1); }
  }

  lemma NothingMarked(hints: seq<nat>, bins: seq<seq<int>>)
    requires |hints| == WORDS && BinsFit(bins)
    requires (forall w :: 0 <= w < WORDS ==> hints[w] == 0) && (forall p :: 0 <= p <= MAX_PAGES ==> bins[p] == [])
    ensures HintsFit(hints) && Marks(hints, bins)
  {
    hide Bit, Two;
    TwoPositive(WIDTH);
    forall p: nat | p < WORDS * WIDTH ensures !Hint(hints, p) { ZeroBit(p % WIDTH); }
  }

  /** The search by bitmap finds the best fit if there is one. */
  lemma NextFit(hints: seq<nat>, bins: seq<seq<int>>, n: nat, p: nat)
    requires HintsFit(hints) && BinsFit(bins) && Marks(hints, bins) && 1 <= n <= MAX_PAGES && bins[n] == []
    requires p == 0 ==> NoneMarked(hints, n + 1, WORDS * WIDTH)
    requires p != 0 ==> n < p <= MAX_PAGES && Hint(hints, p) && NoneMarked(hints, n + 1, p)
    ensures p == 0 ==> NoFit(bins, n)
    ensures p != 0 ==> BestFit(bins, n, p)
  {
    hide Hint;
    if p == 0 {
      forall q | n <= q <= MAX_PAGES ensures bins[q] == [] { assert n < q ==> !Hint(hints, q); }
    } else {
      forall q | n <= q < p ensures bins[q] == [] { assert n < q ==> !Hint(hints, q); }
    }
  }

  /** A span given back and kept is what the next request of its size gets, and the cache is as before. */
  method FreeThenTake(cache: Cache, b: int, n: nat, os: Option<int>) returns (kept: bool, r: Option<int>)
    requires cache.Valid()
    modifies cache
    ensures cache.Valid()
    ensures kept <==> 1 <= n <= MAX_PAGES && old(cache.total) + n <= cache.limit && |old(cache.bins)[n]| < Retention(n)
    ensures kept ==> r == Some(b) && cache.bins == old(cache.bins) && cache.total == old(cache.total)
  {
    hide Marks, Pages, Retention;
    kept := cache.Free(b, n);
    assert kept ==> BestFit(cache.bins, n, n);
    ghost var freed := cache.bins;
    r := cache.Allocate(n, os);
    if kept {
      assert freed[n][1..] == old(cache.bins)[n];
      assert cache.bins == Taken(freed, n, n);
    }
  }
}
