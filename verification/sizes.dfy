/** Unsigned 64-bit size arithmetic (src/fast_alloc.cpp): headers, page rounding, alignments and masks. */
module Sizes {
  import opened Bits
  import opened Config

  const HEADER: nat := 16
  const MAX_ALIGNMENT: nat := 4096

  /** Unsigned 64-bit addition. */
  function Add64(x: nat, y: nat): nat
    requires x < WORD && y < WORD
  {
    if x + y < WORD then x + y else x + y - WORD
  }

  predicate PageOk(page: nat) {
    4096 <= page <= 0x10_0000 && PowerOfTwo(page)
  }

  /** The largest multiple of `page` not above `n`, which masking computes. */
  function RoundDown(n: nat, page: nat): (r: nat)
    requires page > 0
    ensures n - page < r <= n
  {
    n - n % page
  }

  function RoundUp(n: nat, page: nat): nat
    requires page > 0
  {
    RoundDown(n + page - 1, page)
  }

  /** The sizes for which neither adding the header nor rounding to pages wraps. */
  predicate Guarded(page: nat, size: nat) {
    size + HEADER + page <= WORD
  }

  lemma RoundsDown(n: nat, page: nat)
    requires page > 0
    ensures RoundDown(n, page) % page == 0
  {
    assert RoundDown(n, page) == n / page * page;
    MultipleOf(n / page, page);
  }

  lemma RoundsUp(n: nat, page: nat)
    requires page > 0
    ensures n <= RoundUp(n, page) < n + page && RoundUp(n, page) % page == 0
  {
    hide RoundDown;
    RoundsDown(n + page - 1, page);
  }

  lemma MultipleOf(k: nat, page: nat)
    requires page > 0
    ensures k * page % page == 0
  {
    RemainderIs(k * page, k, page, 0);
  }

  /** What the code computes in 64 bits: rounding up by adding, which may wrap, and masking. */
  function PageRoundUp(n: nat, page: nat): nat
    requires PageOk(page) && n < WORD
  {
    AndNot(Add64(n, page - 1), page - 1)
  }

  /** Masking with a power of two rounds down. */
  lemma MaskRounds(n: nat, a: nat)
    requires PowerOfTwo(a)
    ensures AndNot(n, a - 1) == RoundDown(n, a)
  {
    hide PowerOfTwo, AndNot;
    MaskHigh(n, a);
  }

  lemma PageRoundUpIs(n: nat, page: nat)
    requires PageOk(page) && n < WORD
    ensures PageRoundUp(n, page) == RoundDown(Add64(n, page - 1), page)
  {
    hide PowerOfTwo, AndNot, RoundDown;
    MaskRounds(Add64(n, page - 1), page);
  }

  lemma PageRoundUpExact(n: nat, page: nat)
    requires PageOk(page) && n + page <= WORD
    ensures PageRoundUp(n, page) == RoundUp(n, page)
  {
    hide RoundDown, AndNot, PowerOfTwo;
    PageRoundUpIs(n, page);
  }

  /** Past the guard the rounded size wraps to at most one page. */
  lemma PageRoundUpWraps(size: nat, page: nat)
    requires PageOk(page) && size < WORD && !Guarded(page, size)
    ensures PageRoundUp(Add64(size, HEADER), page) <= page
  {
    hide RoundDown, AndNot, PowerOfTwo;
    PageRoundUpIs(Add64(size, HEADER), page);
    var n := Add64(Add64(size, HEADER), page - 1);
    if size + HEADER < WORD {
      assert n < page;
    } else {
      assert n < HEADER + page - 1;
      BelowTwo(n, page);
    }
  }

  lemma BelowTwo(n: nat, page: nat)
    requires page > 0 && n < 2 * page
    ensures RoundDown(n, page) <= page
  {
    if n < page {
      assert n / page == 0;
    } else {
      assert n / page == 1;
    }
  }

  /** A shrink that gives up a page or more never loses it to rounding. */
  lemma ShrinkGains(n: nat, span: nat, page: nat)
    requires PageOk(page) && page <= span < MAX_USER_PTR && 1 <= n <= span - HEADER
    ensures var needed := PageRoundUp(Add64(n, HEADER), page);
            && needed == RoundUp(n + HEADER, page) && needed % page == 0
            && page <= needed && n + HEADER <= needed
            && (page <= span - HEADER - n ==> needed < span)
  {
    hide RoundDown, AndNot, PowerOfTwo;
    PageRoundUpExact(n + HEADER, page);
    RoundsUp(n + HEADER, page);
    AtLeastOne(n + HEADER + page - 1, page);
  }

  lemma AtLeastOne(x: nat, page: nat)
    requires 0 < page <= x
    ensures page <= RoundDown(x, page)
  {
    assert x / page >= 1;
    assert RoundDown(x, page) == x / page * page;
  }

  /** A growth that passes malloc's guard never finds room in the span it has; one that does not
      pass it always does, because the rounded size wraps. */
  lemma GrowthIff(n: nat, span: nat, page: nat)
    requires PageOk(page) && page <= span < MAX_USER_PTR && span - HEADER < n < WORD
    ensures PageRoundUp(Add64(n, HEADER), page) > span <==> Guarded(page, n)
    ensures Guarded(page, n) ==> PageRoundUp(Add64(n, HEADER), page) == RoundUp(n + HEADER, page) >= n + HEADER
  {
    hide RoundDown, AndNot, PowerOfTwo;
    if Guarded(page, n) {
      PageRoundUpExact(n + HEADER, page);
      RoundsUp(n + HEADER, page);
    } else {
      PageRoundUpWraps(n, page);
    }
  }

  lemma SixteenDivides(r: int, a: nat)
    requires a in {1, 2, 4, 8, 16} && r % 16 == 0
    ensures r % a == 0
  {
    if a == 1 {
    } else if a == 2 {
    } else if a == 4 {
    } else if a == 8 {
    }
  }

  lemma SmallPowers(a: nat)
    requires PowerOfTwo(a) && a <= ALIGNMENT
    ensures a in {1, 2, 4, 8, 16}
  {
  }

  lemma BigPowers(a: nat)
    requires PowerOfTwo(a) && ALIGNMENT < a <= MAX_ALIGNMENT
    ensures a in {32, 64, 128, 256, 512, 1024, 2048, 4096}
  {
    if a / 2 <= ALIGNMENT {
      SmallPowers(a / 2);
    } else {
      BigPowers(a / 2);
    }
  }

  lemma AlignedAt(p: int, a: nat)
    requires a in {32, 64, 128, 256, 512, 1024, 2048, 4096} && p % a == 0
    ensures p % 16 == 0
  {
    var q, h := p / a, a / 16;
    assert p == q * a;
    assert a == h * 16;
    Regroup(q, h);
  }

  lemma Regroup(q: int, h: int)
    ensures q * (h * 16) % 16 == 0
  {
    assert q * (h * 16) == (q * h) * 16;
  }
}
