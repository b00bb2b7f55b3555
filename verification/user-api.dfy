/**
 The entry points of the allocator (src/fast_alloc.cpp): malloc, free, realloc
 and aligned allocation.  Headers, alignment stashes, free-list links and user bytes
 all lie in one byte memory.  Which block a size class or a span source hands out,
 and what `mremap` answers, are parameters; size arithmetic is unsigned 64-bit.
 */
module UserApi {
  import opened Bits
  import opened Config
  import opened Memory
  import opened Sizes

  const ALIGN_MAGIC: nat := 0xA1A2_A3A4_A5A6_A701
  const STASH: nat := 32
  const MAX_STASHED: nat := 0x4000_0000

  // ----- Blocks ---------------------------------------------------------------

  /** What a block is carved from: a slab of a size class, or a span of its own. */
  datatype Body = Small(cls: nat, slab: int) | Large(span: nat)

  /** A live user block: a plain one, or an over-aligned one inside a plain block at `raw`. */
  datatype Live = Plain(body: Body) | Over(body: Body, raw: int, alignment: nat, size: nat)

  function SizeOf(body: Body): nat {
    if body.Small? then ClassIndexToSize(body.cls) else body.span
  }

  function Raw(p: int, l: Live): int {
    if l.Plain? then p else l.raw
  }

  /** The block's memory, header included. */
  function Lo(p: int, l: Live): int {
    Raw(p, l) - HEADER
  }

  function Hi(p: int, l: Live): int {
    Raw(p, l) - HEADER + SizeOf(l.body)
  }

  /** The bytes the caller may use. */
  function Room(l: Live): int {
    if l.Plain? then SizeOf(l.body) - HEADER else l.size
  }

  predicate IsLarge(l: Live) {
    l.Plain? && l.body.Large?
  }

  predicate BodyOk(page: nat, raw: int, body: Body)
    requires page > 0
  {
    && Plausible(raw) && MIN_USER_PTR <= raw - HEADER && raw - HEADER + SizeOf(body) <= MAX_USER_PTR
    && (body.Small? ==> 1 <= body.cls < NUM_SIZE_CLASSES && Plausible(body.slab))
    && (body.Large? ==> page <= body.span && body.span % page == 0)
  }

  predicate LiveOk(page: nat, p: int, l: Live)
    requires page > 0
  {
    && Plausible(p) && BodyOk(page, Raw(p, l), l.body)
    && (l.Over? ==>
          && ALIGNMENT < l.alignment <= MAX_ALIGNMENT && PowerOfTwo(l.alignment) && p % l.alignment == 0
          && l.raw + STASH <= p && 1 <= l.size && p + l.size <= l.raw - HEADER + SizeOf(l.body))
  }

  // ----- Headers --------------------------------------------------------------

  /** The header of a plain block. */
  predicate BodyHeader(m: Mem, raw: int, body: Body) {
    match body
    case Small(cls, slab) => Word(m, raw - 16) == slab && Half(m, raw - 8) == cls
    case Large(span) => Word(m, raw - 16) == 0 && Word(m, raw - 8) == span
  }

  /** The header, and for an over-aligned block the stash in front of the user bytes. */
  predicate HeaderOk(m: Mem, p: int, l: Live) {
    && BodyHeader(m, Raw(p, l), l.body)
    && (l.Over? ==> Word(m, p - 32) == l.alignment && Word(m, p - 24) == l.raw && Word(m, p - 16) == ALIGN_MAGIC && Word(m, p - 8) == l.size)
  }

  /** A header depends only on the 16 bytes in front of the raw block and the 32 in front of an aligned one. */
  lemma HeaderAgree(m: Mem, m': Mem, p: int, l: Live)
    requires HeaderOk(m, p, l) && Agree(m, m', Raw(p, l) - HEADER, Raw(p, l))
    requires l.Over? ==> Agree(m, m', p - STASH, p)
    ensures HeaderOk(m', p, l)
  {
    hide Word, Half;
    WordAgree(m, m', Raw(p, l) - 16);
    WordAgree(m, m', Raw(p, l) - 8);
    HalfAgree(m, m', Raw(p, l) - 8);
    if l.Over? {
      WordAgree(m, m', p - 32);
      WordAgree(m, m', p - 24);
      WordAgree(m, m', p - 16);
      WordAgree(m, m', p - 8);
    }
  }

  /** Writing elsewhere leaves the header alone. */
  lemma HeaderFrame(page: nat, m: Mem, m': Mem, p: int, l: Live, lo: int, hi: int)
    requires PageOk(page) && LiveOk(page, p, l) && HeaderOk(m, p, l) && SameBut(m, m', lo, hi)
    requires Hi(p, l) <= lo || hi <= Lo(p, l)
    ensures HeaderOk(m', p, l)
  {
    hide PowerOfTwo, HeaderOk;
    HeaderAgree(m, m', p, l);
  }

  /** The three kinds of headers are told apart by the word in front of the user bytes. */
  lemma KindsTold(page: nat, m: Mem, p: int, l: Live)
    requires PageOk(page) && LiveOk(page, p, l) && HeaderOk(m, p, l)
    ensures Word(m, p - 16) == 0 <==> IsLarge(l)
    ensures Word(m, p - 16) == ALIGN_MAGIC <==> l.Over?
    ensures l.Over? ==> Word(m, l.raw - 16) != ALIGN_MAGIC
  {
    hide Word, Half, PowerOfTwo;
  }

  lemma TwoWords(m: Mem, a: int, v0: nat, v1: nat)
    requires v0 < WORD && v1 < WORD
    ensures var m' := Put(Put(m, a, v0), a + 8, v1);
            Word(m', a) == v0 && Word(m', a + 8) == v1 && SameBut(m, m', a, a + 16)
  {
    hide Put, Word;
    var m1 := Put(m, a, v0);
    PutWord(m, a, v0);
    PutWord(m1, a + 8, v1);
    PutOther(m1, a + 8, v1, a);
    Widen(m, m1, a, a + 8, a, a + 16);
    Widen(m1, Put(m1, a + 8, v1), a + 8, a + 16, a, a + 16);
    Through(m, m1, Put(m1, a + 8, v1), a, a + 16);
  }

  function StashWords(m: Mem, p: int, alignment: nat, raw: nat, size: nat): Mem {
    Put(Put(Put(Put(m, p - 32, alignment), p - 24, raw), p - 16, ALIGN_MAGIC), p - 8, size)
  }

  lemma StashWordsAre(m: Mem, p: int, alignment: nat, raw: nat, size: nat)
    requires alignment < WORD && raw < WORD && size < WORD
    ensures var m' := StashWords(m, p, alignment, raw, size);
            && Word(m', p - 32) == alignment && Word(m', p - 24) == raw && Word(m', p - 16) == ALIGN_MAGIC && Word(m', p - 8) == size
            && SameBut(m, m', p - 32, p)
  {
    hide Put, Word;
    var m1 := Put(Put(m, p - 32, alignment), p - 24, raw);
    TwoWords(m, p - 32, alignment, raw);
    TwoWords(m1, p - 16, ALIGN_MAGIC, size);
    var m2 := Put(Put(m1, p - 16, ALIGN_MAGIC), p - 8, size);
    WordAgree(m1, m2, p - 32);
    WordAgree(m1, m2, p - 24);
    Widen(m, m1, p - 32, p - 16, p - 32, p);
    Widen(m1, m2, p - 16, p, p - 32, p);
    Through(m, m1, m2, p - 32, p);
  }

  // ----- Live blocks ------------------------------------------------------------

  ghost predicate Apart(live: map<int, Live>) {
    forall p, q {:trigger live[p], live[q]} :: p in live && q in live && p != q ==>
      Hi(p, live[p]) <= Lo(q, live[q]) || Hi(q, live[q]) <= Lo(p, live[p])
  }

  ghost predicate Fresh(live: map<int, Live>, lo: int, hi: int) {
    forall p {:trigger live[p]} :: p in live ==> Hi(p, live[p]) <= lo || hi <= Lo(p, live[p])
  }

  /** No caller's bytes overlap any block's header or stash, or another caller's bytes. */
  lemma UserBytesApart(page: nat, live: map<int, Live>, p: int, q: int)
    requires PageOk(page) && p in live && q in live && LiveOk(page, p, live[p]) && LiveOk(page, q, live[q]) && Apart(live)
    ensures Lo(p, live[p]) + HEADER <= p && p + Room(live[p]) <= Hi(p, live[p])
    ensures p + Room(live[p]) <= Raw(q, live[q]) - HEADER || Raw(q, live[q]) <= p
    ensures live[q].Over? ==> p + Room(live[p]) <= q - STASH || q <= p
    ensures p != q ==> p + Room(live[p]) <= q || q + Room(live[q]) <= p
  {
  }

  ghost predicate Shaped(page: nat, live: map<int, Live>) {
    PageOk(page) && Apart(live) && forall p {:trigger live[p]} :: p in live ==> LiveOk(page, p, live[p])
  }

  ghost predicate Headed(live: map<int, Live>, m: Mem) {
    forall p {:trigger live[p]} :: p in live ==> HeaderOk(m, p, live[p])
  }

  /** The users' bytes of all these blocks are the same. */
  ghost predicate Kept(live: map<int, Live>, m: Mem, m': Mem) {
    forall q, a {:trigger live[q], At(m', a)} :: q in live && q <= a < q + Room(live[q]) ==> At(m', a) == At(m, a)
  }

  /** Writing a header or a stash damages no user's byte. */
  lemma HeaderWriteKeeps(page: nat, live: map<int, Live>, q: int, m: Mem, m': Mem)
    requires Shaped(page, live) && q in live
    requires SameBut(m, m', Raw(q, live[q]) - HEADER, Raw(q, live[q])) || (live[q].Over? && SameBut(m, m', q - STASH, q))
    ensures Kept(live, m, m')
  {
    hide LiveOk, Apart;
    forall p, a {:trigger live[p], At(m', a)} | p in live && p <= a < p + Room(live[p]) ensures At(m', a) == At(m, a) {
      UserBytesApart(page, live, p, q);
    }
  }

  /** Writing a user's bytes damages no header, no stash and no other user's byte. */
  lemma UserWriteKeeps(page: nat, live: map<int, Live>, q: int, m: Mem, m': Mem)
    requires Shaped(page, live) && Headed(live, m) && q in live && SameBut(m, m', q, q + Room(live[q]))
    ensures Headed(live, m') && Kept(live - {q}, m, m')
  {
    hide LiveOk, Apart, HeaderOk;
    forall p | p in live ensures HeaderOk(m', p, live[p]) {
      UserBytesApart(page, live, q, p);
      HeaderAgree(m, m', p, live[p]);
    }
    forall p, a {:trigger (live - {q})[p], At(m', a)} | p in live - {q} && p <= a < p + Room((live - {q})[p]) ensures At(m', a) == At(m, a) {
      assert (live - {q})[p] == live[p];
      UserBytesApart(page, live, p, q);
    }
  }

  lemma KeptThrough(live: map<int, Live>, m: Mem, m1: Mem, m2: Mem)
    requires Kept(live, m, m1) && Kept(live, m1, m2)
    ensures Kept(live, m, m2)
  {
    forall q, a {:trigger live[q], At(m2, a)} | q in live && q <= a < q + Room(live[q]) ensures At(m2, a) == At(m, a) {
      assert At(m1, a) == At(m, a);
    }
  }

  /** Fewer blocks. */
  lemma KeptFewer(live: map<int, Live>, live': map<int, Live>, m: Mem, m': Mem)
    requires Kept(live, m, m') && forall q {:trigger live'[q]} :: q in live' ==> q in live && live[q] == live'[q]
    ensures Kept(live', m, m')
  {
  }

  lemma ShapedWithout(page: nat, live: map<int, Live>, p: int)
    requires Shaped(page, live)
    ensures Shaped(page, live - {p})
  {
    hide LiveOk, Hi, Lo;
    var rest := live - {p};
    forall x, y {:trigger rest[x], rest[y]} | x in rest && y in rest && x != y
      ensures Hi(x, rest[x]) <= Lo(y, rest[y]) || Hi(y, rest[y]) <= Lo(x, rest[x])
    {
      assert rest[x] == live[x] && rest[y] == live[y];
    }
    forall x | x in rest ensures LiveOk(page, x, rest[x]) { assert rest[x] == live[x]; }
  }

  lemma LivePlausible(page: nat, live: map<int, Live>, p: int)
    requires Shaped(page, live)
    ensures p in live ==> Plausible(p)
  {
    if p in live { assert LiveOk(page, p, live[p]); }
  }

  /** A block in fresh memory joins the live ones. */
  lemma ShapedWith(page: nat, live: map<int, Live>, r: int, l: Live)
    requires Shaped(page, live) && LiveOk(page, r, l) && Fresh(live, Lo(r, l), Hi(r, l))
    ensures r !in live && Shaped(page, live[r := l])
  {
    hide PowerOfTwo;
    Inside(page, r, l);
    if r in live { Inside(page, r, live[r]); }
  }

  lemma SelfFresh(live: map<int, Live>, p: int)
    requires Apart(live) && p in live
    ensures Fresh(live - {p}, Lo(p, live[p]), Hi(p, live[p]))
  {
    forall q | q in live - {p} ensures Hi(q, (live - {p})[q]) <= Lo(p, live[p]) || Hi(p, live[p]) <= Lo(q, (live - {p})[q]) {
      assert (live - {p})[q] == live[q];
    }
  }

  /** Writing in memory that none of these blocks has leaves their headers and their users' bytes alone. */
  lemma ElsewhereKeeps(page: nat, live: map<int, Live>, m: Mem, m': Mem, lo: int, hi: int)
    requires Shaped(page, live) && Headed(live, m) && Fresh(live, lo, hi) && SameBut(m, m', lo, hi)
    ensures Headed(live, m') && Kept(live, m, m')
  {
    hide LiveOk, Apart, HeaderOk, PowerOfTwo;
    forall p | p in live ensures HeaderOk(m', p, live[p]) { HeaderFrame(page, m, m', p, live[p], lo, hi); }
    forall p, a {:trigger live[p], At(m', a)} | p in live && p <= a < p + Room(live[p]) ensures At(m', a) == At(m, a) {
      Inside(page, p, live[p]);
    }
  }

  /** A block in memory no other block has joins the live ones, whose headers and users' bytes stay. */
  lemma Joined(page: nat, live: map<int, Live>, m: Mem, m': Mem, r: int, l: Live)
    requires Shaped(page, live) && Headed(live, m) && LiveOk(page, r, l) && HeaderOk(m', r, l)
    requires Fresh(live, Lo(r, l), Hi(r, l)) && SameBut(m, m', Lo(r, l), Hi(r, l))
    ensures r !in live && Shaped(page, live[r := l]) && Headed(live[r := l], m') && Kept(live, m, m')
  {
    hide LiveOk, HeaderOk;
    ElsewhereKeeps(page, live, m, m', Lo(r, l), Hi(r, l));
    ShapedWith(page, live, r, l);
  }

  /** A block leaves; whatever its memory is used for then leaves the other blocks alone. */
  lemma Dropped(page: nat, live: map<int, Live>, m: Mem, m': Mem, p: int)
    requires Shaped(page, live) && Headed(live, m) && p in live && SameBut(m, m', Lo(p, live[p]), Hi(p, live[p]))
    ensures Shaped(page, live - {p}) && Headed(live - {p}, m') && Kept(live - {p}, m, m')
  {
    hide LiveOk, HeaderOk, Fresh, SameBut, Lo, Hi;
    ShapedWithout(page, live, p);
    HeadedWithout(live, p, m);
    SelfFresh(live, p);
    ElsewhereKeeps(page, live - {p}, m, m', Lo(p, live[p]), Hi(p, live[p]));
  }

  lemma HeadedWithout(live: map<int, Live>, p: int, m: Mem)
    requires Headed(live, m)
    ensures Headed(live - {p}, m)
  {
    hide HeaderOk;
    forall q | q in live - {p} ensures HeaderOk(m, q, (live - {p})[q]) { assert (live - {p})[q] == live[q]; }
  }

  lemma Inside(page: nat, p: int, l: Live)
    requires PageOk(page) && LiveOk(page, p, l)
    ensures Lo(p, l) + HEADER <= p < Hi(p, l) && p + Room(l) <= Hi(p, l) && Lo(p, l) + 32 <= Hi(p, l)
  {
    hide PowerOfTwo;
  }

  // ----- Requests ---------------------------------------------------------------

  datatype Want = Refused | WantSmall(cls: nat) | WantLarge(bytes: nat)

  function Asked(page: nat, size: nat): Want
    requires page > 0
  {
    var n := if size == 0 then 1 else size;
    if n <= MAX_SMALL_REQUEST then WantSmall(RequestToClass(n))
    else if !Guarded(page, n) then Refused
    else WantLarge(RoundUp(n + HEADER, page))
  }

  datatype Grant = NoGrant | Grant(raw: int, body: Body)

  /** What the layers below may answer: nothing, or memory no live block has, of the class
      or at least the span size asked for. */
  ghost predicate GrantOk(page: nat, live: map<int, Live>, w: Want, g: Grant)
    requires page > 0
  {
    g.Grant? && !w.Refused? ==>
      && BodyOk(page, g.raw, g.body) && Fresh(live, g.raw - HEADER, g.raw - HEADER + SizeOf(g.body))
      && (w.WantSmall? ==> g.body.Small? && g.body.cls == w.cls)
      && (w.WantLarge? ==> g.body.Large? && g.body.span >= w.bytes)
  }

  lemma WantHolds(page: nat, size: nat)
    requires PageOk(page) && size < WORD
    ensures Asked(page, size).WantSmall? ==> 1 <= Asked(page, size).cls < NUM_SIZE_CLASSES && size <= UsableSize(Asked(page, size).cls)
    ensures Asked(page, size).WantLarge? ==> size + HEADER <= Asked(page, size).bytes
  {
    var n := if size == 0 then 1 else size;
    if n <= MAX_SMALL_REQUEST {
      RequestToClassIsBestFit(n);
    } else if Guarded(page, n) {
      RoundsUp(n + HEADER, page);
    }
  }

  // ----- The allocator ----------------------------------------------------------

  /** Where a freed block goes: to its size class's bin or to the large cache. */
  datatype Released = Nothing | ToBin(cls: int, block: int) | ToLarge(header: int, span: int)

  function ReleasedOf(p: int, l: Live): Released {
    match l.body
    case Small(cls, _) => ToBin(cls, Raw(p, l) - HEADER)
    case Large(span) => ToLarge(Raw(p, l) - HEADER, span)
  }

  predicate LargeSizePlausible(span: int, page: nat)
    requires page > 0
  {
    span >= page && span % page == 0 && span < 0x1_0000_0000_0000
  }

  function AlignedWant(page: nat, alignment: nat, size: nat): Want
    requires page > 0
  {
    var n := if size == 0 then 1 else size;
    if !PowerOfTwo(alignment) || alignment > MAX_ALIGNMENT then Refused
    else if alignment <= ALIGNMENT then Asked(page, n)
    else if n + alignment + STASH >= WORD then Refused
    else Asked(page, n + alignment + STASH)
  }

  /** What the operating system answers when a span is resized: whether it is part of a pool chunk, whether
      the tail is given back, and where the grown span is. */
  datatype Remap = Remap(pooled: bool, shrinks: bool, grows: bool, base: int)

  /** A grown span is memory no other live block has. */
  ghost predicate RemapOk(page: nat, live: map<int, Live>, p: int, n: nat, os: Remap)
    requires page > 0 && p in live
  {
    IsLarge(live[p]) && Guarded(page, n) && !os.pooled && os.grows ==>
      var needed := RoundUp(n + HEADER, page);
      && BodyOk(page, os.base + HEADER, Large(needed)) && Fresh(live - {p}, os.base, os.base + needed)
  }

  function ReallocWant(page: nat, live: map<int, Live>, p: int, n: nat): Want
    requires page > 0
  {
    if p in live && live[p].Over? then AlignedWant(page, live[p].alignment, n) else Asked(page, n)
  }

  /** The first `n` of the `room` bytes at `p` are now at `r`. */
  ghost predicate Prefix(m: Mem, m': Mem, p: int, r: int, room: int, n: nat) {
    forall a {:trigger At(m', a)} :: r <= a < r + n && a < r + room ==> At(m', a) == At(m, p + (a - r))
  }

  /** Block `p` has become block `r`: its first `n` bytes, as far as it had them, are those of
      before, and every other block and its bytes are as before. */
  ghost predicate Resized(live: map<int, Live>, m: Mem, live': map<int, Live>, m': Mem, p: int, r: int, n: nat) {
    && p in live && r in live' && (r == p || r !in live)
    && live' - {r} == live - {p}
    && Prefix(m, m', p, r, Room(live[p]), n)
    && Kept(live - {p}, m, m')
  }

  function HeaderWords(m: Mem, raw: int, body: Body): Mem {
    match body
    case Small(cls, slab) => PutHalf(Put(m, raw - 16, if slab < 0 then 0 else slab), raw - 8, cls)
    case Large(span) => Put(Put(m, raw - 16, 0), raw - 8, span)
  }

  lemma HeaderWordsAre(page: nat, m: Mem, raw: int, body: Body)
    requires PageOk(page) && BodyOk(page, raw, body)
    ensures BodyHeader(HeaderWords(m, raw, body), raw, body) && SameBut(m, HeaderWords(m, raw, body), raw - 16, raw)
  {
    hide Put, PutHalf, Word, Half, PowerOfTwo;
    match body
    case Small(cls, slab) =>
      var m1 := Put(m, raw - 16, slab);
      var m2 := PutHalf(m1, raw - 8, cls);
      PutWord(m, raw - 16, slab);
      PutHalfIs(m1, raw - 8, cls);
      WordAgree(m1, m2, raw - 16);
      Widen(m, m1, raw - 16, raw - 8, raw - 16, raw);
      Widen(m1, m2, raw - 8, raw - 4, raw - 16, raw);
      Through(m, m1, m2, raw - 16, raw);
    case Large(span) => TwoWords(m, raw - 16, 0, span);
  }

  lemma StashOk(page: nat, m: Mem, raw: int, p: int, body: Body, a: nat, n: nat)
    requires PageOk(page) && LiveOk(page, p, Over(body, raw, a, n)) && BodyHeader(m, raw, body) && n < WORD
    ensures HeaderOk(StashWords(m, p, a, raw, n), p, Over(body, raw, a, n)) && SameBut(m, StashWords(m, p, a, raw, n), p - 32, p)
  {
    hide Word, Half, Put, PowerOfTwo, StashWords, BodyHeader;
    var m' := StashWords(m, p, a, raw, n);
    StashWordsAre(m, p, a, raw, n);
    HeaderAgree(m, m', raw, Plain(body)) by { assert HeaderOk(m, raw, Plain(body)); }
  }

  lemma RestashOk(page: nat, m: Mem, p: int, l: Live, n: nat)
    requires PageOk(page) && LiveOk(page, p, l) && l.Over? && HeaderOk(m, p, l) && 1 <= n <= l.size
    ensures n < WORD && LiveOk(page, p, l.(size := n))
    ensures HeaderOk(Put(m, p - 8, n), p, l.(size := n)) && SameBut(m, Put(m, p - 8, n), p - 8, p)
  {
    hide Word, Half, Put, PowerOfTwo, BodyHeader;
    var m' := Put(m, p - 8, n);
    PutWord(m, p - 8, n);
    HeaderAgree(m, m', l.raw, Plain(l.body)) by { assert HeaderOk(m, l.raw, Plain(l.body)); }
    WordAgree(m, m', p - 32);
    WordAgree(m, m', p - 24);
    WordAgree(m, m', p - 16);
  }

  class Allocator {
    const page: nat
    var mem: Mem
    ghost var live: map<int, Live>

    ghost predicate Valid()
      reads this
    {
      Shaped(page, live) && Headed(live, mem)
    }

    constructor (page: nat, mem: Mem)
      requires PageOk(page)
      ensures Valid() && live == map[] && this.page == page && this.mem == mem
    {
      this.page, this.mem, this.live := page, mem, map[];
    }

    method Malloc(size: nat, g: Grant) returns (r: int)
      requires Valid() && size < WORD && GrantOk(page, live, Asked(page, size), g)
      modifies this
      ensures Valid()
      ensures r == 0 <==> g.NoGrant? || Asked(page, size).Refused?
      ensures r == 0 ==> live == old(live) && mem == old(mem)
      ensures r != 0 ==> r == g.raw && r !in old(live) && live == old(live)[r := Plain(g.body)] && Room(live[r]) >= size
      ensures r != 0 ==> Fresh(old(live), Lo(r, live[r]), Hi(r, live[r]))
      ensures r != 0 ==> SameBut(old(mem), mem, r - HEADER, r) && Kept(live, old(mem), mem)
    {
      hide PowerOfTwo, HeaderOk, LiveOk, Apart, PageRoundUp, RoundDown, Kept, SameBut, Headed;
      WantHolds(page, size);
      var n := if size == 0 then 1 else size;
      if n > MAX_SMALL_REQUEST {
        var allocSize := Add64(n, HEADER);
        if allocSize < n { return 0; }
        if allocSize > WORD - page { return 0; }
        PageRoundUpExact(n + HEADER, page);
        allocSize := PageRoundUp(allocSize, page);
        assert Asked(page, size) == WantLarge(allocSize);
      }
      if g.NoGrant? { return 0; }
      r := Place(g);
    }

    /** Write the header of a granted block. */
    method Place(g: Grant) returns (r: int)
      requires Valid() && g.Grant? && BodyOk(page, g.raw, g.body)
      requires Fresh(live, g.raw - HEADER, g.raw - HEADER + SizeOf(g.body))
      modifies this
      ensures Valid() && r == g.raw && r !in old(live) && live == old(live)[r := Plain(g.body)]
      ensures SameBut(old(mem), mem, r - HEADER, r) && Kept(live, old(mem), mem)
    {
      hide PowerOfTwo, Apart, Fresh, HeaderWords, SameBut, Headed, Kept;
      r := g.raw;
      ghost var l := Plain(g.body);
      HeaderWordsAre(page, mem, r, g.body);
      Inside(page, r, l);
      mem := HeaderWords(mem, r, g.body);
      Widen(old(mem), mem, r - HEADER, r, Lo(r, l), Hi(r, l));
      Joined(page, live, old(mem), mem, r, l);
      live := live[r := l];
      HeaderWriteKeeps(page, live, r, old(mem), mem);
    }

    /** Free; null and implausible pointers are ignored.  The freed memory holds a free-list link. */
    method Free(p: int, link: nat) returns (out: Released)
      requires Valid() && (p == 0 || !Plausible(p) || p in live) && link < WORD
      modifies this
      ensures Valid() && live == old(live) - {p} && Kept(live, old(mem), mem)
      ensures out == if p in old(live) then ReleasedOf(p, old(live)[p]) else Nothing
      ensures p !in old(live) ==> mem == old(mem)
    {
      hide PowerOfTwo, HeaderOk, BodyOk, Apart;
      if p == 0 || !Plausible(p) {
        LivePlausible(page, live, p);
        out := Nothing;
        assert live - {p} == live;
        return;
      }
      out := Release(p, live[p]);
      mem := Linked(mem, out, link);
      LinkedIs(page, old(mem), p, live[p], link);
      hide *;
      Dropped(page, live, old(mem), mem, p);
      live := live - {p};
    }

    /** What the words in front of `p` say: the pointer an over-aligned block hides is found
        after one recursion, and neither header check fires. */
    method Release(p: int, ghost l: Live) returns (out: Released)
      requires PageOk(page) && LiveOk(page, p, l) && HeaderOk(mem, p, l)
      ensures out == ReleasedOf(p, l)
      decreases l.Over?
    {
      hide Word, Half, PowerOfTwo;
      KindsTold(page, mem, p, l);
      var field := Word(mem, p - 16);
      if field == 0 {
        var span := Word(mem, p - 8);
        if !LargeSizePlausible(span, page) { assert false; }
        out := ToLarge(p - HEADER, span);
      } else if field == ALIGN_MAGIC {
        out := Release(Word(mem, p - 24), Plain(l.body));
      } else {
        var cls := Half(mem, p - 8);
        if cls >= NUM_SIZE_CLASSES { assert false; }
        out := ToBin(cls, p - HEADER);
      }
    }

    method AlignedAlloc(alignment: nat, size: nat, g: Grant) returns (r: int)
      requires Valid() && alignment < WORD && size < WORD && GrantOk(page, live, AlignedWant(page, alignment, size), g)
      modifies this
      ensures Valid()
      ensures r == 0 <==> g.NoGrant? || AlignedWant(page, alignment, size).Refused?
      ensures r == 0 ==> live == old(live) && mem == old(mem)
      ensures r != 0 ==> r in live && r !in old(live) && live == old(live)[r := live[r]]
      ensures r != 0 ==> r % ALIGNMENT == 0 && r % alignment == 0 && Room(live[r]) >= size
      ensures r != 0 ==> Fresh(old(live), Lo(r, live[r]), Hi(r, live[r])) && Kept(live, old(mem), mem)
      ensures r != 0 && alignment > ALIGNMENT ==> live[r].Over? && live[r].alignment == alignment
      ensures r != 0 ==> g.Grant? && live[r].body == g.body && Raw(r, live[r]) == g.raw
    {
      assert !PowerOfTwo(0);
      hide Valid, RoundDown, LiveOk, PowerOfTwo, Kept, And;
      var n := if size == 0 then 1 else size;
      if alignment == 0 { return 0; }
      PowerTest(alignment);
      if And(alignment, alignment - 1) != 0 { return 0; }
      var a := if alignment < ALIGNMENT then ALIGNMENT else alignment;
      if a > MAX_ALIGNMENT { return 0; }
      if a <= ALIGNMENT {
        r := Malloc(n, g);
        if r != 0 { NaturallyAligned(this, r, alignment); }
      } else {
        r := OverAlloc(a, n, g);
      }
    }

    /** Over-allocate so that the stash and the alignment slack fit in the raw block. */
    method OverAlloc(a: nat, n: nat, g: Grant) returns (r: int)
      requires Valid() && ALIGNMENT < a <= MAX_ALIGNMENT && PowerOfTwo(a) && 1 <= n < WORD
      requires GrantOk(page, live, AlignedWant(page, a, n), g)
      modifies this
      ensures Valid()
      ensures r == 0 <==> g.NoGrant? || AlignedWant(page, a, n).Refused?
      ensures r == 0 ==> live == old(live) && mem == old(mem)
      ensures r != 0 ==> g.Grant? && r !in old(live) && live == old(live)[r := Over(g.body, g.raw, a, n)]
      ensures r != 0 ==> r % ALIGNMENT == 0 && r % a == 0
      ensures r != 0 ==> Fresh(old(live), Lo(r, live[r]), Hi(r, live[r])) && Kept(live, old(mem), mem)
    {
      hide RoundDown, HeaderOk, PowerOfTwo, AndNot, Kept, SameBut, Headed, Apart, Fresh, LiveOk;
      var rawSize := Add64(Add64(n, a), STASH);
      if rawSize < n { return 0; }
      assert rawSize == n + a + STASH;
      var raw := Malloc(rawSize, g);
      if raw == 0 { return 0; }
      hide Asked, AlignedWant, GrantOk;
      r := AlignIn(raw, a, n, old(live), old(mem));
    }

    /** The first aligned address in a fresh raw block that leaves room for the stash. */
    method AlignIn(raw: int, a: nat, n: nat, ghost live0: map<int, Live>, ghost m0: Mem) returns (r: int)
      requires Valid() && ALIGNMENT < a <= MAX_ALIGNMENT && PowerOfTwo(a) && 1 <= n < WORD
      requires raw in live && live[raw].Plain? && raw !in live0 && live == live0[raw := live[raw]]
      requires n + a + STASH <= Room(live[raw]) && SameBut(m0, mem, raw - HEADER, raw)
      modifies this
      ensures Valid() && r !in live0 && live == live0[r := Over(old(live)[raw].body, raw, a, n)]
      ensures r % ALIGNMENT == 0 && r % a == 0 && r != 0 && Kept(live, m0, mem)
    {
      hide PowerOfTwo, AndNot, Kept, SameBut, Headed, Apart, HeaderOk, LiveOk, RoundDown;
      LivePlausible(page, live, raw);
      assert live - {raw} == live0;
      ghost var m1 := mem;
      MaskRounds(raw + STASH + a - 1, a);
      r := AndNot(raw + STASH + a - 1, a - 1);
      hide Plausible, Shaped;
      Stash(raw, r, a, n);
      HeaderWriteKeeps(page, live, r, m0, m1);
      KeptThrough(live, m0, m1, mem);
    }

    /** Write the stash of an over-aligned block into the raw block. */
    method Stash(raw: int, p: int, a: nat, n: nat)
      requires Valid() && raw in live && live[raw].Plain? && 1 <= n
      requires ALIGNMENT < a <= MAX_ALIGNMENT && PowerOfTwo(a) && Plausible(raw) && p == RoundDown(raw + STASH + a - 1, a)
      requires n + a + STASH <= Room(live[raw])
      modifies this
      ensures Valid() && p !in old(live)
      ensures live == (old(live) - {raw})[p := Over(old(live)[raw].body, raw, a, n)]
      ensures Kept(live, old(mem), mem) && p % ALIGNMENT == 0 && p % a == 0 && p != 0
    {
      hide PowerOfTwo, RoundDown, Apart, Word, Half, StashWords, SameBut, Kept, Fresh;
      ghost var rest, l := live - {raw}, Over(live[raw].body, raw, a, n);
      AlignedFits(page, raw, live[raw].body, p, a, n);
      StashOk(page, mem, raw, p, live[raw].body, a, n);
      assert p % ALIGNMENT == 0 && p % a == 0 && p != 0;
      SelfFresh(live, raw);
      ShapedWithout(page, live, raw);
      HeadedWithout(live, raw, mem);
      mem := StashWords(mem, p, a, raw, n);
      hide BodyOk, HeaderOk, Headed, Shaped, Plausible;
      Widen(old(mem), mem, p - 32, p, Lo(p, l), Hi(p, l));
      Joined(page, rest, old(mem), mem, p, l);
      live := rest[p := l];
      HeaderWriteKeeps(page, live, p, old(mem), mem);
    }

    method Realloc(p: int, n: nat, g: Grant, os: Remap, link: nat) returns (r: int)
      requires Valid() && n < WORD && link < WORD && (p == 0 || !Plausible(p) || p in live)
      requires GrantOk(page, live, ReallocWant(page, live, p, n), g)
      requires p in live ==> RemapOk(page, live, p, n, os)
      modifies this
      ensures Valid()
      ensures n == 0 ==> r == 0 && live == old(live) - {p} && Kept(live, old(mem), mem)
      ensures n > 0 && r == 0 ==> live == old(live) && mem == old(mem)
      ensures n > 0 && p == 0 && r != 0 ==>
                r !in old(live) && r in live && live == old(live)[r := live[r]] && n <= Room(live[r]) && Kept(live, old(mem), mem)
      ensures n > 0 && p != 0 && r != 0 ==> Resized(old(live), old(mem), live, mem, p, r, n)
      ensures n > 0 && p != 0 && r != 0 ==> (n <= Room(live[r]) <==> Guarded(page, n) || !IsLarge(old(live)[p]))
      ensures n > 0 && p in old(live) && IsLarge(old(live)[p]) && !Guarded(page, n) ==> r == p != 0 && live == old(live) && mem == old(mem)
      ensures n > 0 && r == 0 && p in old(live) ==>
                g.NoGrant? || ReallocWant(page, old(live), p, n).Refused? || (old(live)[p].Over? && old(live)[p].size > MAX_STASHED)
      ensures n > 0 && p != 0 && r != 0 && old(live)[p].Over? ==> live[r].Over? && live[r].alignment == old(live)[p].alignment
    {
      hide BodyOk, PowerOfTwo, RoundDown, Kept, Word, Prefix, Apart;
      if n == 0 {
        var _ := Free(p, link);
        return 0;
      }
      if p == 0 {
        LivePlausible(page, live, p);
        r := Malloc(n, g);
        return;
      }
      if !Plausible(p) {
        LivePlausible(page, live, p);
        return 0;
      }
      KindsTold(page, mem, p, live[p]);
      hide LiveOk, HeaderOk;
      if Word(mem, p - 16) == ALIGN_MAGIC {
        r := ReallocOver(p, n, g, link);
      } else if Word(mem, p - 16) == 0 {
        r := ReallocLarge(p, n, g, os, link);
      } else {
        r := ReallocSmall(p, n, g, link);
      }
    }

    method ReallocSmall(p: int, n: nat, g: Grant, link: nat) returns (r: int)
      requires Valid() && 1 <= n < WORD && link < WORD && p in live && live[p].Plain? && live[p].body.Small?
      requires GrantOk(page, live, Asked(page, n), g)
      modifies this
      ensures Valid()
      ensures r == 0 ==> live == old(live) && mem == old(mem)
      ensures r == 0 ==> g.NoGrant? || Asked(page, n).Refused?
      ensures r != 0 ==> Resized(old(live), old(mem), live, mem, p, r, n) && n <= Room(live[r]) && live[r].Plain?
    {
      hide Half, Word, PowerOfTwo, Apart;
      assert LiveOk(page, p, live[p]) && HeaderOk(mem, p, live[p]);
      var cls := Half(mem, p - 8);
      var oldSize := UsableSize(cls);
      if n <= oldSize && cls <= RequestToClass(n) + 1 { return p; }
      r := CopyOver(p, n, oldSize, g, link);
    }

    method ReallocLarge(p: int, n: nat, g: Grant, os: Remap, link: nat) returns (r: int)
      requires Valid() && 1 <= n < WORD && link < WORD && p in live && IsLarge(live[p])
      requires GrantOk(page, live, Asked(page, n), g) && RemapOk(page, live, p, n, os)
      modifies this
      ensures Valid()
      ensures r == 0 ==> live == old(live) && mem == old(mem)
      ensures r == 0 ==> g.NoGrant? || Asked(page, n).Refused?
      ensures r != 0 ==> Resized(old(live), old(mem), live, mem, p, r, n) && live[r].Plain?
      ensures r != 0 ==> (n <= Room(live[r]) <==> Guarded(page, n))
      ensures !Guarded(page, n) ==> r == p && live == old(live) && mem == old(mem)
    {
      hide RoundDown, HeaderOk, PageRoundUp, Word, Half, Apart, PowerOfTwo, Headed;
      var span := Word(mem, p - 8);
      assert span == live[p].body.span by { SpanWord(this, p); }
      if !LargeSizePlausible(span, page) { assert false; }
      var needed := PageRoundUp(Add64(n, HEADER), page);
      if n <= span - HEADER {
        ShrinkGains(n, span, page);
        if span - HEADER - n < page { return p; }
        if needed >= span { assert false; }
        if os.pooled || !os.shrinks { return p; }
        SelfFresh(live, p);
        Resize(p, p - HEADER, needed, n);
        r := p;
      } else if needed > span {
        GrowthIff(n, span, page);
        if !os.pooled && os.grows {
          Resize(p, os.base, needed, n);
          r := os.base + HEADER;
        } else {
          r := CopyOver(p, n, span - HEADER, g, link);
        }
      } else {
        GrowthIff(n, span, page);
        r := p;
      }
    }

    /** The generic path: allocate, copy, free. */
    method CopyOver(p: int, n: nat, oldSize: nat, g: Grant, link: nat) returns (r: int)
      requires Valid() && 1 <= n < WORD && link < WORD && p in live && live[p].Plain? && oldSize == Room(live[p])
      requires GrantOk(page, live, Asked(page, n), g)
      modifies this
      ensures Valid()
      ensures r == 0 ==> live == old(live) && mem == old(mem)
      ensures r == 0 ==> g.NoGrant? || Asked(page, n).Refused?
      ensures r != 0 ==> Resized(old(live), old(mem), live, mem, p, r, n) && n <= Room(live[r]) && live[r].Plain?
    {
      r := Malloc(n, g);
      hide *;
      if r != 0 { MoveTo(p, r, n, oldSize, link, old(live), old(mem)); }
    }

    /** Copy a block's bytes to a new block, then free it. */
    method MoveTo(p: int, r: int, n: nat, oldSize: nat, link: nat, ghost live0: map<int, Live>, ghost m0: Mem)
      requires Valid() && link < WORD && p in live0 && r in live && r !in live0 && live == live0[r := live[r]]
      requires oldSize == Room(live0[p]) && n <= Room(live[r]) && Kept(live, m0, mem)
      modifies this
      ensures Valid() && Resized(live0, m0, live, mem, p, r, n) && live == old(live) - {p}
    {
      hide Copy, Kept, Headed, Shaped, Resized;
      var m, count := mem, if oldSize < n then oldSize else n;
      mem := Copy(m, r, p, count);
      CopySameBut(m, r, p, count);
      Widen(m, mem, r, r + count, r, r + Room(live[r]));
      UserWriteKeeps(page, live, r, m, mem);
      ghost var live1, m1 := live, mem;
      var _ := Free(p, link);
      Moved(live0, live1, p, r, n, count, m0, m, mem);
    }

    /** Give back the tail of a span, or move it to where it has room; the operating system
        keeps what both have. */
    method Resize(p: int, base: int, needed: nat, n: nat)
      requires Valid() && p in live && IsLarge(live[p])
      requires BodyOk(page, base + HEADER, Large(needed)) && Fresh(live - {p}, base, base + needed)
      requires n + HEADER <= needed
      modifies this
      ensures Valid() && live == (old(live) - {p})[base + HEADER := Plain(Large(needed))]
      ensures Resized(old(live), old(mem), live, mem, p, base + HEADER, n)
    {
      hide Copy, Put, Fresh, BodyOk, Kept, Word, Half, Apart, SameBut, PowerOfTwo, Prefix;
      SpanWord(this, p);
      var r, m, span := base + HEADER, mem, Word(mem, p - 8);
      mem := Put(Copy(m, base, p - HEADER, if span < needed then span else needed), base + 8, needed);
      ghost var l := Plain(Large(needed));
      SpanMoves(page, m, p, base, span, needed, n);
      ShapedWithout(page, live, p);
      HeadedWithout(live, p, m);
      hide HeaderOk, LiveOk;
      Joined(page, live - {p}, m, mem, r, l);
      live := (live - {p})[r := l];
      assert live - {r} == old(live) - {p};
    }

    method ReallocOver(p: int, n: nat, g: Grant, link: nat) returns (r: int)
      requires Valid() && 1 <= n < WORD && link < WORD && p in live && live[p].Over?
      requires GrantOk(page, live, AlignedWant(page, live[p].alignment, n), g)
      modifies this
      ensures Valid()
      ensures r == 0 ==> live == old(live) && mem == old(mem)
      ensures r == 0 <== old(live)[p].size > MAX_STASHED
      ensures r == 0 ==> g.NoGrant? || AlignedWant(page, old(live)[p].alignment, n).Refused? || old(live)[p].size > MAX_STASHED
      ensures r != 0 ==> Resized(old(live), old(mem), live, mem, p, r, n) && n <= Room(live[r])
      ensures r != 0 ==> live[r].Over? && live[r].alignment == old(live)[p].alignment
    {
      hide BodyOk, PowerOfTwo, Word, Half, Resized, Kept, And, Fresh, Apart;
      assert LiveOk(page, p, live[p]) && HeaderOk(mem, p, live[p]);
      var alignment, oldSize := Word(mem, p - 32), Word(mem, p - 8);
      PowerTest(alignment);
      if alignment < ALIGNMENT || alignment > MAX_ALIGNMENT || And(alignment, alignment - 1) != 0 || oldSize > MAX_STASHED { return 0; }
      if n <= oldSize {
        Restash(p, n);
        return p;
      }
      r := AlignedAlloc(alignment, n, g);
      hide *;
      if r != 0 { MoveTo(p, r, n, oldSize, link, old(live), old(mem)); }
    }

    /** Record a smaller size in the stash. */
    method Restash(p: int, n: nat)
      requires Valid() && p in live && live[p].Over? && 1 <= n <= live[p].size
      modifies this
      ensures Valid() && live == old(live)[p := old(live)[p].(size := n)]
      ensures Resized(old(live), old(mem), live, mem, p, p, n)
    {
      hide BodyOk, PowerOfTwo, Apart, Put, Word, Half, Fresh, Kept;
      ghost var rest, l := live - {p}, live[p].(size := n);
      assert LiveOk(page, p, live[p]) && HeaderOk(mem, p, live[p]);
      RestashOk(page, mem, p, live[p], n);
      SelfFresh(live, p);
      ShapedWithout(page, live, p);
      HeadedWithout(live, p, mem);
      mem := Put(mem, p - 8, n);
      hide HeaderOk, Headed;
      Widen(old(mem), mem, p - 8, p, Lo(p, l), Hi(p, l));
      Joined(page, rest, old(mem), mem, p, l);
      live := rest[p := l];
      assert live - {p} == old(live) - {p};
    }
  }

  /** The free list's link, in the memory of a freed block. */
  function Linked(m: Mem, out: Released, link: nat): Mem {
    match out
    case Nothing => m
    case ToBin(_, block) => Put(m, block + 16, link)
    case ToLarge(header, span) => Put(Put(m, header, link), header + 8, if span < 0 then 0 else span)
  }

  lemma LinkedIs(page: nat, m: Mem, p: int, l: Live, link: nat)
    requires PageOk(page) && LiveOk(page, p, l) && link < WORD
    ensures SameBut(m, Linked(m, ReleasedOf(p, l), link), Lo(p, l), Hi(p, l))
  {
    hide Put, Word, PowerOfTwo, SameBut;
    Inside(page, p, l);
    var lo, m' := Lo(p, l), Linked(m, ReleasedOf(p, l), link);
    match l.body
    case Small(_, _) =>
      PutWord(m, lo + 16, link);
      Widen(m, m', lo + 16, lo + 24, lo, Hi(p, l));
    case Large(span) =>
      TwoWords(m, lo, link, span);
      Widen(m, m', lo, lo + 16, lo, Hi(p, l));
  }

  /** Copying to a new block, which others' bytes survive, and freeing the old one moves its bytes. */
  lemma Moved(live0: map<int, Live>, live1: map<int, Live>, p: int, r: int, n: nat, count: nat, m0: Mem, m1: Mem, m3: Mem)
    requires p in live0 && r !in live0 && r in live1 && live1 == live0[r := live1[r]]
    requires n <= Room(live1[r]) && count == (if Room(live0[p]) < n then Room(live0[p]) else n)
    requires Kept(live1, m0, m1) && Kept(live1 - {r}, m1, Copy(m1, r, p, count)) && Kept(live1 - {p}, Copy(m1, r, p, count), m3)
    ensures Resized(live0, m0, live1 - {p}, m3, p, r, n)
  {
    hide Copy, Room;
    var m2 := Copy(m1, r, p, count);
    var rest := live0 - {p};
    assert live1 - {p} - {r} == rest;
    KeptFewer(live1, rest, m0, m1);
    KeptFewer(live1 - {r}, rest, m1, m2);
    KeptFewer(live1 - {p}, rest, m2, m3);
    KeptThrough(rest, m0, m1, m2);
    KeptThrough(rest, m0, m2, m3);
    forall a {:trigger At(m3, a)} | r <= a < r + n && a < r + Room(live0[p]) ensures At(m3, a) == At(m0, p + (a - r)) {
      assert (live1 - {p})[r] == live1[r] && live1[p] == live0[p];
      CopyAt(m1, r, p, count, a);
      assert At(m1, p + (a - r)) == At(m0, p + (a - r));
    }
  }

  /** Moving a span keeps the bytes both have; then its size is recorded. */
  lemma SpanMoves(page: nat, m: Mem, p: int, base: int, span: nat, needed: nat, n: nat)
    requires PageOk(page) && BodyOk(page, base + HEADER, Large(needed)) && HeaderOk(m, p, Plain(Large(span))) && page <= span
    requires n + HEADER <= needed
    ensures var r, m' := base + HEADER, Put(Copy(m, base, p - HEADER, if span < needed then span else needed), base + 8, needed);
            && LiveOk(page, r, Plain(Large(needed))) && HeaderOk(m', r, Plain(Large(needed)))
            && SameBut(m, m', base, base + needed) && Prefix(m, m', p, r, span - HEADER, n)
  {
    hide Copy, Put, Word, Half, PowerOfTwo;
    var r, from, count := base + HEADER, p - HEADER, if span < needed then span else needed;
    var m1 := Copy(m, base, from, count);
    var m' := Put(m1, base + 8, needed);
    PutWord(m1, base + 8, needed);
    PutOther(m1, base + 8, needed, base);
    CopyWord(m, base, from, count, 0);
    CopySameBut(m, base, from, count);
    Widen(m, m1, base, base + count, base, base + needed);
    Widen(m1, m', base + 8, base + 16, base, base + needed);
    Through(m, m1, m', base, base + needed);
    forall a {:trigger At(m', a)} | r <= a < r + n && a < r + (span - HEADER) ensures At(m', a) == At(m, p + (a - r)) {
      CopyAt(m, base, from, count, a);
      assert At(m', a) == At(m1, a);
      assert from + (a - base) == p + (a - r);
    }
  }

  lemma SpanWord(h: Allocator, p: int)
    requires h.Valid() && p in h.live && IsLarge(h.live[p])
    ensures Word(h.mem, p - 8) == h.live[p].body.span >= h.page && HeaderOk(h.mem, p, h.live[p])
    ensures PageOk(h.page) && BodyOk(h.page, p, h.live[p].body)
  {
    hide Word, PowerOfTwo;
    assert LiveOk(h.page, p, h.live[p]);
  }

  lemma NaturallyAligned(h: Allocator, r: int, a: nat)
    requires h.Valid() && r in h.live && PowerOfTwo(a) && a <= ALIGNMENT
    ensures r % ALIGNMENT == 0 && r % a == 0
  {
    hide HeaderOk, PowerOfTwo, BodyOk;
    SmallPowers(a);
    assert Plausible(r) by { assert LiveOk(h.page, r, h.live[r]); }
    hide *;
    SixteenDivides(r, a);
  }

  /** The stash and the user bytes fit in the raw block behind its header. */
  lemma AlignedFits(page: nat, raw: int, body: Body, p: int, a: nat, n: nat)
    requires PageOk(page) && BodyOk(page, raw, body) && 1 <= n
    requires ALIGNMENT < a <= MAX_ALIGNMENT && PowerOfTwo(a) && p == RoundDown(raw + STASH + a - 1, a)
    requires n + a + STASH <= SizeOf(body) - HEADER
    ensures LiveOk(page, p, Over(body, raw, a, n))
  {
    hide RoundDown, PowerOfTwo;
    BigPowers(a);
    RoundsDown(raw + STASH + a - 1, a);
    AlignedAt(p, a);
  }

  /** Growing a span past malloc's guard: the rounded size wraps, and the caller gets the block it had. */
  method GrowthWraps(n: nat) returns (h: Allocator, p: int, r: int)
    requires n < WORD && !Guarded(4096, n)
    ensures fresh(h) && h.Valid() && r == p != 0 && p in h.live && Room(h.live[p]) < n
  {
    assert PowerOfTwo(4096);
    hide PowerOfTwo, Resized, Kept, Apart, Headed, RoundDown;
    h := new Allocator(4096, map[]);
    RoundsUp(12000 + HEADER, 4096);
    p := h.Malloc(12000, Grant(0x10_0010, Large(16384)));
    r := h.Realloc(p, n, NoGrant, Remap(true, false, false, 0), 0);
  }
}
