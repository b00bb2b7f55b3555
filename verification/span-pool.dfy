/**
 The span pool (src/os_memory.cpp): spans of up to 2 MB are carved one after the other from 4 MB
 chunks and never handed out again.  Where a new chunk is mapped is a parameter.
 */
module SpanPool {

  const CHUNK_SIZE: nat := 0x40_0000
  const MAX_POOLED_SPAN: nat := 0x20_0000
  const MAX_CHUNKS: nat := 64

  datatype Chunk = Chunk(base: int, bump: int)

  datatype Span = Span(base: int, size: nat)

  datatype Option<T> = None | Some(value: T)

  predicate Apart(a: Span, b: Span) {
    a.base + a.size <= b.base || b.base + b.size <= a.base
  }

  function Whole(c: Chunk): Span {
    Span(c.base, CHUNK_SIZE)
  }

  /** The span lies in the part of the chunk that is used up. */
  predicate Used(c: Chunk, s: Span) {
    c.base <= s.base && s.base + s.size <= c.bump
  }

  predicate Fits(c: Chunk, size: nat) {
    c.bump + size <= c.base + CHUNK_SIZE
  }

  /** Chunks do not overlap, and neither do the spans carved from them. */
  ghost predicate Sound(chunks: seq<Chunk>, carved: seq<Span>) {
    && (forall i :: 0 <= i < |chunks| ==> chunks[i].base <= chunks[i].bump <= chunks[i].base + CHUNK_SIZE)
    && (forall i, j :: 0 <= i < j < |chunks| ==> Apart(Whole(chunks[i]), Whole(chunks[j])))
    && (forall k :: 0 <= k < |carved| ==> InSome(chunks, carved[k]))
    && (forall j, k :: 0 <= j < k < |carved| ==> Apart(carved[j], carved[k]))
  }

  class Pool {
    var chunks: seq<Chunk>
    /** The spans carved so far. */
    ghost var carved: seq<Span>

    ghost predicate Valid()
      reads this
    {
      |chunks| <= MAX_CHUNKS && Sound(chunks, carved)
    }

    constructor ()
      ensures Valid() && carved == []
    {
      chunks, carved := [], [];
    }

    /** A span apart from every span carved before, in the first chunk with room; none only when no
        chunk has room and no further chunk can be had. */
    method Carve(size: nat, mapping: Option<int>) returns (r: Option<int>)
      requires Valid() && 0 < size <= MAX_POOLED_SPAN
      requires mapping.Some? ==> forall i :: 0 <= i < |chunks| ==> Apart(Whole(chunks[i]), Span(mapping.value, CHUNK_SIZE))
      modifies this
      ensures Valid()
      ensures r.Some? ==> carved == old(carved) + [Span(r.value, size)]
      ensures r.None? ==> carved == old(carved) && chunks == old(chunks)
      ensures r.None? <==> (forall i :: 0 <= i < |old(chunks)| ==> !Fits(old(chunks)[i], size)) && (|old(chunks)| == MAX_CHUNKS || mapping.None?)
    {
      hide Sound;
      var i := 0;
      while i < |chunks|
        invariant 0 <= i <= |chunks| && unchanged(this)
        invariant forall k :: 0 <= k < i ==> !Fits(chunks[k], size)
      {
        var c := chunks[i];
        if c.bump + size <= c.base + CHUNK_SIZE {
          Bumped(chunks, carved, i, size);
          r := Some(c.bump);
          chunks := chunks[i := c.(bump := c.bump + size)];
          carved := carved + [Span(c.bump, size)];
          return;
        }
        i := i + 1;
      }
      if |chunks| < MAX_CHUNKS && mapping.Some? {
        Opened(chunks, carved, mapping.value, size);
        chunks := chunks + [Chunk(mapping.value, mapping.value + size)];
        carved := carved + [Span(mapping.value, size)];
        r := mapping;
      } else {
        r := None;
      }
    }

    /** Whether an address belongs to a chunk. */
    method Contains(p: int) returns (found: bool)
      ensures found <==> exists i :: 0 <= i < |chunks| && chunks[i].base <= p < chunks[i].base + CHUNK_SIZE
    {
      var i := 0;
      while i < |chunks|
        invariant 0 <= i <= |chunks|
        invariant forall k :: 0 <= k < i ==> !(chunks[k].base <= p < chunks[k].base + CHUNK_SIZE)
      {
        if chunks[i].base <= p < chunks[i].base + CHUNK_SIZE { return true; }
        i := i + 1;
      }
      return false;
    }
  }

  ghost predicate InSome(chunks: seq<Chunk>, s: Span) {
    exists i :: 0 <= i < |chunks| && Used(chunks[i], s)
  }

  /** What is carved from the free end of a chunk is apart from everything carved before. */
  lemma Bumped(chunks: seq<Chunk>, carved: seq<Span>, i: nat, size: nat)
    requires i < |chunks| && Fits(chunks[i], size) && Sound(chunks, carved)
    ensures Sound(chunks[i := chunks[i].(bump := chunks[i].bump + size)], carved + [Span(chunks[i].bump, size)])
  {
    var s := Span(chunks[i].bump, size);
    var chunks' := chunks[i := chunks[i].(bump := chunks[i].bump + size)];
    assert Used(chunks'[i], s);
    forall k | 0 <= k < |carved| ensures InSome(chunks', carved[k]) && Apart(carved[k], s) {
      var j :| 0 <= j < |chunks| && Used(chunks[j], carved[k]);
      assert Used(chunks'[j], carved[k]);
      assert j < i ==> Apart(Whole(chunks[j]), Whole(chunks[i]));
      assert i < j ==> Apart(Whole(chunks[i]), Whole(chunks[j]));
    }
  }

  /** So is what is carved first from a new chunk. */
  lemma Opened(chunks: seq<Chunk>, carved: seq<Span>, base: int, size: nat)
    requires size <= CHUNK_SIZE && Sound(chunks, carved)
    requires forall k :: 0 <= k < |chunks| ==> Apart(Whole(chunks[k]), Span(base, CHUNK_SIZE))
    ensures Sound(chunks + [Chunk(base, base + size)], carved + [Span(base, size)])
  {
    var chunks' := chunks + [Chunk(base, base + size)];
    assert Used(chunks'[|chunks|], Span(base, size));
    forall k | 0 <= k < |carved| ensures InSome(chunks', carved[k]) && Apart(carved[k], Span(base, size)) {
      var j :| 0 <= j < |chunks| && Used(chunks[j], carved[k]);
      assert Used(chunks'[j], carved[k]);
    }
  }
}
