/**
 A slab (src/slab.h) and the extraction of a batch from it (src/global_heap.cpp): blocks are taken
 from the free list first and carved from untouched memory after that.
 */
module SlabBlocks {
  import opened Config
  import opened Links

  /** The blocks carved so far. */
  function Carved(base: int, cls: nat, n: nat): set<int> {
    if n == 0 then {} else Carved(base, cls, n - 1) + {BlockAt(base, cls, n - 1)}
  }

  /** A block lies behind all blocks carved before it. */
  lemma {:induction false} NextIsNew(base: int, cls: nat, n: nat, k: nat)
    requires n <= k
    ensures BlockAt(base, cls, k) !in Carved(base, cls, n)
    ensures forall y {:trigger y in Carved(base, cls, n)} :: y in Carved(base, cls, n) ==> y + ClassIndexToSize(cls) <= BlockAt(base, cls, k)
  {
    if n > 0 {
      NextIsNew(base, cls, n - 1, k);
      BlockAtMonotone(base, cls, n - 1, k);
    }
  }

  lemma {:induction false} CarvedAfter(base: int, cls: nat, n: nat, y: int)
    requires base > 0 && y in Carved(base, cls, n)
    ensures y > 0
  {
    if n > 0 {
      if y == BlockAt(base, cls, n - 1) { BlockAtIs(base, cls, n - 1); } else { CarvedAfter(base, cls, n - 1, y); }
    }
  }

  function ToSet(s: seq<int>): set<int> {
    set y | y in s
  }

  class Slab {
    const base: int
    const cls: nat
    const total: nat
    /** The link words of the blocks. */
    var next: map<int, int>
    var freeList: int
    var freeBlocks: nat
    var nextNew: nat
    ghost var free: seq<int>

    ghost predicate Valid()
      reads this
    {
      && 0 < base && nextNew <= total
      && Chain(next, freeList, free, 0) && NoDup(free)
      && (forall i :: 0 <= i < |free| ==> free[i] in Carved(base, cls, nextNew))
      && freeBlocks == |free| + (total - nextNew)
    }

    /** The blocks that have been taken and not returned. */
    ghost function Taken(): set<int>
      reads this
    {
      Carved(base, cls, nextNew) - ToSet(free)
    }

    constructor (base: int, cls: nat, total: nat, next: map<int, int>)
      requires 0 < base
      ensures Valid() && Taken() == {} && freeBlocks == total && this.total == total
    {
      this.base, this.cls, this.total, this.next := base, cls, total, next;
      freeList, freeBlocks, nextNew, free := 0, total, 0, [];
    }

    /** A block nobody has, or null exactly when none is left. */
    method Allocate() returns (block: int)
      requires Valid()
      modifies this
      ensures Valid() && next.Keys >= old(next).Keys
      ensures block == 0 <==> old(freeBlocks) == 0
      ensures block == 0 ==> Taken() == old(Taken()) && freeBlocks == 0
      ensures block != 0 ==> block !in old(Taken()) && Taken() == old(Taken()) + {block} && freeBlocks == old(freeBlocks) - 1
      ensures block != 0 ==> block in next
      ensures forall y {:trigger next[y]} :: y in old(next) && y != block ==> next[y] == old(next)[y]
    {
      if freeList != 0 {
        ChainTail(next, freeList, free, 0);
        assert freeList == free[0];
        CarvedAfter(base, cls, nextNew, freeList);
        block := freeList;
        freeList := next[block];
        freeBlocks := freeBlocks - 1;
        assert free == [block] + free[1..];
        free := free[1..];
      } else if nextNew < total {
        block := BlockAt(base, cls, nextNew);
        BlockAtIs(base, cls, nextNew);
        NextIsNew(base, cls, nextNew, nextNew);
        next := next[block := 0];
        nextNew := nextNew + 1;
        freeBlocks := freeBlocks - 1;
      } else {
        block := 0;
      }
    }

    /** A taken block comes back; the check for a double return does not fire. */
    method Deallocate(block: int)
      requires Valid() && block in Taken()
      modifies this
      ensures Valid() && Taken() == old(Taken()) - {block} && freeBlocks == old(freeBlocks) + 1
      ensures freeBlocks <= total
    {
      assert block !in free;
      CarvedAfter(base, cls, nextNew, block);
      if freeList == block { assert false; }
      next := next[block := freeList];
      freeList := block;
      freeBlocks := freeBlocks + 1;
      free := [block] + free;
      WithinTotal(base, cls, nextNew, free);
    }

    /** `ExtractBlocksFromSlab`: a list of as many new blocks as asked for and left, ending in null. */
    method Extract(target: nat) returns (head: int, count: nat, ghost batch: seq<int>)
      requires Valid()
      modifies this
      ensures Valid() && Chain(next, head, batch, 0) && NoDup(batch)
      ensures count == |batch| == if target < old(freeBlocks) then target else old(freeBlocks)
      ensures ToSet(batch) !! old(Taken()) && Taken() == old(Taken()) + ToSet(batch)
      ensures freeBlocks == old(freeBlocks) - count
    {
      head, count, batch := 0, 0, [];
      var tail := 0;
      while count < target && freeBlocks != 0
        invariant Valid() && NoDup(batch) && count == |batch| <= target && freeBlocks + count == old(freeBlocks)
        invariant ToSet(batch) !! old(Taken()) && Taken() == old(Taken()) + ToSet(batch)
        invariant Open(next, head, batch) && tail == Last(batch)
        decreases target - count
      {
        var block := Allocate();
        Extended(batch, block);
        if count > 0 {
          assert tail in ToSet(batch);
          ChainWrite(next, freeList, free, 0, tail, block);
        }
        if head == 0 {
          head, tail := block, block;
        } else {
          next := next[tail := block];
          tail := block;
        }
        batch := batch + [block];
        count := count + 1;
      }
      if tail != 0 {
        NotFree(this, batch, old(Taken()));
        ChainWrite(next, freeList, free, 0, tail, 0);
        next := next[tail := 0];
      }
    }
  }

  /** A list whose last link is not set yet. */
  ghost predicate Open(next: map<int, int>, p: int, s: seq<int>) {
    && p == (if |s| == 0 then 0 else s[0])
    && (forall i :: 0 <= i < |s| ==> s[i] != 0 && s[i] in next)
    && (forall i, j :: 0 <= i && j == i + 1 && j < |s| ==> next[s[i]] == s[j])
  }

  lemma {:induction false} CarvedSize(base: int, cls: nat, n: nat)
    ensures |Carved(base, cls, n)| == n
  {
    if n > 0 {
      CarvedSize(base, cls, n - 1);
      NextIsNew(base, cls, n - 1, n - 1);
    }
  }

  /** A free list of distinct carved blocks is no longer than what was carved. */
  lemma WithinTotal(base: int, cls: nat, n: nat, free: seq<int>)
    requires NoDup(free) && forall i :: 0 <= i < |free| ==> free[i] in Carved(base, cls, n)
    ensures |free| <= n
  {
    CarvedSize(base, cls, n);
    DistinctFits(free, Carved(base, cls, n));
  }

  lemma Extended(batch: seq<int>, block: int)
    ensures ToSet(batch + [block]) == ToSet(batch) + {block}
  {
  }

  lemma ChainWrite(next: map<int, int>, p: int, s: seq<int>, e: int, z: int, v: int)
    requires Chain(next, p, s, e) && z !in s
    ensures Chain(next[z := v], p, s, e)
  {
  }

  /** A taken block is not on the free list. */
  lemma NotFree(h: Slab, batch: seq<int>, was: set<int>)
    requires h.Taken() == was + ToSet(batch) && |batch| > 0
    ensures Last(batch) !in h.free
  {
    assert Last(batch) in ToSet(batch);
    assert Last(batch) in h.Taken();
  }
}
