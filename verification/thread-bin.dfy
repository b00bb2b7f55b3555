/**
 One bin of a thread cache (src/tls_cache.h, src/tls_cache.cpp): a list of free blocks of one size
 class with its count and refill ramp.  The batch the arena heap returns on a refill is a parameter.
 */
module ThreadBin {
  import opened Config
  import opened Links
  import Heap

  predicate AllPlausible(s: seq<int>) {
    forall i :: 0 <= i < |s| ==> Plausible(s[i])
  }

  class Bin {
    const cls: nat
    /** The link words of the blocks. */
    var next: map<int, int>
    var head: int
    var count: nat
    var nextRefill: nat
    ghost var items: seq<int>

    ghost predicate Valid()
      reads this
    {
      && cls < NUM_SIZE_CLASSES
      && Chain(next, head, items, 0) && NoDup(items)
      && AllPlausible(items)
      && count == |items| < CacheLimit(cls)
      && nextRefill <= Heap.RefillCap(cls)
    }

    constructor (cls: nat, next: map<int, int>)
      requires cls < NUM_SIZE_CLASSES
      ensures Valid() && items == [] && nextRefill == 0 && this.cls == cls
    {
      this.cls, this.next, head, count, nextRefill, items := cls, next, 0, 0, 0, [];
    }

    /** Pop the bin, or refill it: the first block of the batch is handed out and the rest becomes the bin.
        The ramp moves only on a miss.  Neither link check fires. */
    method Allocate(batch: int, got: nat, ghost blocks: seq<int>) returns (block: int)
      requires Valid()
      requires head == 0 ==> Chain(next, batch, blocks, 0) && NoDup(blocks) && got == |blocks| <= Heap.RefillTarget(cls, nextRefill)
      requires head == 0 ==> AllPlausible(blocks)
      modifies this
      ensures Valid() && next == old(next)
      ensures old(items) != [] ==> [block] + items == old(items) && nextRefill == old(nextRefill)
      ensures old(items) == [] ==> nextRefill == Heap.NextRamp(cls, old(nextRefill))
      ensures old(items) == [] && blocks == [] ==> block == 0 && items == []
      ensures old(items) == [] && blocks != [] ==> [block] + items == blocks
    {
      if Plausible(head) {
        ChainTail(next, head, items, 0);
        block := head;
        head := next[block];
        count := count - 1;
        items := items[1..];
        return;
      }
      if head != 0 { assert false; }
      var target := if nextRefill == 0 then 16 else nextRefill;
      var cap := CacheLimit(cls) / 2;
      if target > cap { target := cap; }
      nextRefill := if target * 2 <= cap then target * 2 else cap;
      if batch == 0 { return 0; }
      if !Plausible(batch) { assert false; }
      ChainTail(next, batch, blocks, 0);
      block := batch;
      var rest := next[block];
      if rest != 0 && !Plausible(rest) { assert false; }
      head, count, items := rest, got - 1, blocks[1..];
    }

    /** Push a block; a bin that reaches its limit gives up exactly half the limit from its front,
        as a list of its own.  The bin is never found shorter than its count. */
    method Deallocate(block: int) returns (out: int)
      requires Valid() && Plausible(block) && block !in items
      modifies this
      ensures Valid() && nextRefill == old(nextRefill)
      ensures |old(items)| + 1 < CacheLimit(cls) ==> out == 0 && items == [block] + old(items)
      ensures |old(items)| + 1 == CacheLimit(cls) ==>
                items == ([block] + old(items))[CacheLimit(cls) / 2..]
                && Chain(next, out, ([block] + old(items))[..CacheLimit(cls) / 2], 0)
      ensures forall y {:trigger y in old(items)} :: y in old(next) && y !in old(items) && y != block ==> y in next && next[y] == old(next)[y]
    {
      if head == block { assert false; }
      next := next[block := head];
      head := block;
      count := count + 1;
      items := [block] + items;
      assert forall y :: y in items <==> y == block || y in old(items);
      if count >= CacheLimit(cls) {
        out := Overflow();
      } else {
        out := 0;
      }
    }

    /** `DeallocateBlockSlow`. */
    method Overflow() returns (out: int)
      requires cls < NUM_SIZE_CLASSES && Chain(next, head, items, 0) && NoDup(items)
      requires AllPlausible(items) && count == |items| == CacheLimit(cls)
      requires nextRefill <= Heap.RefillCap(cls)
      modifies this
      ensures Valid() && nextRefill == old(nextRefill)
      ensures items == old(items)[CacheLimit(cls) / 2..] && Chain(next, out, old(items)[..CacheLimit(cls) / 2], 0)
      ensures forall y {:trigger y in old(items)} :: y in old(next) && y !in old(items) ==> y in next && next[y] == old(next)[y]
    {
      var batch := CacheLimit(cls) / 2;
      var curr, walked := head, 1;
      while walked < batch && curr != 0
        invariant 1 <= walked <= batch && curr == items[walked - 1] && unchanged(this)
      {
        var nxt := next[curr];
        assert nxt == items[walked];
        if nxt != 0 && !Plausible(nxt) { assert false; }
        curr := nxt;
        walked := walked + 1;
      }
      if curr == 0 { assert false; }
      out := head;
      CutInTwo(next, head, items, batch);
      head := next[curr];
      next := next[curr := 0];
      count := count - batch;
      items := items[batch..];
    }
  }

  /** Ending a list after its first `n` blocks leaves two lists. */
  lemma CutInTwo(next: map<int, int>, p: int, s: seq<int>, n: nat)
    requires Chain(next, p, s, 0) && NoDup(s) && 1 <= n <= |s|
    ensures var next' := next[s[n - 1] := 0]; Chain(next', p, s[..n], 0) && Chain(next', next[s[n - 1]], s[n..], 0) && NoDup(s[n..])
  {
  }
}
