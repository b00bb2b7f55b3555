/** Size classes, cache limits and slab geometry (src/fast_alloc_config.h). */
module Config {

  const MAX_SLAB_SIZE: nat := 8192
  const ALIGNMENT: nat := 16
  const USER_OFFSET: nat := 16
  const NUM_SIZE_CLASSES: nat := 512
  const NUM_ARENAS: nat := 16
  const PAGE_SIZE: nat := 4096
  const SLAB_HEADER: nat := 80
  const MIN_USER_PTR: int := 0x10000
  const MAX_USER_PTR: int := 0x8000_0000_0000
  /** The number of values of a 64-bit word. */
  const WORD: nat := 0x1_0000_0000_0000_0000

  /** At least 64 KB, below 2^47, and 16-byte aligned. */
  predicate Plausible(p: int) {
    MIN_USER_PTR <= p < MAX_USER_PTR && p % 16 == 0
  }

  function SizeToClassIndex(size: nat): nat {
    if size == 0 then 0 else (size - 1) / 16
  }

  function ClassIndexToSize(index: nat): nat {
    (index + 1) * 16
  }

  function RequestToClass(size: nat): nat {
    SizeToClassIndex(size + USER_OFFSET)
  }

  function UsableSize(index: nat): nat {
    ClassIndexToSize(index) - USER_OFFSET
  }

  const MAX_SMALL_REQUEST: nat := MAX_SLAB_SIZE - USER_OFFSET

  /** A small request gets the smallest class whose usable size holds it, and
      never class 0, whose 16-byte blocks could not hold a free-list link. */
  lemma RequestToClassIsBestFit(size: nat)
    requires 1 <= size <= MAX_SMALL_REQUEST
    ensures 1 <= RequestToClass(size) < NUM_SIZE_CLASSES
    ensures size <= UsableSize(RequestToClass(size))
    ensures forall c: nat :: c < RequestToClass(size) ==> UsableSize(c) < size
  {
  }

  /** The number of free blocks a thread may keep in one bin. */
  function CacheLimit(index: nat): nat {
    var size := ClassIndexToSize(index);
    if size <= 64 then 16384
    else if size <= 256 then 8192
    else if size <= 1024 then 4096
    else if size <= 4096 then 1024
    else if size <= 8192 then 512
    else 128
  }

  /** The bytes of the span a slab of this class is created in. */
  function SlabBytes(index: nat): nat {
    var blockSize := ClassIndexToSize(index);
    var wanted := if blockSize >= 4096 then blockSize * 32
                  else if blockSize >= 1024 then blockSize * 128
                  else blockSize * 256;
    var target := if wanted < 65536 then 65536
                  else if wanted > 2 * 1024 * 1024 then 2 * 1024 * 1024
                  else wanted;
    (target + PAGE_SIZE - 1) / PAGE_SIZE * PAGE_SIZE
  }

  /** The number of blocks that fit behind the slab header. */
  function SlabBlocks(index: nat): nat
    requires index < NUM_SIZE_CLASSES
  {
    (SlabBytes(index) - SLAB_HEADER) / ClassIndexToSize(index)
  }

  /** The address of block `i` of the slab at `slab`. */
  function BlockAt(slab: int, index: nat, i: nat): int {
    if i == 0 then slab + SLAB_HEADER else BlockAt(slab, index, i - 1) + ClassIndexToSize(index)
  }

  lemma {:induction false} BlockAtIs(slab: int, index: nat, i: nat)
    ensures BlockAt(slab, index, i) == slab + SLAB_HEADER + i * ClassIndexToSize(index)
  {
    if i > 0 {
      BlockAtIs(slab, index, i - 1);
      assert i * ClassIndexToSize(index) == (i - 1) * ClassIndexToSize(index) + ClassIndexToSize(index);
    }
  }

  lemma {:induction false} BlockAtAligned(slab: int, index: nat, i: nat)
    requires slab % 16 == 0
    ensures BlockAt(slab, index, i) % 16 == 0
  {
    if i > 0 { BlockAtAligned(slab, index, i - 1); }
  }

  lemma {:induction false} BlockAtMonotone(slab: int, index: nat, i: nat, j: nat)
    requires i < j
    ensures BlockAt(slab, index, i) + ClassIndexToSize(index) <= BlockAt(slab, index, j)
  {
    if i + 1 < j { BlockAtMonotone(slab, index, i, j - 1); }
  }

  lemma DivFloor(a: nat, b: nat)
    requires b > 0
    ensures a / b * b <= a
    ensures b <= a ==> 1 <= a / b
  {
  }

  lemma MulStep(i: nat, n: nat, size: nat)
    requires i < n
    ensures i * size + size <= n * size
  {
    assert (i + 1) * size <= n * size;
  }

  /** All blocks of a slab lie inside its span, behind the header. */
  lemma BlockInSpan(slab: int, index: nat, i: nat)
    requires index < NUM_SIZE_CLASSES
    requires i < SlabBlocks(index)
    ensures slab + SLAB_HEADER <= BlockAt(slab, index, i)
    ensures BlockAt(slab, index, i) + ClassIndexToSize(index) <= slab + SlabBytes(index)
  {
    BlockAtIs(slab, index, i);
    BlockOffset(SlabBytes(index) - SLAB_HEADER, ClassIndexToSize(index), i);
  }

  lemma BlockOffset(room: nat, size: nat, i: nat)
    requires size > 0 && i < room / size
    ensures 0 <= i * size && i * size + size <= room
  {
    DivFloor(room, size);
    MulStep(i, room / size, size);
  }

  /** Every class has a slab geometry: a page-rounded span of 64 KB to 2 MB with room for a block. */
  lemma SlabHoldsABlock(index: nat)
    requires index < NUM_SIZE_CLASSES
    ensures 1 <= SlabBlocks(index)
    ensures 65536 <= SlabBytes(index) <= 0x20_0000 && SlabBytes(index) % PAGE_SIZE == 0
  {
    SlabBytesRange(index);
    hide SlabBytes;
    DivFloor(SlabBytes(index) - SLAB_HEADER, ClassIndexToSize(index));
  }

  lemma SlabBytesRange(index: nat)
    requires index < NUM_SIZE_CLASSES
    ensures 65536 <= SlabBytes(index) <= 0x20_0000 && SlabBytes(index) % PAGE_SIZE == 0
  {
  }

  /** `ComputeCacheLimits` fills the table the limits are read from. */
  method ComputeCacheLimits() returns (limits: array<int>)
    ensures limits.Length == NUM_SIZE_CLASSES
    ensures forall i :: 0 <= i < NUM_SIZE_CLASSES ==> limits[i] == CacheLimit(i)
  {
    limits := new int[NUM_SIZE_CLASSES];
    for i := 0 to NUM_SIZE_CLASSES
      invariant forall k :: 0 <= k < i ==> limits[k] == CacheLimit(k)
    {
      var size := (i + 1) * ALIGNMENT;
      limits[i] := if size <= 64 then 16384
                   else if size <= 256 then 8192
                   else if size <= 1024 then 4096
                   else if size <= 4096 then 1024
                   else if size <= 8192 then 512
                   else 128;
    }
  }
}
