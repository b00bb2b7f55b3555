/**
 The link memory of the allocator.

 Every free block carries one `next` word, and every free list of the
 allocator (slab free lists, thread bins, pending queues and the lists a
 thread holds while it works) is threaded through those words.  A pointer is
 an address; 0 is the null pointer.

 `Mem` is the concrete memory: the `next` words and the list heads.
 `View` is a decomposition of that memory into disjoint sequences.  It is
 never part of a state: proofs exhibit it.
 */
module Links {

  /** The list registers of one thread: the list being worked on, the batch
      being assembled, and the per-arena lists of a batch being returned. */
  datatype Reg = Work | Result | Feed | Out(arena: nat)

  datatype ListId =
    | SlabFree(slab: int)
    | Bin(thread: nat, cls: nat)
    | Pending(arena: nat, cls: nat)
    | Local(thread: nat, reg: Reg)

  datatype Mem = Mem(next: map<int, int>, head: map<ListId, int>)

  function Head(m: Mem, l: ListId): int {
    if l in m.head then m.head[l] else 0
  }

  /** From `p`, following `next`, one meets exactly the blocks of `s` and then `e`. */
  ghost predicate Chain(next: map<int, int>, p: int, s: seq<int>, e: int) {
    && p == (if |s| == 0 then e else s[0])
    && (forall i :: 0 <= i < |s| ==> s[i] != 0 && s[i] in next)
    && (forall i, j :: 0 <= i && j == i + 1 && j < |s| ==> next[s[i]] == s[j])
    && (|s| > 0 ==> next[s[|s| - 1]] == e)
  }

  ghost predicate NoDup(s: seq<int>) {
    forall i, j :: 0 <= i < j < |s| ==> s[i] != s[j]
  }

  lemma ChainTail(next: map<int, int>, p: int, s: seq<int>, e: int)
    requires Chain(next, p, s, e) && |s| > 0
    ensures p == s[0] && p in next && Chain(next, next[p], s[1..], e)
  {
  }

  /** Two chains from one head to null are the same list. */
  lemma {:induction false} ChainUnique(next: map<int, int>, p: int, s: seq<int>, s': seq<int>)
    requires Chain(next, p, s, 0) && Chain(next, p, s', 0)
    ensures s == s'
    decreases |s|
  {
    if |s| > 0 && |s'| > 0 {
      ChainTail(next, p, s, 0);
      ChainTail(next, p, s', 0);
      ChainUnique(next, next[p], s[1..], s'[1..]);
      assert s == [s[0]] + s[1..];
      assert s' == [s'[0]] + s'[1..];
    }
  }

  /** A chain visits distinct mapped blocks, so it is no longer than the memory. */
  lemma {:induction false} DistinctFits(s: seq<int>, keys: set<int>)
    requires NoDup(s)
    requires forall i :: 0 <= i < |s| ==> s[i] in keys
    ensures |s| <= |keys|
    ensures |s| == |keys| ==> forall y :: y in keys ==> y in s
  {
    if |s| > 0 {
      var n := |s| - 1;
      DistinctFits(s[..n], keys - {s[n]});
      assert s == s[..n] + [s[n]];
      forall y | y in keys && |s| == |keys| ensures y in s {
        assert y == s[n] || y in s[..n];
      }
    }
  }

  // ----- The decomposition -------------------------------------------------

  /** Which blocks each list holds, what its last block points to, and the list of each block. */
  datatype View = View(items: map<ListId, seq<int>>, ends: map<ListId, int>, own: map<int, ListId>)

  function Items(v: View, l: ListId): seq<int> {
    if l in v.items then v.items[l] else []
  }

  function End(v: View, l: ListId): int {
    if l in v.ends then v.ends[l] else 0
  }

  ghost predicate Chains(m: Mem, v: View) {
    forall l :: Chain(m.next, Head(m, l), Items(v, l), End(v, l))
  }

  ghost predicate Separate(v: View) {
    && (forall l :: NoDup(Items(v, l)))
    && (forall l, y {:trigger y in Items(v, l)} :: y in Items(v, l) ==> y in v.own && v.own[y] == l)
    && (forall y {:trigger y in v.own} :: y in v.own ==> y in Items(v, v.own[y]))
  }

  ghost predicate Rep(m: Mem, v: View) {
    Chains(m, v) && Separate(v)
  }

  /** No block is on two lists, and no block is on one list twice. */
  lemma OnOneList(m: Mem, v: View, l: ListId, l': ListId, i: nat, j: nat)
    requires Rep(m, v)
    requires i < |Items(v, l)| && j < |Items(v, l')|
    requires Items(v, l)[i] == Items(v, l')[j]
    ensures l == l' && i == j
  {
    assert Items(v, l)[i] in Items(v, l);
    assert Items(v, l')[j] in Items(v, l');
    assert NoDup(Items(v, l));
  }

  // ----- Operations on the memory and on the decomposition -----------------

  function Rehome(own: map<int, ListId>, ys: seq<int>, l: ListId): map<int, ListId> {
    map y | y in own :: if y in ys then l else own[y]
  }

  /** Unlink the first block. */
  function Pop(m: Mem, l: ListId): Mem
    requires Head(m, l) in m.next
  {
    m.(head := m.head[l := m.next[Head(m, l)]])
  }

  function VPop(v: View, l: ListId): (v': View)
    requires |Items(v, l)| > 0
    ensures forall k {:trigger Items(v', k)} :: k != l ==> Items(v', k) == Items(v, k)
    ensures forall k {:trigger End(v', k)} :: End(v', k) == End(v, k)
    ensures Items(v', l) == Items(v, l)[1..]
  {
    v.(items := v.items[l := Items(v, l)[1..]], own := v.own - {Items(v, l)[0]})
  }

  lemma PopRep(m: Mem, v: View, l: ListId)
    requires Rep(m, v) && |Items(v, l)| > 0
    ensures Head(m, l) == Items(v, l)[0] && Head(m, l) in m.next && Head(m, l) != 0
    ensures Rep(Pop(m, l), VPop(v, l))
  {
    var s := Items(v, l);
    assert Chain(m.next, Head(m, l), s, End(v, l));
    ChainTail(m.next, Head(m, l), s, End(v, l));
    VPopSeparate(v, l);
    var m', v' := Pop(m, l), VPop(v, l);
    forall l' ensures Chain(m'.next, Head(m', l'), Items(v', l'), End(v', l')) {
      assert Chain(m.next, Head(m, l'), Items(v, l'), End(v, l'));
    }
  }

  lemma VPopSeparate(v: View, l: ListId)
    requires Separate(v) && |Items(v, l)| > 0
    ensures Separate(VPop(v, l))
  {
    var s, v' := Items(v, l), VPop(v, l);
    assert NoDup(s) && s[0] in s;
    assert s == [s[0]] + s[1..];
    forall l' ensures NoDup(Items(v', l')) {
      assert NoDup(Items(v, l'));
    }
    forall l', y | y in Items(v', l') ensures y in v'.own && v'.own[y] == l' {
      assert y in Items(v, l');
    }
    forall y | y in v'.own ensures y in Items(v', v'.own[y]) {
      assert y in v.own;
    }
  }

  /** Link a block that is on no list in front. */
  function Push(m: Mem, l: ListId, y: int): Mem {
    Mem(m.next[y := Head(m, l)], m.head[l := y])
  }

  function VPush(v: View, l: ListId, y: int): (v': View)
    ensures forall k {:trigger Items(v', k)} :: k != l ==> Items(v', k) == Items(v, k)
    ensures forall k {:trigger End(v', k)} :: End(v', k) == End(v, k)
    ensures Items(v', l) == [y] + Items(v, l)
  {
    v.(items := v.items[l := [y] + Items(v, l)], own := v.own[y := l])
  }

  lemma PushRep(m: Mem, v: View, l: ListId, y: int)
    requires Rep(m, v) && y !in v.own && y != 0
    requires |Items(v, l)| == 0 ==> End(v, l) == 0
    ensures Rep(Push(m, l, y), VPush(v, l, y))
  {
    VPushSeparate(v, l, y);
    var m', v' := Push(m, l, y), VPush(v, l, y);
    forall l' ensures Chain(m'.next, Head(m', l'), Items(v', l'), End(v', l')) {
      assert Chain(m.next, Head(m, l'), Items(v, l'), End(v, l'));
      assert y !in Items(v, l');
    }
  }

  lemma VPushSeparate(v: View, l: ListId, y: int)
    requires Separate(v) && y !in v.own
    ensures Separate(VPush(v, l, y))
  {
    var v' := VPush(v, l, y);
    assert y !in Items(v, l);
    forall l' ensures NoDup(Items(v', l')) {
      assert NoDup(Items(v, l'));
    }
    forall l', z | z in Items(v', l') ensures z in v'.own && v'.own[z] == l' {
      assert z == y || z in Items(v, l');
    }
    forall z | z in v'.own ensures z in Items(v', v'.own[z]) {
      assert z == y || z in v.own;
    }
  }

  /** Link a block that is on no list behind the last block `tl` (0 for an
      empty list).  The block keeps whatever its own `next` word holds. */
  function Append(m: Mem, l: ListId, tl: int, y: int): Mem {
    if tl == 0 then m.(head := m.head[l := y]) else m.(next := m.next[tl := y])
  }

  function VAppend(m: Mem, v: View, l: ListId, y: int): (v': View)
    requires y in m.next
    ensures forall k {:trigger Items(v', k)} :: k != l ==> Items(v', k) == Items(v, k)
    ensures forall k {:trigger End(v', k)} :: k != l ==> End(v', k) == End(v, k)
    ensures Items(v', l) == Items(v, l) + [y]
  {
    View(v.items[l := Items(v, l) + [y]], v.ends[l := m.next[y]], v.own[y := l])
  }

  function Last(s: seq<int>): int {
    if |s| == 0 then 0 else s[|s| - 1]
  }

  lemma AppendRep(m: Mem, v: View, l: ListId, y: int)
    requires Rep(m, v) && y !in v.own && y != 0 && y in m.next
    ensures Rep(Append(m, l, Last(Items(v, l)), y), VAppend(m, v, l, y))
  {
    VAppendSeparate(m, v, l, y);
    var tl := Last(Items(v, l));
    var m', v' := Append(m, l, tl, y), VAppend(m, v, l, y);
    forall l' ensures Chain(m'.next, Head(m', l'), Items(v', l'), End(v', l')) {
      assert Chain(m.next, Head(m, l'), Items(v, l'), End(v, l'));
      if l' == l {
        assert y !in Items(v, l);
        assert NoDup(Items(v, l));
      } else if |Items(v, l)| > 0 {
        assert tl in Items(v, l);
        assert tl !in Items(v, l');
      }
    }
  }

  lemma VAppendSeparate(m: Mem, v: View, l: ListId, y: int)
    requires Separate(v) && y !in v.own && y in m.next
    ensures Separate(VAppend(m, v, l, y))
  {
    var v' := VAppend(m, v, l, y);
    assert y !in Items(v, l);
    forall l' ensures NoDup(Items(v', l')) {
      assert NoDup(Items(v, l'));
    }
    forall l', z | z in Items(v', l') ensures z in v'.own && v'.own[z] == l' {
      if l' == l {
        assert z in Items(v, l) + [y];
      }
      assert z == y || z in Items(v, l');
    }
    forall z | z in v'.own ensures z in Items(v', v'.own[z]) {
      assert z == y || z in v.own;
    }
  }

  /** Write the `next` word of the last block. */
  function Relink(m: Mem, tl: int, p: int): Mem {
    m.(next := m.next[tl := p])
  }

  function VRelink(v: View, l: ListId, p: int): (v': View)
    ensures forall k {:trigger Items(v', k)} :: Items(v', k) == Items(v, k)
    ensures forall k {:trigger End(v', k)} :: k != l ==> End(v', k) == End(v, k)
    ensures End(v', l) == p
  {
    v.(ends := v.ends[l := p])
  }

  lemma RelinkRep(m: Mem, v: View, l: ListId, p: int)
    requires Rep(m, v) && |Items(v, l)| > 0
    ensures Rep(Relink(m, Last(Items(v, l)), p), VRelink(v, l, p))
  {
    var tl := Last(Items(v, l));
    var m', v' := Relink(m, tl, p), VRelink(v, l, p);
    assert tl in Items(v, l);
    assert Separate(v') by {
      assert forall l' :: Items(v', l') == Items(v, l');
    }
    forall l' ensures Chain(m'.next, Head(m', l'), Items(v', l'), End(v', l')) {
      assert Chain(m.next, Head(m, l'), Items(v, l'), End(v, l'));
      if l' == l {
        assert NoDup(Items(v, l));
      } else {
        assert tl !in Items(v, l');
      }
    }
  }

  /** Take a whole list over into an empty one. */
  function Move(m: Mem, l: ListId, l': ListId): Mem {
    m.(head := m.head[l' := Head(m, l)][l := 0])
  }

  function VMove(v: View, l: ListId, l': ListId): (v': View)
    ensures forall k {:trigger Items(v', k)} :: k != l && k != l' ==> Items(v', k) == Items(v, k)
    ensures forall k {:trigger End(v', k)} :: End(v', k) == End(v, k)
    ensures l != l' ==> Items(v', l') == Items(v, l) && Items(v', l) == []
  {
    View(v.items[l' := Items(v, l)][l := []], v.ends, Rehome(v.own, Items(v, l), l'))
  }

  lemma MoveRep(m: Mem, v: View, l: ListId, l': ListId)
    requires Rep(m, v) && l != l' && Items(v, l') == []
    requires End(v, l) == 0 && End(v, l') == 0
    ensures Rep(Move(m, l, l'), VMove(v, l, l'))
  {
    VMoveSeparate(v, l, l');
    var m', v' := Move(m, l, l'), VMove(v, l, l');
    forall k ensures Chain(m'.next, Head(m', k), Items(v', k), End(v', k)) {
      assert Chain(m.next, Head(m, k), Items(v, k), End(v, k));
      assert Chain(m.next, Head(m, l), Items(v, l), End(v, l));
    }
  }

  lemma VMoveSeparate(v: View, l: ListId, l': ListId)
    requires Separate(v) && l != l' && Items(v, l') == []
    ensures Separate(VMove(v, l, l'))
  {
    var v' := VMove(v, l, l');
    forall k ensures NoDup(Items(v', k)) {
      assert NoDup(Items(v, k)) && NoDup(Items(v, l));
    }
    forall k, z | z in Items(v', k) ensures z in v'.own && v'.own[z] == k {
      assert z in Items(v, k) || z in Items(v, l);
    }
    forall z | z in v'.own ensures z in Items(v', v'.own[z]) {
      assert z in v.own;
    }
  }

  /** Cut the prefix that ends in block `q` off into an empty list. */
  function Cut(m: Mem, l: ListId, l': ListId, q: int): Mem
    requires q in m.next
  {
    Mem(m.next[q := 0], m.head[l' := Head(m, l)][l := m.next[q]])
  }

  function VCut(v: View, l: ListId, l': ListId, n: nat): (v': View)
    requires n <= |Items(v, l)|
    ensures forall k {:trigger Items(v', k)} :: k != l && k != l' ==> Items(v', k) == Items(v, k)
    ensures forall k {:trigger End(v', k)} :: End(v', k) == End(v, k)
    ensures l != l' ==> Items(v', l') == Items(v, l)[..n] && Items(v', l) == Items(v, l)[n..]
  {
    View(v.items[l' := Items(v, l)[..n]][l := Items(v, l)[n..]], v.ends,
         Rehome(v.own, Items(v, l)[..n], l'))
  }

  lemma CutRep(m: Mem, v: View, l: ListId, l': ListId, n: nat)
    requires Rep(m, v) && l != l' && Items(v, l') == []
    requires End(v, l) == 0 && End(v, l') == 0
    requires 0 < n <= |Items(v, l)|
    ensures Items(v, l)[n - 1] in m.next
    ensures Rep(Cut(m, l, l', Items(v, l)[n - 1]), VCut(v, l, l', n))
  {
    var s := Items(v, l);
    var q := s[n - 1];
    VCutSeparate(v, l, l', n);
    assert Chain(m.next, Head(m, l), s, 0);
    var m', v' := Cut(m, l, l', q), VCut(v, l, l', n);
    assert NoDup(s) && q in s;
    forall k ensures Chain(m'.next, Head(m', k), Items(v', k), End(v', k)) {
      assert Chain(m.next, Head(m, k), Items(v, k), End(v, k));
      if k != l && k != l' {
        assert q !in Items(v, k);
      }
    }
  }

  lemma CutMembers(s: seq<int>, n: nat)
    requires NoDup(s) && n <= |s|
    ensures NoDup(s[..n]) && NoDup(s[n..])
    ensures forall z :: z in s[..n] ==> z in s
    ensures forall z :: z in s[n..] ==> z in s && z !in s[..n]
    ensures forall z :: z in s ==> z in s[..n] || z in s[n..]
  {
    assert s == s[..n] + s[n..];
  }

  lemma VCutSeparate(v: View, l: ListId, l': ListId, n: nat)
    requires Separate(v) && l != l' && Items(v, l') == []
    requires n <= |Items(v, l)|
    ensures Separate(VCut(v, l, l', n))
  {
    var s, v' := Items(v, l), VCut(v, l, l', n);
    assert NoDup(s);
    CutMembers(s, n);
    forall k ensures NoDup(Items(v', k)) {
      assert NoDup(Items(v, k));
    }
    forall k, z | z in Items(v', k) ensures z in v'.own && v'.own[z] == k {
      assert z in Items(v, k) || z in s;
    }
    forall z | z in v'.own ensures z in Items(v', v'.own[z]) {
      assert z in v.own;
    }
  }

  /** A list whose last block already points at the head of `l'` is put in front of `l'`. */
  function Splice(m: Mem, l: ListId, l': ListId): Mem {
    m.(head := m.head[l' := Head(m, l)][l := 0])
  }

  function VSplice(v: View, l: ListId, l': ListId): (v': View)
    ensures forall k {:trigger Items(v', k)} :: k != l && k != l' ==> Items(v', k) == Items(v, k)
    ensures forall k {:trigger End(v', k)} :: k != l ==> End(v', k) == End(v, k)
    ensures l != l' ==> Items(v', l') == Items(v, l) + Items(v, l') && Items(v', l) == [] && End(v', l) == 0
  {
    View(v.items[l' := Items(v, l) + Items(v, l')][l := []], v.ends[l := 0],
         Rehome(v.own, Items(v, l), l'))
  }

  lemma SpliceRep(m: Mem, v: View, l: ListId, l': ListId)
    requires Rep(m, v) && l != l' && |Items(v, l)| > 0
    requires End(v, l) == Head(m, l')
    ensures Rep(Splice(m, l, l'), VSplice(v, l, l'))
  {
    VSpliceSeparate(v, l, l');
    var m', v' := Splice(m, l, l'), VSplice(v, l, l');
    assert Chain(m.next, Head(m, l), Items(v, l), End(v, l));
    forall k ensures Chain(m'.next, Head(m', k), Items(v', k), End(v', k)) {
      assert Chain(m.next, Head(m, k), Items(v, k), End(v, k));
      if k == l' {
        ChainConcat(m.next, Head(m, l), Items(v, l), Head(m, l'), Items(v, l'), End(v, l'));
      }
    }
  }

  lemma ChainConcat(next: map<int, int>, p: int, s: seq<int>, q: int, t: seq<int>, e: int)
    requires Chain(next, p, s, q) && Chain(next, q, t, e) && |s| > 0
    ensures Chain(next, p, s + t, e)
  {
  }

  lemma VSpliceSeparate(v: View, l: ListId, l': ListId)
    requires Separate(v) && l != l'
    ensures Separate(VSplice(v, l, l'))
  {
    var s, t, v' := Items(v, l), Items(v, l'), VSplice(v, l, l');
    assert NoDup(s) && NoDup(t);
    forall i, j | 0 <= i < |s| && 0 <= j < |t| ensures s[i] != t[j] {
      assert s[i] in s && t[j] in t;
    }
    forall k ensures NoDup(Items(v', k)) {
      assert NoDup(Items(v, k));
    }
    forall k, z | z in Items(v', k) ensures z in v'.own && v'.own[z] == k {
      assert z in Items(v, k) || z in s;
    }
    forall z | z in v'.own ensures z in Items(v', v'.own[z]) {
      assert z in v.own;
    }
  }

  /** A word of a block that is on no list may be written freely. */
  lemma WriteRep(m: Mem, v: View, y: int, p: int)
    requires Rep(m, v) && y !in v.own
    ensures Rep(m.(next := m.next[y := p]), v)
  {
    var m' := m.(next := m.next[y := p]);
    forall l ensures Chain(m'.next, Head(m', l), Items(v, l), End(v, l)) {
      assert Chain(m.next, Head(m, l), Items(v, l), End(v, l));
      assert y !in Items(v, l);
    }
  }

  /** Forget one list together with the memory of its blocks. */
  function VDrop(v: View, l: ListId): (v': View)
    ensures forall k {:trigger Items(v', k)} :: k != l ==> Items(v', k) == Items(v, k)
    ensures forall k {:trigger End(v', k)} :: k != l ==> End(v', k) == End(v, k)
    ensures Items(v', l) == [] && End(v', l) == 0
  {
    View(v.items[l := []], v.ends[l := 0], map y | y in v.own && v.own[y] != l :: v.own[y])
  }

  lemma DropRep(m: Mem, v: View, l: ListId, gone: set<int>)
    requires Rep(m, v)
    requires forall y :: y in gone && y in v.own ==> v.own[y] == l
    ensures Rep(Mem(m.next - gone, m.head[l := 0]), VDrop(v, l))
  {
    var m', v' := Mem(m.next - gone, m.head[l := 0]), VDrop(v, l);
    assert Separate(v') by {
      forall k ensures NoDup(Items(v', k)) {
        assert NoDup(Items(v, k));
      }
      forall k, z | z in Items(v', k) ensures z in v'.own && v'.own[z] == k {
        assert z in Items(v, k);
      }
    }
    forall k ensures Chain(m'.next, Head(m', k), Items(v', k), End(v', k)) {
      assert Chain(m.next, Head(m, k), Items(v, k), End(v, k));
      forall i | 0 <= i < |Items(v', k)| ensures Items(v', k)[i] in m'.next {
        assert Items(v, k)[i] in Items(v, k);
      }
    }
  }
}
