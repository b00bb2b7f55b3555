/** The slab lists: how taking blocks out of a slab, or putting them back, moves it. */
module HeapLists {
  import opened Links
  import opened Heap
  import opened HeapInvariant

  lemma {:induction false} WithoutMembers(s: seq<int>, x: int)
    requires NoDup(s)
    ensures NoDup(Without(s, x)) && x !in Without(s, x)
    ensures forall z :: z != x ==> (z in s <==> z in Without(s, x))
  {
    if |s| > 0 {
      assert s == [s[0]] + s[1..];
      if s[0] != x {
        WithoutMembers(s[1..], x);
        assert s[0] !in s[1..];
      } else {
        assert x !in s[1..];
      }
    }
  }

  /** Only slab `b` of key `k` may have changed, and the lists of `k` only by `b`. */
  ghost predicate OnlySlab(slabs: map<int, Slab>, partial: map<Key, seq<int>>, full: map<Key, seq<int>>,
                           slabs': map<int, Slab>, partial': map<Key, seq<int>>, full': map<Key, seq<int>>, k: Key, b: int) {
    && (forall c {:trigger c in slabs'} :: c != b ==> (c in slabs' <==> c in slabs))
    && (forall c {:trigger slabs'[c]} :: c != b && c in slabs && c in slabs' ==> slabs'[c] == slabs[c])
    && (b in slabs' ==> SlabKey(slabs'[b]) == k)
    && (b in slabs ==> SlabKey(slabs[b]) == k)
    && (forall j {:trigger In(partial', j)} :: j != k ==> In(partial', j) == In(partial, j))
    && (forall j {:trigger In(full', j)} :: j != k ==> In(full', j) == In(full, j))
    && NoDup(In(partial', k)) && NoDup(In(full', k))
    && (forall c {:trigger c in In(partial', k)} :: c != b ==> (c in In(partial', k) <==> c in In(partial, k)))
    && (forall c {:trigger c in In(full', k)} :: c != b ==> (c in In(full', k) <==> c in In(full, k)))
    && (b !in slabs' ==> b !in In(partial', k) && b !in In(full', k))
  }

  lemma ListsAt(slabs: map<int, Slab>, partial: map<Key, seq<int>>, full: map<Key, seq<int>>,
                locks: map<Key, nat>, pcs: map<nat, Pc>,
                slabs': map<int, Slab>, partial': map<Key, seq<int>>, full': map<Key, seq<int>>,
                locks': map<Key, nat>, pcs': map<nat, Pc>, k: Key, b: int)
    requires SlabLists(slabs, partial, full, locks, pcs)
    requires OnlySlab(slabs, partial, full, slabs', partial', full', k, b)
    requires b in slabs' ==> Listed(slabs', partial', full', locks', pcs', b)
    requires forall c :: c in slabs && c != b ==> Busy(slabs, locks', pcs', c) == Busy(slabs, locks, pcs, c)
    requires forall t: nat {:trigger PcIn(pcs', t)} :: ExtractOk(slabs', PcIn(pcs', t), t)
    ensures SlabLists(slabs', partial', full', locks', pcs')
  {
    forall c | c in slabs' ensures Listed(slabs', partial', full', locks', pcs', c) {
      if c != b {
        OtherListed(slabs, partial, full, locks, pcs, slabs', partial', full', locks', pcs', k, b, c);
      }
    }
    forall j ensures ListOk(slabs', In(partial', j), j) {
      assert ListOk(slabs, In(partial, j), j);
    }
    forall j ensures ListOk(slabs', In(full', j), j) {
      assert ListOk(slabs, In(full, j), j);
    }
  }

  lemma OtherListed(slabs: map<int, Slab>, partial: map<Key, seq<int>>, full: map<Key, seq<int>>,
                    locks: map<Key, nat>, pcs: map<nat, Pc>,
                    slabs': map<int, Slab>, partial': map<Key, seq<int>>, full': map<Key, seq<int>>,
                    locks': map<Key, nat>, pcs': map<nat, Pc>, k: Key, b: int, c: int)
    requires c in slabs && Listed(slabs, partial, full, locks, pcs, c)
    requires OnlySlab(slabs, partial, full, slabs', partial', full', k, b) && c != b
    requires Busy(slabs, locks', pcs', c) == Busy(slabs, locks, pcs, c)
    ensures c in slabs' && Listed(slabs', partial', full', locks', pcs', c)
  {
    assert c in slabs' && slabs'[c] == slabs[c];
    if SlabKey(slabs[c]) == k {
      assert c in In(partial', k) <==> c in In(partial, k);
      assert c in In(full', k) <==> c in In(full, k);
    }
  }

  // ----- A block comes back -------------------------------------------------

  /** The lists after block of slab `b` came back: a full slab becomes partial. */
  function Unfilled(full: map<Key, seq<int>>, k: Key, b: int, wasFull: bool): map<Key, seq<int>> {
    if wasFull then full[k := Without(In(full, k), b)] else full
  }

  function Refilled(partial: map<Key, seq<int>>, k: Key, b: int, wasFull: bool): map<Key, seq<int>> {
    if wasFull then partial[k := [b] + In(partial, k)] else partial
  }

  /** The thread holds the lock of the slab's class, so nobody extracts from the slab. */
  lemma NotBusy(slabs: map<int, Slab>, locks: map<Key, nat>, pcs: map<nat, Pc>, t: nat, b: int)
    requires b in slabs && SlabKey(slabs[b]) in locks && locks[SlabKey(slabs[b])] == t
    requires !PcIn(pcs, t).ExtractFrom?
    ensures !Busy(slabs, locks, pcs, b)
  {
  }

  /** Slabs another thread extracts from are not of a class this thread has locked. */
  lemma ExtractsElsewhere(slabs: map<int, Slab>, locks: map<Key, nat>, pcs: map<nat, Pc>, t: nat, k: Key, t': nat)
    requires LocksOk(locks, pcs) && k in locks && locks[k] == t
    requires ExtractOk(slabs, PcIn(pcs, t'), t') && PcIn(pcs, t').ExtractFrom? && t' != t
    ensures SlabKey(slabs[PcIn(pcs, t').slab]) != k
  {
    assert Key(Home(t'), PcIn(pcs, t').cls) in Holds(PcIn(pcs, t'), t');
  }

  lemma ReturnOnly(slabs: map<int, Slab>, partial: map<Key, seq<int>>, full: map<Key, seq<int>>, locks: map<Key, nat>,
                   pcs: map<nat, Pc>, k: Key, b: int, slab': Slab)
    requires SlabLists(slabs, partial, full, locks, pcs)
    requires b in slabs && SlabKey(slabs[b]) == k && SlabKey(slab') == k && !Busy(slabs, locks, pcs, b)
    ensures var wasFull := slabs[b].freeBlocks == 0;
            var partial', full' := Refilled(partial, k, b, wasFull), Unfilled(full, k, b, wasFull);
            && OnlySlab(slabs, partial, full, slabs[b := slab'], partial', full', k, b)
            && b in In(partial', k) && b !in In(full', k)
  {
    assert Listed(slabs, partial, full, locks, pcs, b);
    assert ListOk(slabs, In(partial, k), k) && ListOk(slabs, In(full, k), k);
    WithoutMembers(In(full, k), b);
  }

  lemma ReturnLists(slabs: map<int, Slab>, partial: map<Key, seq<int>>, full: map<Key, seq<int>>,
                    locks: map<Key, nat>, pcs: map<nat, Pc>, t: nat, k: Key, b: int)
    requires SlabLists(slabs, partial, full, locks, pcs) && LocksOk(locks, pcs)
    requires b in slabs && SlabKey(slabs[b]) == k && k in locks && locks[k] == t && !PcIn(pcs, t).ExtractFrom?
    requires 0 <= slabs[b].freeBlocks && slabs[b].freeBlocks + 1 < slabs[b].total
    ensures var wasFull := slabs[b].freeBlocks == 0;
            SlabLists(slabs[b := slabs[b].(freeBlocks := slabs[b].freeBlocks + 1)],
                      Refilled(partial, k, b, wasFull), Unfilled(full, k, b, wasFull), locks, pcs)
  {
    hide Refilled, Unfilled;
    var wasFull := slabs[b].freeBlocks == 0;
    var slab' := slabs[b].(freeBlocks := slabs[b].freeBlocks + 1);
    var slabs' := slabs[b := slab'];
    NotBusy(slabs, locks, pcs, t, b);
    NotBusy(slabs', locks, pcs, t, b);
    ReturnOnly(slabs, partial, full, locks, pcs, k, b, slab');
    forall t': nat {:trigger PcIn(pcs, t')} ensures ExtractOk(slabs', PcIn(pcs, t'), t') {
      assert ExtractOk(slabs, PcIn(pcs, t'), t');
      if PcIn(pcs, t').ExtractFrom? { ExtractsElsewhere(slabs, locks, pcs, t, k, t'); }
    }
    ListsAt(slabs, partial, full, locks, pcs, slabs', Refilled(partial, k, b, wasFull), Unfilled(full, k, b, wasFull),
            locks, pcs, k, b);
  }

  /** The last block came back: the slab leaves the lists. */
  lemma ReleaseLists(slabs: map<int, Slab>, partial: map<Key, seq<int>>, full: map<Key, seq<int>>,
                     locks: map<Key, nat>, pcs: map<nat, Pc>, t: nat, k: Key, b: int)
    requires SlabLists(slabs, partial, full, locks, pcs) && LocksOk(locks, pcs)
    requires b in slabs && SlabKey(slabs[b]) == k && k in locks && locks[k] == t && !PcIn(pcs, t).ExtractFrom?
    ensures var wasFull := slabs[b].freeBlocks == 0;
            var partial' := Refilled(partial, k, b, wasFull);
            SlabLists(slabs - {b}, partial'[k := Without(In(partial', k), b)], Unfilled(full, k, b, wasFull), locks, pcs)
  {
    var wasFull := slabs[b].freeBlocks == 0;
    NotBusy(slabs, locks, pcs, t, b);
    ReturnOnly(slabs, partial, full, locks, pcs, k, b, slabs[b]);
    hide Refilled, Unfilled;
    var partial', full' := Refilled(partial, k, b, wasFull), Unfilled(full, k, b, wasFull);
    WithoutMembers(In(partial', k), b);
    var partial'' := partial'[k := Without(In(partial', k), b)];
    assert forall j {:trigger In(partial'', j)} :: j != k ==> In(partial'', j) == In(partial', j);
    forall t': nat {:trigger PcIn(pcs, t')} ensures ExtractOk(slabs - {b}, PcIn(pcs, t'), t') {
      assert ExtractOk(slabs, PcIn(pcs, t'), t');
      if PcIn(pcs, t').ExtractFrom? { ExtractsElsewhere(slabs, locks, pcs, t, k, t'); }
    }
    ListsAt(slabs, partial, full, locks, pcs, slabs - {b}, partial'', full', locks, pcs, k, b);
  }
}
