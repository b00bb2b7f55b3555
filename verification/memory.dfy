/** Memory as bytes, and 64-bit words stored in it with the lowest byte first. */
module Memory {
  import opened Config

  /** Bytes by address; what was never written reads as 0. */
  type Mem = map<int, nat>

  function At(m: Mem, a: int): nat {
    if a in m then m[a] else 0
  }

  /** The number in the `k` bytes at `a`. */
  function Load(m: Mem, a: int, k: nat): nat
    decreases k
  {
    if k == 0 then 0 else At(m, a) + 256 * Load(m, a + 1, k - 1)
  }

  function Store(m: Mem, a: int, v: nat, k: nat): Mem
    decreases k
  {
    if k == 0 then m else Store(m[a := v % 256], a + 1, v / 256, k - 1)
  }

  function Word(m: Mem, a: int): nat {
    Load(m, a, 8)
  }

  function Put(m: Mem, a: int, v: nat): Mem {
    Store(m, a, v, 8)
  }

  /** A 32-bit field. */
  function Half(m: Mem, a: int): nat {
    Load(m, a, 4)
  }

  function PutHalf(m: Mem, a: int, v: nat): Mem {
    Store(m, a, v, 4)
  }

  /** `n` bytes from `from` to `to`. */
  function Copy(m: Mem, to: int, from: int, n: int): Mem {
    m + map x: int {:trigger Between(x, to, n)} | to <= x < to + n && Between(x, to, n) :: At(m, from + (x - to))
  }

  predicate Between(x: int, to: int, n: int) {
    to <= x < to + n
  }

  /** Only bytes from `lo` up to `hi` differ. */
  ghost predicate SameBut(m: Mem, m': Mem, lo: int, hi: int) {
    forall a {:trigger At(m', a)} :: !(lo <= a < hi) ==> At(m', a) == At(m, a)
  }

  /** The bytes from `lo` up to `hi` agree. */
  ghost predicate Agree(m: Mem, m': Mem, lo: int, hi: int) {
    forall a {:trigger At(m', a)} :: lo <= a < hi ==> At(m', a) == At(m, a)
  }

  function Pow256(k: nat): nat {
    if k == 0 then 1 else 256 * Pow256(k - 1)
  }

  lemma {:induction false} StoreAt(m: Mem, a: int, v: nat, k: nat, x: int)
    requires x < a || a + k <= x
    ensures At(Store(m, a, v, k), x) == At(m, x)
    decreases k
  {
    if k > 0 { StoreAt(m[a := v % 256], a + 1, v / 256, k - 1, x); }
  }

  /** What was stored is loaded again. */
  lemma {:induction false} LoadStore(m: Mem, a: int, v: nat, k: nat)
    requires v < Pow256(k)
    ensures Load(Store(m, a, v, k), a, k) == v
    decreases k
  {
    if k > 0 {
      var m1 := m[a := v % 256];
      LoadStore(m1, a + 1, v / 256, k - 1);
      StoreAt(m1, a + 1, v / 256, k - 1, a);
    }
  }

  /** Bytes that are the same `d` further on give the same number. */
  lemma {:induction false} LoadAgree(m: Mem, m': Mem, a: int, d: int, k: nat)
    requires forall x {:trigger At(m, x)} :: a <= x < a + k ==> At(m, x) == At(m', x + d)
    ensures Load(m, a, k) == Load(m', a + d, k)
    decreases k
  {
    if k > 0 { LoadAgree(m, m', a + 1, d, k - 1); }
  }

  lemma WordFits()
    ensures Pow256(8) == WORD
  {
    assert Pow256(2) == 0x1_0000;
    assert Pow256(4) == 0x1_0000_0000;
    assert Pow256(6) == 0x1_0000_0000_0000;
  }

  lemma PutWord(m: Mem, a: int, v: nat)
    requires v < WORD
    ensures Word(Put(m, a, v), a) == v && SameBut(m, Put(m, a, v), a, a + 8)
  {
    hide Load, Store;
    WordFits();
    LoadStore(m, a, v, 8);
    forall x {:trigger At(Put(m, a, v), x)} | !(a <= x < a + 8) ensures At(Put(m, a, v), x) == At(m, x) {
      StoreAt(m, a, v, 8, x);
    }
  }

  lemma PutHalfIs(m: Mem, a: int, v: nat)
    requires v < 0x1_0000_0000
    ensures Half(PutHalf(m, a, v), a) == v && SameBut(m, PutHalf(m, a, v), a, a + 4)
  {
    hide Load, Store;
    assert Pow256(2) == 0x1_0000;
    LoadStore(m, a, v, 4);
    forall x {:trigger At(PutHalf(m, a, v), x)} | !(a <= x < a + 4) ensures At(PutHalf(m, a, v), x) == At(m, x) {
      StoreAt(m, a, v, 4, x);
    }
  }

  lemma HalfAgree(m: Mem, m': Mem, a: int)
    requires Agree(m, m', a, a + 4)
    ensures Half(m', a) == Half(m, a)
  {
    hide Load;
    LoadAgree(m', m, a, 0, 4);
  }

  /** A word depends on its eight bytes only. */
  lemma WordAgree(m: Mem, m': Mem, a: int)
    requires Agree(m, m', a, a + 8)
    ensures Word(m', a) == Word(m, a)
  {
    hide Load;
    LoadAgree(m', m, a, 0, 8);
  }

  lemma PutOther(m: Mem, a: int, v: nat, b: int)
    requires v < WORD && (b + 8 <= a || a + 8 <= b)
    ensures Word(Put(m, a, v), b) == Word(m, b)
  {
    hide Put, Word;
    PutWord(m, a, v);
    WordAgree(m, Put(m, a, v), b);
  }

  lemma CopyAt(m: Mem, to: int, from: int, n: int, a: int)
    ensures At(Copy(m, to, from, n), a) == if to <= a < to + n then At(m, from + (a - to)) else At(m, a)
  {
    assert Between(a, to, n) <==> to <= a < to + n;
  }

  lemma CopySameBut(m: Mem, to: int, from: int, n: int)
    ensures SameBut(m, Copy(m, to, from, n), to, to + n)
  {
    hide Copy;
    forall a {:trigger At(Copy(m, to, from, n), a)} | !(to <= a < to + n) ensures At(Copy(m, to, from, n), a) == At(m, a) {
      CopyAt(m, to, from, n, a);
    }
  }

  lemma CopyWord(m: Mem, to: int, from: int, n: int, k: nat)
    requires k + 8 <= n
    ensures Word(Copy(m, to, from, n), to + k) == Word(m, from + k)
  {
    hide Copy, Load;
    var m' := Copy(m, to, from, n);
    forall x {:trigger At(m', x)} | to + k <= x < to + k + 8 ensures At(m', x) == At(m, x + (from - to)) {
      CopyAt(m, to, from, n, x);
    }
    LoadAgree(m', m, to + k, from - to, 8);
  }

  lemma Widen(m: Mem, m': Mem, lo: int, hi: int, lo': int, hi': int)
    requires SameBut(m, m', lo, hi) && lo' <= lo && hi <= hi'
    ensures SameBut(m, m', lo', hi')
  {
  }

  lemma Through(m: Mem, m1: Mem, m2: Mem, lo: int, hi: int)
    requires SameBut(m, m1, lo, hi) && SameBut(m1, m2, lo, hi)
    ensures SameBut(m, m2, lo, hi)
  {
    forall a {:trigger At(m2, a)} | !(lo <= a < hi) ensures At(m2, a) == At(m, a) {
      assert At(m1, a) == At(m, a);
    }
  }
}
