/** 64-bit words as binary numbers: what setting, clearing and masking bits and counting trailing zeros do. */
module Bits {

  const WIDTH: nat := 64

  predicate Bit(w: nat, i: nat) {
    if i == 0 then w % 2 == 1 else Bit(w / 2, i - 1)
  }

  function Two(k: nat): nat {
    if k == 0 then 1 else 2 * Two(k - 1)
  }

  lemma {:induction false} TwoPositive(k: nat)
    ensures Two(k) > 0
  {
    if k > 0 { TwoPositive(k - 1); }
  }

  /** `w | (1 << i)` */
  function SetBit(w: nat, i: nat): nat {
    if i == 0 then w / 2 * 2 + 1 else SetBit(w / 2, i - 1) * 2 + w % 2
  }

  /** `w & ~(1 << i)` */
  function ClearBit(w: nat, i: nat): nat {
    if i == 0 then w / 2 * 2 else ClearBit(w / 2, i - 1) * 2 + w % 2
  }

  /** `w & (~0 << i)` */
  function Mask(w: nat, i: nat): nat {
    if i == 0 then w else Mask(w / 2, i - 1) * 2
  }

  lemma {:induction false} SetBitIs(w: nat, i: nat, j: nat)
    ensures Bit(SetBit(w, i), j) <==> i == j || Bit(w, j)
  {
    if i > 0 && j > 0 { SetBitIs(w / 2, i - 1, j - 1); }
  }

  lemma {:induction false} ClearBitIs(w: nat, i: nat, j: nat)
    ensures Bit(ClearBit(w, i), j) <==> i != j && Bit(w, j)
  {
    if i > 0 && j > 0 { ClearBitIs(w / 2, i - 1, j - 1); }
  }

  lemma {:induction false} MaskIs(w: nat, i: nat, j: nat)
    ensures Bit(Mask(w, i), j) <==> i <= j && Bit(w, j)
  {
    if i > 0 && j > 0 { MaskIs(w / 2, i - 1, j - 1); }
  }

  /** Setting a bit below the width, clearing and masking stay within the width. */
  lemma {:induction false} SetBitFits(w: nat, i: nat, k: nat)
    requires w < Two(k) && i < k
    ensures SetBit(w, i) < Two(k)
  {
    if i > 0 { SetBitFits(w / 2, i - 1, k - 1); }
  }

  lemma {:induction false} OnlyClears(w: nat, i: nat)
    ensures ClearBit(w, i) <= w && Mask(w, i) <= w
  {
    if i > 0 { OnlyClears(w / 2, i - 1); }
  }

  lemma {:induction false} ZeroBit(i: nat)
    ensures !Bit(0, i)
  {
    if i > 0 { ZeroBit(i - 1); }
  }

  lemma {:induction false} SomeBit(w: nat, k: nat) returns (i: nat)
    requires 0 < w < Two(k)
    ensures i < k && Bit(w, i)
  {
    if w % 2 == 1 {
      i := 0;
    } else {
      i := SomeBit(w / 2, k - 1);
      i := i + 1;
    }
  }

  /** `w >> i` */
  function Shift(w: nat, i: nat): nat {
    if i == 0 then w else Shift(w / 2, i - 1)
  }

  lemma {:induction false} ShiftIs(w: nat, i: nat, j: nat)
    ensures Bit(w, i + j) <==> Bit(Shift(w, i), j)
  {
    if i > 0 { ShiftIs(w / 2, i - 1, j); }
  }

  lemma {:induction false} ShiftStep(w: nat, i: nat)
    ensures Shift(w, i + 1) == Shift(w, i) / 2
  {
    if i > 0 { ShiftStep(w / 2, i - 1); }
  }

  /** The index of the lowest bit set. */
  method TrailingZeros(w: nat) returns (i: nat)
    requires 0 < w < Two(WIDTH)
    ensures i < WIDTH && Bit(w, i) && forall j: nat :: j < i ==> !Bit(w, j)
  {
    hide Bit, Shift;
    i := 0;
    var x := w;
    FirstStep(w);
    while x % 2 == 0
      invariant 0 < x && i < WIDTH && x < Two(WIDTH - i) && x == Shift(w, i)
      invariant forall j: nat :: j < i ==> !Bit(w, j)
      decreases x
    {
      LowBit(w, i);
      ShiftStep(w, i);
      Halves(x, WIDTH - i);
      x := x / 2;
      i := i + 1;
    }
    LowBit(w, i);
  }

  lemma FirstStep(w: nat)
    ensures Shift(w, 0) == w
  {
  }

  lemma LowBit(w: nat, i: nat)
    ensures Bit(w, i) <==> Shift(w, i) % 2 == 1
  {
    ShiftIs(w, i, 0);
  }

  lemma Halves(x: nat, k: nat)
    requires 0 < x < Two(k) && x % 2 == 0
    ensures k > 1 && 0 < x / 2 < Two(k - 1)
  {
  }

  // ----- Masks ----------------------------------------------------------------------

  predicate PowerOfTwo(n: nat) {
    n == 1 || (n > 1 && n % 2 == 0 && PowerOfTwo(n / 2))
  }

  /** `x & y` */
  function And(x: nat, y: nat): nat {
    if x == 0 || y == 0 then 0 else 2 * And(x / 2, y / 2) + (if x % 2 == 1 && y % 2 == 1 then 1 else 0)
  }

  /** `x & ~y` */
  function AndNot(x: nat, y: nat): nat {
    if x == 0 then 0 else 2 * AndNot(x / 2, y / 2) + (if x % 2 == 1 && y % 2 == 0 then 1 else 0)
  }

  lemma {:induction false} AndSelf(x: nat)
    ensures And(x, x) == x
  {
    if x > 0 { AndSelf(x / 2); }
  }

  /** The test `n & (n - 1)` singles out the powers of two. */
  lemma {:induction false} PowerTest(n: nat)
    requires n > 0
    ensures And(n, n - 1) == 0 <==> PowerOfTwo(n)
  {
    if n % 2 == 1 {
      if n > 1 {
        assert (n - 1) / 2 == n / 2 && (n - 1) % 2 == 0;
        AndSelf(n / 2);
        assert And(n, n - 1) == 2 * And(n / 2, n / 2);
      }
    } else {
      assert (n - 1) / 2 == n / 2 - 1 && (n - 1) % 2 == 1;
      PowerTest(n / 2);
    }
  }

  lemma {:induction false} Parts(x: nat, y: nat)
    ensures And(x, y) + AndNot(x, y) == x
    decreases x
  {
    if x > 0 {
      Parts(x / 2, y / 2);
      if y == 0 { AndZero(x / 2); }
    }
  }

  lemma AndZero(x: nat)
    ensures And(x, 0) == 0
  {
  }

  lemma HalfRemainder(v: nat, b: nat)
    requires b > 0
    ensures v % (2 * b) == 2 * (v / 2 % b) + v % 2
  {
    var q, r := v / 2 / b, v / 2 % b;
    assert v / 2 == q * b + r;
    var s := 2 * r + v % 2;
    assert v == q * (2 * b) + s by {
      assert 2 * (q * b) == q * (2 * b);
    }
    RemainderIs(v, q, 2 * b, s);
  }

  lemma RemainderIs(v: nat, q: nat, m: nat, s: nat)
    requires m > 0 && v == q * m + s && s < m
    ensures v % m == s
  {
    var q' := v / m;
    assert v == q' * m + v % m;
    SmallMultiple(q' - q, m, s - v % m);
  }

  lemma SmallMultiple(d: int, m: nat, e: int)
    requires m > 0
    ensures d * m == e && 0 - m < e < m ==> d == 0
  {
    if d >= 1 {
      assert d * m == (d - 1) * m + m;
    } else if d <= -1 {
      assert d * m == (d + 1) * m - m;
    }
  }

  /** Masking with a power of two less one takes the remainder. */
  lemma {:induction false} MaskLow(v: nat, a: nat)
    requires PowerOfTwo(a)
    ensures And(v, a - 1) == v % a
    decreases a
  {
    if a == 1 {
      AndZero(v);
    } else {
      var b := a / 2;
      assert (a - 1) / 2 == b - 1 && (a - 1) % 2 == 1;
      MaskLow(v / 2, b);
      HalfRemainder(v, b);
      assert a == 2 * b;
      if v == 0 { assert And(0, a - 1) == 0; }
    }
  }

  /** Masking it away rounds down. */
  lemma MaskHigh(v: nat, a: nat)
    requires PowerOfTwo(a)
    ensures AndNot(v, a - 1) == v - v % a
  {
    MaskLow(v, a);
    Parts(v, a - 1);
  }
}
