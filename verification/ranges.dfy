/** Intervals of addresses or pages as sets. */
module Ranges {

  predicate Within(i: int, b: int, n: nat) {
    b <= i < b + n
  }

  /** The `n` numbers from `b` on. */
  function Range(b: int, n: nat): set<int> {
    set i: int {:trigger Within(i, b, n)} | b <= i < b + n && Within(i, b, n)
  }

  lemma {:induction false} RangeSize(b: int, n: nat)
    ensures |Range(b, n)| == n
  {
    if n > 0 {
      RangeSize(b, n - 1);
      var last := b + n - 1;
      assert Range(b, n) == Range(b, n - 1) + {last} by {
        forall i ensures i in Range(b, n) <==> i in Range(b, n - 1) || i == last {
          assert Within(i, b, n) <==> Within(i, b, n - 1) || i == last;
        }
      }
      assert !Within(last, b, n - 1);
    }
  }

  /** Removing a part removes its size. */
  lemma Remove(whole: set<int>, part: set<int>)
    requires part <= whole
    ensures |whole - part| == |whole| - |part|
  {
    assert whole * part == part;
  }
}
