/** Products of integers, which the solver does not order by itself. */
module Arithmetic {

  lemma MulMonotone(x: int, y: int, k: nat)
    requires x <= y
    ensures x * k <= y * k
  {
    assert (y - x) * k >= 0;
  }

  lemma MulLess(x: int, y: int, k: nat)
    requires x * k < y * k
    ensures x < y
  {
    if y <= x {
      MulMonotone(y, x, k);
    }
  }

  lemma Distribute(a: int, b: int, m: nat)
    ensures (a + 1) * m == a * m + m
    ensures a <= b ==> a * m <= b * m
  {
    if a <= b {
      MulMonotone(a, b, m);
    }
  }
}
