/** Integer facts shared by the grouping and the round-robin selector. */
module Arith {

  function Min(a: int, b: int): int
  {
    if a <= b then a else b
  }

  lemma ModSucc(k: nat, m: nat)
    requires m > 0
    ensures (k % m + 1) % m == (k + 1) % m
  {
    var q, r := k / m, k % m;
    assert k == q * m + r;
    if r + 1 < m {
      ModOfMultiplePlus(q, m, r + 1);
    } else {
      assert k + 1 == (q + 1) * m by {
        assert (q + 1) * m == q * m + m;
      }
      ModOfMultiplePlus(q + 1, m, 0);
      ModOfMultiplePlus(1, m, 0);
    }
  }

  /** (q * m + x) % m == x and (q * m + x) / m == q for 0 <= x < m. */
  lemma ModOfMultiplePlus(q: int, m: int, x: int)
    requires 0 <= x < m
    ensures (q * m + x) % m == x
    ensures (q * m + x) / m == q
  {
    var y := q * m + x;
    var d := y / m - q;
    assert y == (y / m) * m + y % m;
    assert (y / m) * m == d * m + q * m;
    assert d * m == x - y % m;
    if d >= 1 {
      MulMonotone(1, d, m);
    }
    if d <= -1 {
      MulMonotone(d, -1, m);
    }
  }

  /** Distributing one factor: k * m == (k - 1) * m + m. */
  lemma MulPred(k: int, m: int)
    ensures k * m == (k - 1) * m + m
  {
  }

  /** a <= b and m >= 0 give a * m <= b * m. */
  lemma MulMonotone(a: int, b: int, m: int)
    requires a <= b && m >= 0
    ensures a * m <= b * m
  {
    assert b * m - a * m == (b - a) * m;
  }
}
