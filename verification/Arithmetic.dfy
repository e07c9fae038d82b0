/** The few facts about products, quotients and remainders that the solver does not find by itself. */
module Arithmetic {

  lemma MulMonotone(d: int, x: int, y: int)
    requires d >= 0 && x <= y
    ensures d * x <= d * y
  {
  }

  lemma SmallMultiple(d: int, x: int)
    requires -d < d * x < d
    ensures x == 0
  {
    if x > 0 {
      MulMonotone(d, 1, x);
    } else if x < 0 {
      MulMonotone(d, x, -1);
    }
  }

  lemma ModUnique(n: int, d: int, q: int, r: int)
    requires d > 0 && n == d * q + r && 0 <= r < d
    ensures n % d == r
  {
    var x := n / d - q;
    assert n == d * (n / d) + n % d;
    assert d * x == r - n % d;
    SmallMultiple(d, x);
  }

  lemma DivMonotone(a: int, b: int, d: int)
    requires d > 0 && a <= b
    ensures a / d <= b / d
  {
    var q := a / d;
    assert d * q <= a;
    if b / d < q {
      assert b < d * (b / d) + d;
      MulMonotone(d, b / d + 1, q);
    }
  }

  function Quotient(a: nat, d: int): (q: nat)
    requires d > 0
  {
    a / d
  }

  lemma QuotientBounds(a: nat, d: int)
    requires d > 0
    ensures d * Quotient(a, d) <= a < d * Quotient(a, d) + d
    ensures d * (0 - Quotient(a, d)) == 0 - d * Quotient(a, d)
  {
  }

  lemma QuotientMonotone(a: nat, b: nat, d: int)
    requires d > 0 && a <= b
    ensures Quotient(a, d) <= Quotient(b, d)
  {
    DivMonotone(a, b, d);
  }

  lemma QuotientAtLeast(a: nat, d: int, q: nat)
    requires d > 0 && a >= d * q
    ensures Quotient(a, d) >= q
  {
    assert a < d * (a / d) + d;
    if a / d < q {
      MulMonotone(d, a / d + 1, q);
    }
  }
}
