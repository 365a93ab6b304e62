/** Division and remainder with a variable divisor. */
module Arithmetic {

  lemma MulMonotone(a: int, b: int, c: int)
    requires a <= b && 0 <= c
    ensures a * c <= b * c
  {
  }

  lemma MulPositive(a: int, c: int)
    requires 0 < a * c && 0 < c
    ensures 1 <= a
  {
    if a <= 0 {
      MulMonotone(a, 0, c);
    }
  }

  lemma DivMod(x: int, c: int)
    requires 0 < c
    ensures x == (x / c) * c + x % c && 0 <= x % c < c
  {
  }

  /** A quotient and a remainder in range are the quotient and the remainder. */
  lemma ModUnique(x: int, k: int, c: int, r: int)
    requires 0 < c && x == k * c + r && 0 <= r < c
    ensures x / c == k && x % c == r
  {
    DivMod(x, c);
    var q := x / c;
    assert (q - k) * c == r - x % c;
    if q > k {
      MulMonotone(1, q - k, c);
    } else if q < k {
      MulMonotone(q - k, -1, c);
    }
  }

  lemma ModApart(c: int, p: int, q: int)
    requires 0 < c && p < q && p % c == q % c
    ensures p + c <= q
  {
    DivMod(p, c);
    DivMod(q, c);
    var k := q / c - p / c;
    assert k * c == q - p;
    MulPositive(k, c);
    MulMonotone(1, k, c);
  }

  lemma ModAddMultiple(x: int, k: int, c: int)
    requires 0 < c
    ensures (x + k * c) % c == x % c
  {
    DivMod(x, c);
    assert x + k * c == (x / c + k) * c + x % c;
    ModUnique(x + k * c, x / c + k, c, x % c);
  }
}
