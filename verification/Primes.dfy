/** Primality as the Maglev table needs it: the trial division decides it, the search for the next prime ends. */
module Primes {

  import opened Arithmetic

  ghost predicate Divides(d: int, n: int) {
    d > 0 && n % d == 0
  }

  ghost predicate Prime(n: int) {
    n >= 2 && FreeBelow(n, n)
  }

  /** No divisor of `n` lies in [2, d). */
  ghost predicate FreeBelow(n: int, d: int) {
    forall e :: 2 <= e < d ==> !Divides(e, n)
  }

  lemma MultipleDivides(q: int, d: int)
    requires d > 0
    ensures Divides(d, q * d)
  {
    ModUnique(q * d, q, d, 0);
  }

  lemma Quotient(d: int, n: int) returns (q: int)
    requires Divides(d, n)
    ensures n == q * d && q == n / d
  {
    q := n / d;
    DivMod(n, d);
  }

  lemma DividesChain(a: int, b: int, n: int)
    requires Divides(a, b) && Divides(b, n)
    ensures Divides(a, n)
  {
    var q := Quotient(a, b);
    var r := Quotient(b, n);
    assert n == (r * q) * a by { assert r * (q * a) == (r * q) * a; }
    MultipleDivides(r * q, a);
  }

  lemma DividesDifference(d: int, a: int, b: int)
    requires Divides(d, a) && Divides(d, b)
    ensures Divides(d, a - b)
  {
    var q := Quotient(d, a);
    var r := Quotient(d, b);
    assert (q - r) * d == q * d - r * d;
    MultipleDivides(q - r, d);
  }

  // ----- Trial division -----

  /** Once the square of `d` exceeds `n`, a divisor below `n` would have a partner below `d`. */
  lemma SquareBound(n: int, d: int)
    requires n >= 2 && d >= 2 && n / d < d && FreeBelow(n, d)
    ensures Prime(n)
  {
    forall e | 2 <= e < n ensures !Divides(e, n) {
      if Divides(e, n) {
        Partner(n, d, e);
      }
    }
  }

  lemma BelowSquare(n: int, d: int)
    requires d > 0 && n / d < d
    ensures n < d * d
  {
    DivMod(n, d);
    MulMonotone(n / d + 1, d, d);
    assert (n / d + 1) * d == (n / d) * d + d;
  }

  lemma SmallPartner(n: int, d: int, e: int, f: int)
    requires n < d * d && 2 <= d <= e < n && n == f * e
    ensures 2 <= f < d
  {
    if f >= d {
      MulMonotone(d, f, e);
      MulMonotone(d, e, d);
    }
    if f <= 1 {
      MulMonotone(f, 1, e);
    }
  }

  lemma Partner(n: int, d: int, e: int)
    requires n >= 2 && d >= 2 && n / d < d && 2 <= e < n && Divides(e, n)
    ensures !FreeBelow(n, d)
  {
    if d <= e {
      var f := Quotient(e, n);
      BelowSquare(n, d);
      SmallPartner(n, d, e, f);
      MultipleDivides(e, f);
      assert Divides(f, n);
    }
  }

  /** The four numbers after `d` and `d + 2` that the loop skips are multiples of 2 or of 3. */
  lemma SkippedSix(n: int, d: int)
    requires d % 6 == 5 && FreeBelow(n, d) && !Divides(d, n) && !Divides(d + 2, n)
    ensures FreeBelow(n, d + 6)
  {
    var k := d / 6;
    assert d == 6 * k + 5;
    forall e | d <= e < d + 6 && e != d && e != d + 2 ensures !Divides(e, n) {
      if Divides(e, n) {
        if e == d + 4 {
          assert e == (2 * k + 3) * 3;
          MultipleDivides(2 * k + 3, 3);
          DividesChain(3, e, n);
        } else {
          var h := if e == d + 1 then 3 * k + 3 else if e == d + 3 then 3 * k + 4 else 3 * k + 5;
          assert e == h * 2;
          MultipleDivides(h, 2);
          DividesChain(2, e, n);
        }
      }
    }
  }

  method IsPrime(num: nat) returns (r: bool)
    ensures r <==> Prime(num)
  {
    if num < 2 { return false; }
    if num == 2 || num == 3 { return true; }
    if num % 2 == 0 || num % 3 == 0 {
      assert Divides(2, num) || Divides(3, num);
      return false;
    }
    assert !Divides(2, num) && !Divides(3, num);
    FourFree(num);
    var d := 5;
    while d <= num / d
      invariant d >= 5 && d % 6 == 5 && FreeBelow(num, d)
      decreases num - d
    {
      DivMod(num, d);
      MulMonotone(5, num / d, d);
      if num % d == 0 || num % (d + 2) == 0 {
        assert Divides(d, num) || Divides(d + 2, num);
        return false;
      }
      SkippedSix(num, d);
      d := d + 6;
    }
    SquareBound(num, d);
    return true;
  }

  lemma FourFree(n: int)
    requires !Divides(2, n) && !Divides(3, n)
    ensures FreeBelow(n, 5)
  {
    if Divides(4, n) {
      assert Divides(2, 4);
      DividesChain(2, 4, n);
    }
  }

  // ----- There is always another prime -----

  function Factorial(n: nat): nat {
    if n == 0 then 1 else Factorial(n - 1) * n
  }

  lemma {:induction false} FactorialDivisible(n: nat, d: nat)
    requires 1 <= d <= n
    ensures Divides(d, Factorial(n))
  {
    if d == n {
      MultipleDivides(Factorial(n - 1), n);
    } else {
      FactorialDivisible(n - 1, d);
      var q := Quotient(d, Factorial(n - 1));
      assert Factorial(n) == (q * n) * d by { assert (q * d) * n == (q * n) * d; }
      MultipleDivides(q * n, d);
    }
  }

  lemma {:induction false} PrimeFactor(n: nat) returns (p: nat)
    requires n >= 2
    ensures Prime(p) && Divides(p, n)
  {
    if Prime(n) {
      p := n;
      assert n == 1 * n;
      MultipleDivides(1, n);
    } else {
      var d :| 2 <= d < n && Divides(d, n);
      p := PrimeFactor(d);
      DividesChain(p, d, n);
    }
  }

  lemma {:induction false} FactorialPositive(n: nat)
    ensures Factorial(n) >= 1
  {
    if n > 0 {
      FactorialPositive(n - 1);
      MulMonotone(1, Factorial(n - 1), n);
    }
  }

  /** A prime factor of n! + 1 exceeds n. */
  lemma PrimeAbove(n: nat) returns (p: nat)
    ensures Prime(p) && p > n
  {
    FactorialPositive(n);
    p := PrimeFactor(Factorial(n) + 1);
    if p <= n {
      FactorialDivisible(n, p);
      DividesDifference(p, Factorial(n) + 1, Factorial(n));
      assert Divides(p, 1);
      assert 1 % p == 1 by { ModUnique(1, 0, p, 1); }
      assert false;
    }
  }

  lemma OddPrime(p: nat)
    requires Prime(p) && p > 2
    ensures p % 2 == 1
  {
    assert !Divides(2, p);
  }

  lemma EvenComposite(n: nat)
    requires n > 2 && n % 2 == 0
    ensures !Prime(n)
  {
    assert Divides(2, n);
  }

  ghost predicate NoPrime(lo: int, hi: int) {
    forall q :: lo <= q < hi ==> !Prime(q)
  }

  method NextPrime(num: nat) returns (r: nat)
    ensures Prime(r) && r >= num && NoPrime(num, r)
  {
    if num <= 2 { return 2; }
    r := num;
    if r % 2 == 0 {
      EvenComposite(r);
      r := r + 1;
    }
    ghost var p := PrimeAbove(r);
    OddPrime(p);
    var found := IsPrime(r);
    while !found
      invariant num <= r <= p && r % 2 == 1 && (found <==> Prime(r)) && NoPrime(num, r)
      decreases p - r
    {
      NoPrimeStep(num, r);
      r := r + 2;
      found := IsPrime(r);
    }
  }

  lemma NoPrimeStep(lo: nat, r: nat)
    requires NoPrime(lo, r) && !Prime(r) && r % 2 == 1 && r > 2
    ensures NoPrime(lo, r + 2)
  {
    EvenComposite(r + 1);
  }

  // ----- Multiplication modulo a prime -----

  /** A prime does not divide the product of two smaller numbers. */
  lemma {:induction false} PrimeProduct(p: int, a: int, b: int)
    requires Prime(p) && 0 < a < p && 0 < b < p
    ensures !Divides(p, a * b)
    decreases a
  {
    if Divides(p, a * b) {
      if a == 1 {
        ModUnique(b, 0, p, b);
      } else {
        var q, r := p / a, p % a;
        DivMod(p, a);
        assert !Divides(a, p);
        MultipleDivides(b, p);
        var k := Quotient(p, a * b);
        assert r * b == (b - q * k) * p by {
          assert r * b == p * b - q * (a * b) by { assert (p - q * a) * b == p * b - q * (a * b); }
          assert q * (k * p) == (q * k) * p;
        }
        MultipleDivides(b - q * k, p);
        PrimeProduct(p, r, b);
      }
    }
  }
}
