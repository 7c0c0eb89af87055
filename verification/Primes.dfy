/** Division by primes, and how far a power can go before it comes back to 1. */
module Primes {

  lemma ModUnique(a: int, p: nat, q: int, r: nat)
    requires p > 0 && r < p && a == q * p + r
    ensures a % p == r
  {
    var d := a / p - q;
    assert a == p * (a / p) + a % p;
    assert p * d == r - a % p;
    Multiples(p, d);
  }

  lemma Multiples(p: nat, d: int)
    ensures d >= 1 ==> p * d >= p
    ensures d <= -1 ==> p * d <= -(p as int)
  {
  }

  /** d divides n. */
  ghost predicate Divides(d: nat, n: nat) {
    exists k: nat :: n == d * k
  }

  lemma DividesMod(d: nat, n: nat)
    requires d > 0
    ensures Divides(d, n) <==> n % d == 0
  {
    if Divides(d, n) {
      var k: nat :| n == d * k;
      ModUnique(n, d, k, 0);
    }
    if n % d == 0 { assert n == d * (n / d); }
  }

  // ---------- primes ----------

  ghost predicate Prime(p: nat) {
    p >= 2 && forall d :: 2 <= d < p ==> p % d != 0
  }

  /** Below p no product is a multiple of the prime p: Euclid's descent on a. */
  lemma {:induction false} NoZeroProduct(p: nat, a: nat, k: nat)
    requires Prime(p) && 0 < a < p && 0 < k < p
    ensures (a * k) % p != 0
    decreases a
  {
    if a == 1 {
      ModUnique(k, p, 0, k);
    } else {
      RemainderNonzero(p, a);
      NoZeroProduct(p, p % a, k);
      if (a * k) % p == 0 { Descent(p, a, k); }
    }
  }

  lemma RemainderNonzero(p: nat, a: nat)
    requires Prime(p) && 2 <= a < p
    ensures 0 < p % a < a
  {
  }

  /** If p divides a * k, it divides (p % a) * k. */
  lemma Descent(p: nat, a: nat, k: nat)
    requires p > 0 && a > 0 && (a * k) % p == 0
    ensures (p % a * k) % p == 0
  {
    var q, r, m := p / a, p % a, a * k / p;
    assert p == a * q + r;
    assert a * k == p * m + (a * k) % p;
    Expand(p, a, q, r, k, m);
    ModUnique(r * k, p, k - q * m, 0);
  }

  lemma Expand(p: nat, a: nat, q: nat, r: nat, k: nat, m: nat)
    requires p == a * q + r && a * k == p * m
    ensures r * k == (k - q * m) * p
  {
    calc {
      r * k;
    == { assert r == p - a * q; }
      (p - a * q) * k;
    ==
      p * k - q * (a * k);
    ==
      p * k - q * (p * m);
    ==
      (k - q * m) * p;
    }
  }

  /** A prime that divides a product divides a factor. */
  lemma PrimeDividesFactor(p: nat, a: nat, k: nat)
    requires Prime(p) && Divides(p, a * k)
    ensures Divides(p, a) || Divides(p, k)
  {
    hide Prime, Divides;
    PrimePositive(p);
    DividesMod(p, a * k);
    DividesMod(p, a);
    DividesMod(p, k);
    ModProduct(a, k, p);
    if a % p != 0 && k % p != 0 { NoZeroProduct(p, a % p, k % p); }
  }

  lemma PrimePositive(p: nat)
    requires Prime(p)
    ensures p >= 2
  {
  }

  lemma ModProduct(a: nat, b: nat, n: nat)
    requires n > 0
    ensures (a % n * (b % n)) % n == (a * b) % n
  {
    var x, y, r := a / n, b / n, a % n * (b % n);
    assert a == n * x + a % n;
    assert b == n * y + b % n;
    assert r == n * (r / n) + r % n;
    ProductParts(n, x, y, a % n, b % n);
    var m := n * x * y + x * (b % n) + y * (a % n);
    assert a * b == (m + r / n) * n + r % n by {
      assert a * b == n * m + r;
      assert (m + r / n) * n == n * m + n * (r / n);
    }
    ModUnique(a * b, n, m + r / n, r % n);
  }

  lemma ProductParts(n: nat, x: nat, y: nat, c: nat, d: nat)
    ensures (n * x + c) * (n * y + d) == n * (n * x * y + x * d + y * c) + c * d
  {
  }

  // ---------- the order of an element ----------

  /** A list of factors. */
  datatype Factors = End | And(q: nat, rest: Factors)

  function Product(f: Factors): nat {
    match f
    case End => 1
    case And(q, rest) => q * Product(rest)
  }

  ghost predicate AllPrime(f: Factors) {
    f.And? ==> Prime(f.q) && AllPrime(f.rest)
  }

  predicate Has(f: Factors, q: nat) {
    f.And? && (f.q == q || Has(f.rest, q))
  }

  /** The exponents that give 1, of some element of some group: sums and differences give 1 again. */
  ghost predicate Exponents(one: nat -> bool) {
    && one(0)
    && (forall j: nat, k: nat :: one(j) && one(k) ==> one(j + k))
    && (forall j: nat, k: nat :: one(j) && one(j + k) ==> one(k))
  }

  lemma ExponentSum(one: nat -> bool, j: nat, k: nat)
    requires Exponents(one) && one(j)
    ensures one(k) <==> one(j + k)
  {
  }

  lemma ExponentZero(one: nat -> bool)
    requires Exponents(one)
    ensures one(0)
  {
  }

  lemma {:induction false} ExponentMultiple(one: nat -> bool, j: nat, m: nat)
    requires Exponents(one) && one(j)
    ensures one(j * m)
  {
    hide Exponents;
    if m == 0 {
      ExponentZero(one);
      assert j * m == 0;
    } else {
      ExponentMultiple(one, j, m - 1);
      ExponentSum(one, j, j * (m - 1));
      assert j * m == j + j * (m - 1);
    }
  }

  /** With two exponents their greatest common divisor gives 1. */
  lemma {:induction false} CommonExponent(one: nat -> bool, j: nat, k: nat) returns (g: nat)
    requires Exponents(one) && one(j) && one(k) && j > 0
    ensures 0 < g <= j && one(g) && Divides(g, j) && Divides(g, k)
    decreases j
  {
    hide Exponents;
    var q, r := k / j, k % j;
    assert k == j * q + r;
    ExponentMultiple(one, j, q);
    ExponentSum(one, j * q, r);
    if r == 0 {
      g := j;
      assert j == j * 1;
    } else {
      g := CommonExponent(one, r, j);
      DividesSum(g, j, q, r);
    }
  }

  lemma DividesSum(g: nat, j: nat, q: nat, r: nat)
    requires Divides(g, j) && Divides(g, r)
    ensures Divides(g, j * q + r)
  {
    var x: nat :| j == g * x;
    var y: nat :| r == g * y;
    assert j * q + r == g * (x * q + y);
  }

  /** A divisor of a product of primes, other than 1, is a multiple of one of them. */
  lemma {:induction false} DivisorHasFactor(t: nat, f: Factors) returns (q: nat)
    requires t > 1 && AllPrime(f) && Divides(t, Product(f))
    ensures Has(f, q) && Divides(q, t)
  {
    hide Prime, Divides;
    match f
    case End => NotOne(t);
    case And(p, rest) =>
      if Divides(p, t) {
        q := p;
      } else {
        CancelPrime(p, t, Product(rest));
        q := DivisorHasFactor(t, rest);
      }
  }

  lemma NotOne(t: nat)
    requires t > 1
    ensures !Divides(t, 1)
  {
    forall k: nat ensures 1 != t * k { if k > 0 { Multiples(t, k); } }
  }

  lemma CancelPrime(p: nat, t: nat, m: nat)
    requires Prime(p) && Divides(t, p * m) && !Divides(p, t)
    ensures Divides(t, m)
  {
    hide Prime;
    PrimePositive(p);
    var c: nat :| p * m == t * c;
    assert Divides(p, t * c);
    PrimeDividesFactor(p, t, c);
    var d: nat :| c == p * d;
    Cancel(p, m, t, d);
  }

  lemma Cancel(p: nat, m: nat, t: nat, d: nat)
    requires p > 0 && p * m == t * (p * d)
    ensures m == t * d
  {
    assert t * (p * d) == p * (t * d);
    CancelFactor(p, m, t * d);
  }

  lemma CancelFactor(p: nat, a: nat, b: nat)
    requires p > 0 && p * a == p * b
    ensures a == b
  {
    assert p * (a - b) == 0;
    Multiples(p, a - b);
  }

  /** An exponent before n leads to one of the n / q. */
  lemma SmallerExponent(one: nat -> bool, f: Factors, k: nat) returns (q: nat, m: nat)
    requires Exponents(one) && AllPrime(f) && one(Product(f)) && 0 < k < Product(f) && one(k)
    ensures Has(f, q) && Product(f) == q * m && one(m)
  {
    hide Exponents, AllPrime, Product, Prime;
    var n := Product(f);
    var g := CommonExponent(one, k, n);
    var t: nat :| n == g * t;
    CofactorOverOne(n, g, t);
    assert n == t * g;
    q := DivisorHasFactor(t, f);
    var c: nat :| t == q * c;
    ExponentMultiple(one, g, c);
    m := g * c;
    assert g * (q * c) == q * (g * c);
  }

  lemma CofactorOverOne(n: nat, g: nat, t: nat)
    requires n == g * t && g < n
    ensures t > 1
  {
    assert t == 0 ==> g * t == 0;
    assert t == 1 ==> g * t == g;
  }

  /** If n gives 1 and no n / q does, for the primes q of n, then nothing before n does: n is the order. */
  lemma OrderIs(one: nat -> bool, f: Factors, k: nat)
    requires Exponents(one) && AllPrime(f) && one(Product(f))
    requires forall q: nat, m: nat :: Has(f, q) && Product(f) == q * m ==> !one(m)
    requires 0 < k < Product(f)
    ensures !one(k)
  {
    hide Exponents, AllPrime, Product, Prime, Has;
    if one(k) { var q, m := SmallerExponent(one, f, k); }
  }

  // ---------- trial division ----------

  predicate Clear4(n: nat, d: nat)
    requires d > 0
  {
    n % d != 0 && n % (d + 2) != 0 && n % (d + 4) != 0 && n % (d + 6) != 0
  }

  predicate Clear16(n: nat, d: nat)
    requires d > 0
  {
    Clear4(n, d) && Clear4(n, d + 8) && Clear4(n, d + 16) && Clear4(n, d + 24)
  }

  /** None of the 64 numbers d, d + 2 .. d + 126 divides n. */
  predicate Clear64(n: nat, d: nat)
    requires d > 0
  {
    Clear16(n, d) && Clear16(n, d + 32) && Clear16(n, d + 64) && Clear16(n, d + 96)
  }

  lemma Clear4Means(n: nat, d: nat, e: nat)
    requires d % 2 == 1 && Clear4(n, d) && d <= e < d + 8 && e % 2 == 1
    ensures n % e != 0
  {
    FromOdd(d, e);
  }

  lemma FromOdd(d: nat, e: nat)
    requires d % 2 == 1 && d <= e < d + 8 && e % 2 == 1
    ensures e == d || e == d + 2 || e == d + 4 || e == d + 6
  {
  }

  lemma Clear16Means(n: nat, d: nat, e: nat)
    requires d % 2 == 1 && Clear16(n, d) && d <= e < d + 32 && e % 2 == 1
    ensures n % e != 0
  {
    hide Clear4;
    Clear4Means(n, if e < d + 8 then d else if e < d + 16 then d + 8 else if e < d + 24 then d + 16 else d + 24, e);
  }

  lemma Clear64Means(n: nat, d: nat, e: nat)
    requires d % 2 == 1 && Clear64(n, d) && d <= e < d + 128 && e % 2 == 1
    ensures n % e != 0
  {
    hide Clear16;
    Clear16Means(n, if e < d + 32 then d else if e < d + 64 then d + 32 else if e < d + 96 then d + 64 else d + 96, e);
  }

  /** An odd number below b^2 without an odd divisor from 3 to b is prime. */
  lemma PrimeByTrial(n: nat, b: nat)
    requires 3 <= n < b * b && n % 2 == 1
    requires forall d: nat :: 3 <= d < b && d % 2 == 1 ==> n % d != 0
    ensures Prime(n)
  {
    forall d: nat | 2 <= d < n ensures n % d != 0 {
      if n % d == 0 {
        var e := n / d;
        assert n == d * e;
        OddFactors(d, e);
        if d >= b {
          SmallCofactor(n, d, e, b);
          assert n == e * d;
          DividesMod(e, n);
        }
      }
    }
  }

  lemma OddFactors(d: nat, e: nat)
    ensures (d * e) % 2 == 1 ==> d % 2 == 1 && e % 2 == 1
  {
    if d % 2 == 0 { assert d * e == 2 * (d / 2 * e); }
    if e % 2 == 0 { assert d * e == 2 * (d * (e / 2)); }
  }

  lemma SmallCofactor(n: nat, d: nat, e: nat, b: nat)
    requires n == d * e && b <= d < n < b * b
    ensures 1 < e < b
  {
    LargeFactors(d, e, b);
    assert e == 0 ==> d * e == 0;
    assert e == 1 ==> d * e == d;
  }

  lemma LargeFactors(d: nat, e: nat, b: nat)
    ensures d >= b && e >= b ==> d * e >= b * b
  {
    if d >= b && e >= b {
      assert d * e == b * b + b * (e - b) + (d - b) * e;
      Positive(b, e - b);
      Positive(d - b, e);
    }
  }

  lemma Positive(a: nat, b: nat)
    ensures a * b >= 0
  {
  }

  lemma Prime65537()
    ensures Prime(65537)
  {
    hide Clear64, Prime;
    Tried65537();
    forall d: nat | 3 <= d < 257 && d % 2 == 1 ensures 65537 % d != 0 {
      Clear64Means(65537, if d < 131 then 3 else 131, d);
    }
    PrimeByTrial(65537, 257);
  }

  lemma Tried65537()
    ensures Clear64(65537, 3) && Clear64(65537, 131)
  {
  }

  lemma SmallPrimes()
    ensures Prime(3) && Prime(5) && Prime(17) && Prime(257)
  {
    forall d: nat | 3 <= d < 17 && d % 2 == 1 ensures 257 % d != 0 {
      assert Clear16(257, 3);
      Clear16Means(257, 3, d);
    }
    PrimeByTrial(257, 17);
  }
}
