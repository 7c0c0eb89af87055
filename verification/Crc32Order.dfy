/**
 The order of x modulo the CRC-32 polynomial (server/common/crc32.c, CRC32_REFLECTED_POLY): its
 powers are distinct up to x^(2^32 - 2), and x^(2^32 - 1) is 1 again. The repair of a flipped bit
 rests on this.
 */
module Crc32Order {
  import opened Primes
  import opened Gf32
  import opened Crc32

  /** x^k */
  function Power(k: nat): bv32 {
    TimesX(k, ONE, POLY)
  }

  /** The powers x^0 .. x^(n-1) are distinct. */
  ghost predicate Distinct(n: nat) {
    forall j: nat, k: nat :: j < k < n ==> Power(j) != Power(k)
  }

  lemma PowerSum(j: nat, k: nat)
    ensures TimesX(j, Power(k), POLY) == Power(j + k)
  {
    hide TimesX;
    TimesXAdd(j, k, ONE, POLY);
  }

  lemma SamePower(k: nat, m: nat)
    requires Power(k) == Power(k + m)
    ensures Power(0) == Power(m)
  {
    hide TimesX;
    PowerSum(k, 0);
    PowerSum(k, m);
    PolyIsUnit();
    TimesXInjective(k, Power(0), Power(m), POLY);
  }

  lemma MulPowers(j: nat, k: nat)
    ensures Mul(Power(j), Power(k), POLY) == Power(j + k)
  {
    hide TimesX, Mul;
    MulByPower(Power(j), k, POLY);
    TimesXAdd(k, j, ONE, POLY);
  }

  // ---------- products of literals ----------

  /** v where the low bit of b is set, without a branch: -(b & 1) is all ones or all zeros. */
  function Masked(v: bv32, b: bv32): bv32 {
    v & (0 - (b & 1))
  }

  lemma MaskedIs(v: bv32, b: bv32)
    ensures Masked(v, b) == IfOdd(b, v)
  {
  }

  /** One turn of gf32_mul. */
  function Turn(w: bv32, a: bv32, b: bv32): bv32 {
    (w >> 1) ^ Masked(POLY, w) ^ Masked(a, b)
  }

  function Right2(b: bv32): bv32 { b >> 2 }
  function Right3(b: bv32): bv32 { b >> 3 }
  function Right4(b: bv32): bv32 { b >> 4 }
  function Right8(b: bv32): bv32 { b >> 8 }
  function Right12(b: bv32): bv32 { b >> 12 }
  function Right16(b: bv32): bv32 { b >> 16 }

  function Turn4(w: bv32, a: bv32, b: bv32): bv32 {
    Turn(Turn(Turn(Turn(w, a, b), a, Half(b)), a, Right2(b)), a, Right3(b))
  }

  function Turn16(w: bv32, a: bv32, b: bv32): bv32 {
    Turn4(Turn4(Turn4(Turn4(w, a, b), a, Right4(b)), a, Right8(b)), a, Right12(b))
  }

  function Times(a: bv32, b: bv32): bv32 {
    Turn16(Turn16(0, a, b), a, Right16(b))
  }

  lemma TurnIs(w: bv32, a: bv32, b: bv32)
    ensures Turn(w, a, b) == Plus(Mulx(w, POLY), IfOdd(b, a))
  {
    hide Masked, IfOdd;
    MaskedIs(POLY, w);
    MaskedIs(a, b);
  }

  lemma Halves(b: bv32)
    ensures Right2(b) == Half(Half(b)) && Right3(b) == Half(Right2(b)) && Right4(b) == Half(Right3(b))
  {
    ShiftsAdd(b);
  }

  lemma Fours(b: bv32)
    ensures Right8(b) == Right4(Right4(b)) && Right12(b) == Right4(Right8(b)) && Right16(b) == Right4(Right12(b))
  {
    FourShiftsAdd(b);
  }

  lemma ShiftsAdd(b: bv32)
    ensures (b >> 1) >> 1 == b >> 2 && (b >> 2) >> 1 == b >> 3 && (b >> 3) >> 1 == b >> 4
  {
  }

  lemma FourShiftsAdd(b: bv32)
    ensures (b >> 4) >> 4 == b >> 8 && (b >> 8) >> 4 == b >> 12 && (b >> 12) >> 4 == b >> 16
  {
  }

  lemma Turn4Is(a: bv32, b: bv32, n: nat)
    ensures Turn4(Horner(a, b, n, POLY), a, Shr(b, n)) == Horner(a, b, n + 4, POLY)
    ensures Right4(Shr(b, n)) == Shr(b, n + 4)
  {
    hide Turn, Half, Plus, Mulx, IfOdd, Right2, Right3, Right4;
    Halves(Shr(b, n));
    TurnIs(Horner(a, b, n, POLY), a, Shr(b, n));
    TurnIs(Horner(a, b, n + 1, POLY), a, Shr(b, n + 1));
    TurnIs(Horner(a, b, n + 2, POLY), a, Shr(b, n + 2));
    TurnIs(Horner(a, b, n + 3, POLY), a, Shr(b, n + 3));
  }

  lemma Turn16Is(a: bv32, b: bv32, n: nat)
    ensures Turn16(Horner(a, b, n, POLY), a, Shr(b, n)) == Horner(a, b, n + 16, POLY)
    ensures Right16(Shr(b, n)) == Shr(b, n + 16)
  {
    hide Turn4, Half, Horner, Shr, Right4, Right8, Right12, Right16;
    Fours(Shr(b, n));
    Turn4Is(a, b, n);
    Turn4Is(a, b, n + 4);
    Turn4Is(a, b, n + 8);
    Turn4Is(a, b, n + 12);
  }

  lemma TimesIsMul(a: bv32, b: bv32)
    ensures Times(a, b) == Mul(a, b, POLY)
  {
    hide Turn16, Horner, Shr, Right16;
    ShrNone(b);
    HornerNone(a, b);
    Turn16Is(a, b, 0);
    Turn16Is(a, b, 16);
  }

  lemma HornerNone(a: bv32, b: bv32)
    ensures Horner(a, b, 0, POLY) == 0
  {
  }

  lemma TimesPowers(j: nat, k: nat)
    ensures Times(Power(j), Power(k)) == Power(j + k)
  {
    hide Times, Mul, Power;
    TimesIsMul(Power(j), Power(k));
    MulPowers(j, k);
  }

  /** a^16 */
  function Sixteenth(a: bv32): bv32 {
    var a2 := Times(a, a);
    var a4 := Times(a2, a2);
    var a8 := Times(a4, a4);
    Times(a8, a8)
  }

  lemma SixteenthPower(k: nat)
    ensures Sixteenth(Power(k)) == Power(16 * k)
  {
    hide Times, Power;
    TimesPowers(k, k);
    TimesPowers(2 * k, 2 * k);
    TimesPowers(4 * k, 4 * k);
    TimesPowers(8 * k, 8 * k);
  }

  // ---------- the powers that decide the order ----------

  // 2^32 - 1 == 3 * 5 * 17 * 257 * 65537
  const ORDER: nat := 0xffff_ffff
  const FACTORS: Factors := And(3, And(5, And(17, And(257, And(65537, End)))))

  // The powers of x with exponents 65536, 65537, 65537 * 257, 65537 * 257 * 17 and 65537 * 257 * 17 * 5.
  const A0: bv32 := 0x8385_2d0f
  const A: bv32 := 0xac7a_15a7
  const B: bv32 := 0x316b_5ba1
  const C: bv32 := 0x3d43_6701
  const D: bv32 := 0xc736_eb52

  lemma ReachA0()
    ensures Sixteenth(0x0000_8000) == 0xed62_7dae
  {
  }

  lemma ReachA1()
    ensures Sixteenth(0xed62_7dae) == 0x8e7e_a170
  {
  }

  lemma ReachA2()
    ensures Sixteenth(0x8e7e_a170) == A0 != 0x4000_0000
  {
  }

  lemma ReachA()
    ensures Times(A0, 0x4000_0000) == A
  {
  }

  lemma ReachB0()
    ensures Sixteenth(A) == 0x8165_32e8
  {
  }

  lemma ReachB1()
    ensures Sixteenth(0x8165_32e8) == 0x4630_d51a != A
  {
  }

  lemma ReachB()
    ensures Times(0x4630_d51a, A) == B
  {
  }

  lemma ReachC0()
    ensures Sixteenth(B) == 0x0c28_3ca0 != B
  {
  }

  lemma ReachC()
    ensures Times(0x0c28_3ca0, B) == C
  {
  }

  lemma ReachD0()
    ensures Times(C, C) == 0xfa75_8c53
    ensures Times(0xfa75_8c53, 0xfa75_8c53) == 0xbd43_6701 != C
  {
  }

  lemma ReachD()
    ensures Times(0xbd43_6701, C) == D != ONE
  {
  }

  lemma ReachOne()
    ensures Times(D, D) == 0x4736_eb52
    ensures Times(0x4736_eb52, D) == ONE
  {
  }

  lemma LowPowers()
    ensures Power(0) == ONE && Power(1) == 0x4000_0000 && Power(16) == 0x0000_8000
  {
    hide TimesX;
    ShlIsTimesX(15, POLY);
    FifteenShifts();
    OneTimesX();
  }

  lemma FifteenShifts()
    ensures Shl(1, 15) == 0x0000_8000
  {
    Shl8(1, 7);
    ShlSeven();
  }

  lemma OneTimesX()
    ensures TimesX(0, ONE, POLY) == ONE && TimesX(1, ONE, POLY) == 0x4000_0000
  {
    assert TimesX(0, ONE, POLY) == ONE;
  }

  lemma PowerA()
    ensures Power(65536) == A0 != Power(1) && Power(65537) == A
  {
    hide Times, Sixteenth, Power;
    LowPowers();
    ReachA0();
    ReachA1();
    ReachA2();
    ReachA();
    SixteenthPower(16);
    SixteenthPower(256);
    SixteenthPower(4096);
    TimesPowers(65536, 1);
  }

  lemma PowerB()
    ensures Power(256 * 65537) != Power(65537) && Power(257 * 65537) == B
  {
    hide Times, Sixteenth, Power;
    PowerA();
    ReachB0();
    ReachB1();
    ReachB();
    SixteenthPower(65537);
    SixteenthPower(16 * 65537);
    TimesPowers(256 * 65537, 65537);
  }

  lemma PowerC()
    ensures Power(16 * 257 * 65537) != Power(257 * 65537) && Power(17 * 257 * 65537) == C
  {
    hide Times, Sixteenth, Power;
    PowerB();
    ReachC0();
    ReachC();
    SixteenthPower(257 * 65537);
    TimesPowers(16 * 257 * 65537, 257 * 65537);
  }

  lemma PowerD()
    ensures Power(4 * 17 * 257 * 65537) != Power(17 * 257 * 65537) && Power(5 * 17 * 257 * 65537) == D != Power(0)
  {
    hide Times, Power;
    PowerC();
    LowPowers();
    ReachD0();
    ReachD();
    TimesPowers(17 * 257 * 65537, 17 * 257 * 65537);
    TimesPowers(2 * 17 * 257 * 65537, 2 * 17 * 257 * 65537);
    TimesPowers(4 * 17 * 257 * 65537, 17 * 257 * 65537);
  }

  /** x^(2^32 - 1) is 1, and no exponent that lacks one of its prime factors gives 1. */
  lemma DecidingPowers()
    ensures Power(ORDER) == Power(0)
    ensures Power(ORDER / 3) != Power(0) && Power(ORDER / 5) != Power(0) && Power(ORDER / 17) != Power(0)
    ensures Power(ORDER / 257) != Power(0) && Power(ORDER / 65537) != Power(0)
  {
    hide Times, Power;
    PowerA();
    PowerB();
    PowerC();
    PowerD();
    LowPowers();
    ReachOne();
    TimesPowers(ORDER / 3, ORDER / 3);
    TimesPowers(ORDER / 3 * 2, ORDER / 3);
    LessOne(1, ORDER / 65537);
    LessOne(65537, ORDER / 257);
    LessOne(257 * 65537, ORDER / 17);
    LessOne(17 * 257 * 65537, ORDER / 5);
  }

  /** If x^m is 1, x^(k + m) is x^k. */
  lemma LessOne(k: nat, m: nat)
    ensures Power(m) == Power(0) ==> Power(k + m) == Power(k)
  {
    hide TimesX;
    PowerSum(k, m);
    PowerSum(k, 0);
  }

  predicate GivesOne(k: nat) {
    Power(k) == Power(0)
  }

  lemma ExponentsOfOne()
    ensures Exponents((k: nat) => GivesOne(k))
  {
    hide Power;
    forall j: nat, k: nat | GivesOne(j) ensures GivesOne(j + k) <==> GivesOne(k) { LessOne(k, j); }
  }

  lemma FactorsOfOrder()
    ensures AllPrime(FACTORS) && Primes.Product(FACTORS) == ORDER
  {
    hide Prime;
    SmallPrimes();
    Prime65537();
  }

  lemma FactorIs(q: nat)
    requires Has(FACTORS, q)
    ensures q == 3 || q == 5 || q == 17 || q == 257 || q == 65537
  {
    HasNext(FACTORS, q);
    HasNext(FACTORS.rest, q);
    HasNext(FACTORS.rest.rest, q);
    HasNext(FACTORS.rest.rest.rest, q);
    HasNext(And(65537, End), q);
    HasNext(End, q);
  }

  lemma HasNext(f: Factors, q: nat)
    ensures Has(f, q) <==> f.And? && (f.q == q || Has(f.rest, q))
  {
  }

  /** x^k is 1 for no k from 1 to 2^32 - 2. */
  lemma NoSmallerExponent(k: nat)
    requires 0 < k < ORDER
    ensures Power(k) != Power(0)
  {
    hide Power, Exponents, Has, AllPrime, Primes.Product;
    var one := (k: nat) => GivesOne(k);
    ExponentsOfOne();
    FactorsOfOrder();
    DecidingPowers();
    forall q: nat, m: nat | Has(FACTORS, q) && ORDER == q * m ensures !one(m) {
      FactorIs(q);
      assert m == ORDER / q;
    }
    OrderIs(one, FACTORS, k);
    assert !one(k);
  }

  /** The powers below n are distinct exactly up to n == 2^32 - 1. */
  lemma DistinctUpToOrder(n: nat)
    ensures Distinct(n) <==> n <= ORDER
  {
    hide Power;
    if n <= ORDER {
      forall j: nat, k: nat | j < k < n ensures Power(j) != Power(k) {
        NoSmallerExponent(k - j);
        if Power(j) == Power(k) { SamePower(j, k - j); }
      }
    } else {
      DecidingPowers();
    }
  }
}
