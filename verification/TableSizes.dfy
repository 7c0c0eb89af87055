/** The table sizes listed in server/common/resolver.c, and that they are prime, by trial division. */
module TableSizes {
  import opened Primes

  const SIZES: seq<nat> := [
    29, 41, 59, 89, 131, 197, 293, 439, 659, 991, 1481, 2221, 3329, 4993, 7487, 11239, 16843, 25253, 37879, 56821, 85223,
    127837, 191773, 287629, 431441, 647161, 970747, 1456121, 2184179, 3276253, 4914373, 7371571, 11057357, 16586039,
    24879017, 37318507]

  /** None of the 128 odd numbers from d on divides n. */
  predicate Clear128(n: nat, d: nat)
    requires d > 0
  {
    Clear64(n, d) && Clear64(n, d + 128)
  }

  lemma Clear128Means(n: nat, d: nat, e: nat)
    requires d % 2 == 1 && Clear128(n, d) && e % 2 == 1 && d <= e < d + 256
    ensures n % e != 0
  {
    hide Clear64;
    Clear64Means(n, if e < d + 128 then d else d + 128, e);
  }

  /** A number that no odd number up to its root divides, those up to it being so many blocks. */
  lemma PrimeByBlocks(n: nat, blocks: nat)
    requires 3 <= n < (3 + 256 * blocks) * (3 + 256 * blocks) && n % 2 == 1
    requires forall k: nat :: k < blocks ==> Clear128(n, 3 + 256 * k)
    ensures Prime(n)
  {
    hide Prime, Clear128;
    forall d: nat | 3 <= d < 3 + 256 * blocks && d % 2 == 1 ensures n % d != 0 {
      Clear128Means(n, 3 + 256 * ((d - 3) / 256), d);
    }
    PrimeByTrial(n, 3 + 256 * blocks);
  }

  lemma PrimeByBlock(n: nat)
    requires 3 <= n < 131 * 131 && n % 2 == 1 && Clear64(n, 3)
    ensures Prime(n)
  {
    hide Prime, Clear64;
    forall d: nat | 3 <= d < 131 && d % 2 == 1 ensures n % d != 0 { Clear64Means(n, 3, d); }
    PrimeByTrial(n, 131);
  }

  // ---------- the divisions ----------

  lemma Tried1481() ensures Clear64(1481, 3) { }
  lemma Tried2221() ensures Clear64(2221, 3) { }
  lemma Tried3329() ensures Clear64(3329, 3) { }
  lemma Tried4993() ensures Clear64(4993, 3) { }
  lemma Tried7487() ensures Clear64(7487, 3) { }
  lemma Tried11239() ensures Clear64(11239, 3) { }
  lemma Tried16843() ensures Clear64(16843, 3) { }

  lemma Tried25253_0() ensures Clear128(25253, 3) { }

  lemma Tried37879_0() ensures Clear128(37879, 3) { }

  lemma Tried56821_0() ensures Clear128(56821, 3) { }

  lemma Tried85223_0() ensures Clear128(85223, 3) { }
  lemma Tried85223_1() ensures Clear128(85223, 259) { }

  lemma Tried127837_0() ensures Clear128(127837, 3) { }
  lemma Tried127837_1() ensures Clear128(127837, 259) { }

  lemma Tried191773_0() ensures Clear128(191773, 3) { }
  lemma Tried191773_1() ensures Clear128(191773, 259) { }

  lemma Tried287629_0() ensures Clear128(287629, 3) { }
  lemma Tried287629_1() ensures Clear128(287629, 259) { }
  lemma Tried287629_2() ensures Clear128(287629, 515) { }

  lemma Tried431441_0() ensures Clear128(431441, 3) { }
  lemma Tried431441_1() ensures Clear128(431441, 259) { }
  lemma Tried431441_2() ensures Clear128(431441, 515) { }

  lemma Tried647161_0() ensures Clear128(647161, 3) { }
  lemma Tried647161_1() ensures Clear128(647161, 259) { }
  lemma Tried647161_2() ensures Clear128(647161, 515) { }
  lemma Tried647161_3() ensures Clear128(647161, 771) { }

  lemma Tried970747_0() ensures Clear128(970747, 3) { }
  lemma Tried970747_1() ensures Clear128(970747, 259) { }
  lemma Tried970747_2() ensures Clear128(970747, 515) { }
  lemma Tried970747_3() ensures Clear128(970747, 771) { }

  lemma Tried1456121_0() ensures Clear128(1456121, 3) { }
  lemma Tried1456121_1() ensures Clear128(1456121, 259) { }
  lemma Tried1456121_2() ensures Clear128(1456121, 515) { }
  lemma Tried1456121_3() ensures Clear128(1456121, 771) { }
  lemma Tried1456121_4() ensures Clear128(1456121, 1027) { }

  lemma Tried2184179_0() ensures Clear128(2184179, 3) { }
  lemma Tried2184179_1() ensures Clear128(2184179, 259) { }
  lemma Tried2184179_2() ensures Clear128(2184179, 515) { }
  lemma Tried2184179_3() ensures Clear128(2184179, 771) { }
  lemma Tried2184179_4() ensures Clear128(2184179, 1027) { }
  lemma Tried2184179_5() ensures Clear128(2184179, 1283) { }

  lemma Tried3276253_0() ensures Clear128(3276253, 3) { }
  lemma Tried3276253_1() ensures Clear128(3276253, 259) { }
  lemma Tried3276253_2() ensures Clear128(3276253, 515) { }
  lemma Tried3276253_3() ensures Clear128(3276253, 771) { }
  lemma Tried3276253_4() ensures Clear128(3276253, 1027) { }
  lemma Tried3276253_5() ensures Clear128(3276253, 1283) { }
  lemma Tried3276253_6() ensures Clear128(3276253, 1539) { }
  lemma Tried3276253_7() ensures Clear128(3276253, 1795) { }

  lemma Tried4914373_0() ensures Clear128(4914373, 3) { }
  lemma Tried4914373_1() ensures Clear128(4914373, 259) { }
  lemma Tried4914373_2() ensures Clear128(4914373, 515) { }
  lemma Tried4914373_3() ensures Clear128(4914373, 771) { }
  lemma Tried4914373_4() ensures Clear128(4914373, 1027) { }
  lemma Tried4914373_5() ensures Clear128(4914373, 1283) { }
  lemma Tried4914373_6() ensures Clear128(4914373, 1539) { }
  lemma Tried4914373_7() ensures Clear128(4914373, 1795) { }
  lemma Tried4914373_8() ensures Clear128(4914373, 2051) { }

  lemma Tried7371571_0() ensures Clear128(7371571, 3) { }
  lemma Tried7371571_1() ensures Clear128(7371571, 259) { }
  lemma Tried7371571_2() ensures Clear128(7371571, 515) { }
  lemma Tried7371571_3() ensures Clear128(7371571, 771) { }
  lemma Tried7371571_4() ensures Clear128(7371571, 1027) { }
  lemma Tried7371571_5() ensures Clear128(7371571, 1283) { }
  lemma Tried7371571_6() ensures Clear128(7371571, 1539) { }
  lemma Tried7371571_7() ensures Clear128(7371571, 1795) { }
  lemma Tried7371571_8() ensures Clear128(7371571, 2051) { }
  lemma Tried7371571_9() ensures Clear128(7371571, 2307) { }
  lemma Tried7371571_10() ensures Clear128(7371571, 2563) { }

  lemma Tried11057357_0() ensures Clear128(11057357, 3) { }
  lemma Tried11057357_1() ensures Clear128(11057357, 259) { }
  lemma Tried11057357_2() ensures Clear128(11057357, 515) { }
  lemma Tried11057357_3() ensures Clear128(11057357, 771) { }
  lemma Tried11057357_4() ensures Clear128(11057357, 1027) { }
  lemma Tried11057357_5() ensures Clear128(11057357, 1283) { }
  lemma Tried11057357_6() ensures Clear128(11057357, 1539) { }
  lemma Tried11057357_7() ensures Clear128(11057357, 1795) { }
  lemma Tried11057357_8() ensures Clear128(11057357, 2051) { }
  lemma Tried11057357_9() ensures Clear128(11057357, 2307) { }
  lemma Tried11057357_10() ensures Clear128(11057357, 2563) { }
  lemma Tried11057357_11() ensures Clear128(11057357, 2819) { }
  lemma Tried11057357_12() ensures Clear128(11057357, 3075) { }

  lemma Tried16586039_0() ensures Clear128(16586039, 3) { }
  lemma Tried16586039_1() ensures Clear128(16586039, 259) { }
  lemma Tried16586039_2() ensures Clear128(16586039, 515) { }
  lemma Tried16586039_3() ensures Clear128(16586039, 771) { }
  lemma Tried16586039_4() ensures Clear128(16586039, 1027) { }
  lemma Tried16586039_5() ensures Clear128(16586039, 1283) { }
  lemma Tried16586039_6() ensures Clear128(16586039, 1539) { }
  lemma Tried16586039_7() ensures Clear128(16586039, 1795) { }
  lemma Tried16586039_8() ensures Clear128(16586039, 2051) { }
  lemma Tried16586039_9() ensures Clear128(16586039, 2307) { }
  lemma Tried16586039_10() ensures Clear128(16586039, 2563) { }
  lemma Tried16586039_11() ensures Clear128(16586039, 2819) { }
  lemma Tried16586039_12() ensures Clear128(16586039, 3075) { }
  lemma Tried16586039_13() ensures Clear128(16586039, 3331) { }
  lemma Tried16586039_14() ensures Clear128(16586039, 3587) { }
  lemma Tried16586039_15() ensures Clear128(16586039, 3843) { }

  lemma Tried24879017_0() ensures Clear128(24879017, 3) { }
  lemma Tried24879017_1() ensures Clear128(24879017, 259) { }
  lemma Tried24879017_2() ensures Clear128(24879017, 515) { }
  lemma Tried24879017_3() ensures Clear128(24879017, 771) { }
  lemma Tried24879017_4() ensures Clear128(24879017, 1027) { }
  lemma Tried24879017_5() ensures Clear128(24879017, 1283) { }
  lemma Tried24879017_6() ensures Clear128(24879017, 1539) { }
  lemma Tried24879017_7() ensures Clear128(24879017, 1795) { }
  lemma Tried24879017_8() ensures Clear128(24879017, 2051) { }
  lemma Tried24879017_9() ensures Clear128(24879017, 2307) { }
  lemma Tried24879017_10() ensures Clear128(24879017, 2563) { }
  lemma Tried24879017_11() ensures Clear128(24879017, 2819) { }
  lemma Tried24879017_12() ensures Clear128(24879017, 3075) { }
  lemma Tried24879017_13() ensures Clear128(24879017, 3331) { }
  lemma Tried24879017_14() ensures Clear128(24879017, 3587) { }
  lemma Tried24879017_15() ensures Clear128(24879017, 3843) { }
  lemma Tried24879017_16() ensures Clear128(24879017, 4099) { }
  lemma Tried24879017_17() ensures Clear128(24879017, 4355) { }
  lemma Tried24879017_18() ensures Clear128(24879017, 4611) { }
  lemma Tried24879017_19() ensures Clear128(24879017, 4867) { }

  lemma Tried37318507_0() ensures Clear128(37318507, 3) { }
  lemma Tried37318507_1() ensures Clear128(37318507, 259) { }
  lemma Tried37318507_2() ensures Clear128(37318507, 515) { }
  lemma Tried37318507_3() ensures Clear128(37318507, 771) { }
  lemma Tried37318507_4() ensures Clear128(37318507, 1027) { }
  lemma Tried37318507_5() ensures Clear128(37318507, 1283) { }
  lemma Tried37318507_6() ensures Clear128(37318507, 1539) { }
  lemma Tried37318507_7() ensures Clear128(37318507, 1795) { }
  lemma Tried37318507_8() ensures Clear128(37318507, 2051) { }
  lemma Tried37318507_9() ensures Clear128(37318507, 2307) { }
  lemma Tried37318507_10() ensures Clear128(37318507, 2563) { }
  lemma Tried37318507_11() ensures Clear128(37318507, 2819) { }
  lemma Tried37318507_12() ensures Clear128(37318507, 3075) { }
  lemma Tried37318507_13() ensures Clear128(37318507, 3331) { }
  lemma Tried37318507_14() ensures Clear128(37318507, 3587) { }
  lemma Tried37318507_15() ensures Clear128(37318507, 3843) { }
  lemma Tried37318507_16() ensures Clear128(37318507, 4099) { }
  lemma Tried37318507_17() ensures Clear128(37318507, 4355) { }
  lemma Tried37318507_18() ensures Clear128(37318507, 4611) { }
  lemma Tried37318507_19() ensures Clear128(37318507, 4867) { }
  lemma Tried37318507_20() ensures Clear128(37318507, 5123) { }
  lemma Tried37318507_21() ensures Clear128(37318507, 5379) { }
  lemma Tried37318507_22() ensures Clear128(37318507, 5635) { }
  lemma Tried37318507_23() ensures Clear128(37318507, 5891) { }

  // ---------- the list ----------

  lemma SizeCases(n: nat)
    requires n in SIZES
    ensures n == 29 || n == 41 || n == 59 || n == 89 || n == 131 || n == 197 || n == 293 || n == 439 || n == 659 ||
      n == 991 || n == 1481 || n == 2221 || n == 3329 || n == 4993 || n == 7487 || n == 11239 || n == 16843 ||
      n == 25253 || n == 37879 || n == 56821 || n == 85223 || n == 127837 || n == 191773 || n == 287629 ||
      n == 431441 || n == 647161 || n == 970747 || n == 1456121 || n == 2184179 || n == 3276253 || n == 4914373 ||
      n == 7371571 || n == 11057357 || n == 16586039 || n == 24879017 || n == 37318507
  {
  }

  lemma SmallSizes(n: nat)
    requires n in SIZES && n <= 1089
    ensures Prime(n)
  {
    hide SIZES, Prime, Clear16;
    SizeCases(n);
    SmallTried();
    if n == 29 {
      PrimeByTrial(29, 7);
    } else {
      forall d: nat | 3 <= d < 33 && d % 2 == 1 ensures n % d != 0 { Clear16Means(n, 3, d); }
      PrimeByTrial(n, 33);
    }
  }

  lemma SmallTried()
    ensures Clear16(41, 3) && Clear16(59, 3) && Clear16(89, 3) && Clear16(131, 3) && Clear16(197, 3)
    ensures Clear16(293, 3) && Clear16(439, 3) && Clear16(659, 3) && Clear16(991, 3)
  {
  }

  lemma MediumSizes(n: nat)
    requires n in SIZES && 1089 < n < 131 * 131
    ensures Prime(n)
  {
    hide SIZES, Prime, Clear64;
    SizeCases(n);
    Tried1481(); Tried2221(); Tried3329(); Tried4993(); Tried7487(); Tried11239(); Tried16843();
    PrimeByBlock(n);
  }

  lemma LargeSizes0()
    ensures Prime(25253) && Prime(37879) && Prime(56821) && Prime(85223) && Prime(127837) && Prime(191773) && Prime(287629)
  {
    hide Prime, Clear128;
    Tried25253_0(); PrimeByBlocks(25253, 1);
    Tried37879_0(); PrimeByBlocks(37879, 1);
    Tried56821_0(); PrimeByBlocks(56821, 1);
    Tried85223_0(); Tried85223_1(); PrimeByBlocks(85223, 2);
    Tried127837_0(); Tried127837_1(); PrimeByBlocks(127837, 2);
    Tried191773_0(); Tried191773_1(); PrimeByBlocks(191773, 2);
    Tried287629_0(); Tried287629_1(); Tried287629_2(); PrimeByBlocks(287629, 3);
  }

  lemma LargeSizes1()
    ensures Prime(431441) && Prime(647161) && Prime(970747) && Prime(1456121) && Prime(2184179)
  {
    hide Prime, Clear128;
    Tried431441_0(); Tried431441_1(); Tried431441_2(); PrimeByBlocks(431441, 3);
    Tried647161_0(); Tried647161_1(); Tried647161_2(); Tried647161_3(); PrimeByBlocks(647161, 4);
    Tried970747_0(); Tried970747_1(); Tried970747_2(); Tried970747_3(); PrimeByBlocks(970747, 4);
    Tried1456121_0(); Tried1456121_1(); Tried1456121_2(); Tried1456121_3(); Tried1456121_4();
    PrimeByBlocks(1456121, 5);
    Tried2184179_0(); Tried2184179_1(); Tried2184179_2(); Tried2184179_3(); Tried2184179_4(); Tried2184179_5();
    PrimeByBlocks(2184179, 6);
  }

  lemma LargeSizes2()
    ensures Prime(3276253) && Prime(4914373) && Prime(7371571)
  {
    hide Prime, Clear128;
    Tried3276253_0(); Tried3276253_1(); Tried3276253_2(); Tried3276253_3(); Tried3276253_4(); Tried3276253_5();
    Tried3276253_6(); Tried3276253_7(); PrimeByBlocks(3276253, 8);
    Tried4914373_0(); Tried4914373_1(); Tried4914373_2(); Tried4914373_3(); Tried4914373_4(); Tried4914373_5();
    Tried4914373_6(); Tried4914373_7(); Tried4914373_8(); PrimeByBlocks(4914373, 9);
    Tried7371571_0(); Tried7371571_1(); Tried7371571_2(); Tried7371571_3(); Tried7371571_4(); Tried7371571_5();
    Tried7371571_6(); Tried7371571_7(); Tried7371571_8(); Tried7371571_9(); Tried7371571_10();
    PrimeByBlocks(7371571, 11);
  }

  lemma LargeSizes3()
    ensures Prime(11057357) && Prime(16586039)
  {
    hide Prime, Clear128;
    Tried11057357_0(); Tried11057357_1(); Tried11057357_2(); Tried11057357_3(); Tried11057357_4(); Tried11057357_5();
    Tried11057357_6(); Tried11057357_7(); Tried11057357_8(); Tried11057357_9(); Tried11057357_10();
    Tried11057357_11(); Tried11057357_12(); PrimeByBlocks(11057357, 13);
    Tried16586039_0(); Tried16586039_1(); Tried16586039_2(); Tried16586039_3(); Tried16586039_4(); Tried16586039_5();
    Tried16586039_6(); Tried16586039_7(); Tried16586039_8(); Tried16586039_9(); Tried16586039_10();
    Tried16586039_11(); Tried16586039_12(); Tried16586039_13(); Tried16586039_14(); Tried16586039_15();
    PrimeByBlocks(16586039, 16);
  }

  lemma LargeSizes4()
    ensures Prime(24879017) && Prime(37318507)
  {
    hide Prime, Clear128;
    Tried24879017_0(); Tried24879017_1(); Tried24879017_2(); Tried24879017_3(); Tried24879017_4(); Tried24879017_5();
    Tried24879017_6(); Tried24879017_7(); Tried24879017_8(); Tried24879017_9(); Tried24879017_10();
    Tried24879017_11(); Tried24879017_12(); Tried24879017_13(); Tried24879017_14(); Tried24879017_15();
    Tried24879017_16(); Tried24879017_17(); Tried24879017_18(); Tried24879017_19(); PrimeByBlocks(24879017, 20);
    Tried37318507_0(); Tried37318507_1(); Tried37318507_2(); Tried37318507_3(); Tried37318507_4(); Tried37318507_5();
    Tried37318507_6(); Tried37318507_7(); Tried37318507_8(); Tried37318507_9(); Tried37318507_10();
    Tried37318507_11(); Tried37318507_12(); Tried37318507_13(); Tried37318507_14(); Tried37318507_15();
    Tried37318507_16(); Tried37318507_17(); Tried37318507_18(); Tried37318507_19(); Tried37318507_20();
    Tried37318507_21(); Tried37318507_22(); Tried37318507_23(); PrimeByBlocks(37318507, 24);
  }

  lemma LargeSizes(n: nat)
    requires n in SIZES && n >= 131 * 131
    ensures Prime(n)
  {
    hide SIZES, Prime;
    SizeCases(n);
    LargeSizes0();
    LargeSizes1();
    LargeSizes2();
    LargeSizes3();
    LargeSizes4();
  }

  /** All listed sizes are prime. */
  lemma SizesArePrime(n: nat)
    requires n in SIZES
    ensures Prime(n)
  {
    hide SIZES, Prime;
    if n <= 1089 { SmallSizes(n); } else if n < 131 * 131 { MediumSizes(n); } else { LargeSizes(n); }
  }
}
