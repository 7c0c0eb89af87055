/**
 Arithmetic modulo a 32-bit polynomial over GF(2), bit-reversed as CRC-32 uses it
 (server/common/crc32.c, gf32_*): the word with only its top bit set is the polynomial 1,
 and one shift to the right multiplies by x.
 */
module Gf32 {

  const ONE: bv32 := 0x8000_0000

  // The word operations, by name: their laws are proved on bits once and used by name after.

  function Plus(a: bv32, b: bv32): bv32 { a ^ b }
  function Half(a: bv32): bv32 { a >> 1 }
  function Double(a: bv32): bv32 { a << 1 }
  function Odd(a: bv32): bool { a & 1 == 1 }
  function IfOdd(a: bv32, v: bv32): bv32 { if Odd(a) then v else 0 }

  lemma PlusComm(a: bv32, b: bv32)
    ensures Plus(a, b) == Plus(b, a)
  {
  }

  lemma PlusAssoc(a: bv32, b: bv32, c: bv32)
    ensures Plus(Plus(a, b), c) == Plus(a, Plus(b, c))
  {
  }

  lemma PlusZero(a: bv32)
    ensures Plus(a, 0) == a && Plus(0, a) == a && Plus(a, a) == 0
  {
  }

  lemma PlusSwap(a: bv32, b: bv32, c: bv32, d: bv32)
    ensures Plus(Plus(a, b), Plus(c, d)) == Plus(Plus(a, c), Plus(b, d))
  {
    hide Plus;
    PlusAssoc(a, b, Plus(c, d));
    PlusAssoc(b, c, d);
    PlusComm(b, c);
    PlusAssoc(c, b, d);
    PlusAssoc(a, c, Plus(b, d));
  }

  lemma HalfPlus(a: bv32, b: bv32)
    ensures Half(Plus(a, b)) == Plus(Half(a), Half(b))
  {
    HalfXor(a, b);
  }

  lemma HalfXor(a: bv32, b: bv32)
    ensures (a ^ b) >> 1 == (a >> 1) ^ (b >> 1)
  {
  }

  lemma DoublePlus(a: bv32, b: bv32)
    ensures Double(Plus(a, b)) == Plus(Double(a), Double(b))
  {
    DoubleXor(a, b);
  }

  lemma DoubleXor(a: bv32, b: bv32)
    ensures (a ^ b) << 1 == (a << 1) ^ (b << 1)
  {
  }

  lemma OddPlus(a: bv32, b: bv32)
    ensures Odd(Plus(a, b)) == (Odd(a) != Odd(b))
  {
    OddXor(a, b);
  }

  lemma OddXor(a: bv32, b: bv32)
    ensures ((a ^ b) & 1 == 1) == ((a & 1 == 1) != (b & 1 == 1))
  {
  }

  lemma IfOddPlus(a: bv32, b: bv32, v: bv32)
    ensures IfOdd(Plus(a, b), v) == Plus(IfOdd(a, v), IfOdd(b, v))
  {
    hide Plus, Odd;
    OddPlus(a, b);
    PlusZero(v);
    PlusZero(0);
  }

  // ---------- multiplication by x ----------

  /** gf32_mulx: multiply by x. */
  function Mulx(a: bv32, poly: bv32): bv32 {
    Plus(Half(a), IfOdd(a, poly))
  }

  /** x^k * a. */
  function TimesX(k: nat, a: bv32, poly: bv32): bv32 {
    if k == 0 then a else Mulx(TimesX(k - 1, a, poly), poly)
  }

  lemma TimesXNone(a: bv32, poly: bv32)
    ensures TimesX(0, a, poly) == a
  {
  }

  lemma MulxPlus(a: bv32, b: bv32, poly: bv32)
    ensures Mulx(Plus(a, b), poly) == Plus(Mulx(a, poly), Mulx(b, poly))
  {
    hide Plus, Half, IfOdd;
    HalfPlus(a, b);
    IfOddPlus(a, b, poly);
    PlusSwap(Half(a), Half(b), IfOdd(a, poly), IfOdd(b, poly));
  }

  lemma {:induction false} TimesXPlus(k: nat, a: bv32, b: bv32, poly: bv32)
    ensures TimesX(k, Plus(a, b), poly) == Plus(TimesX(k, a, poly), TimesX(k, b, poly))
  {
    hide Mulx, Plus;
    if k > 0 {
      TimesXPlus(k - 1, a, b, poly);
      MulxPlus(TimesX(k - 1, a, poly), TimesX(k - 1, b, poly), poly);
    }
  }

  lemma {:induction false} TimesXAdd(j: nat, k: nat, a: bv32, poly: bv32)
    ensures TimesX(j, TimesX(k, a, poly), poly) == TimesX(j + k, a, poly)
  {
    hide Mulx;
    if j > 0 { TimesXAdd(j - 1, k, a, poly); }
  }

  lemma MulxZero(poly: bv32)
    ensures Mulx(0, poly) == 0
  {
  }

  lemma {:induction false} TimesXZero(k: nat, poly: bv32)
    ensures TimesX(k, 0, poly) == 0
  {
    hide Mulx;
    MulxZero(poly);
    if k > 0 { TimesXZero(k - 1, poly); }
  }

  /** The polynomial has a constant term, so multiplication by x can be undone. */
  predicate Unit(poly: bv32) {
    poly & ONE == ONE
  }

  predicate Top(a: bv32) {
    a & ONE == ONE
  }

  lemma TopOfMulx(a: bv32, poly: bv32)
    requires Unit(poly)
    ensures Top(Mulx(a, poly)) == Odd(a)
  {
  }

  lemma MulxInjective(a: bv32, b: bv32, poly: bv32)
    requires Unit(poly) && Mulx(a, poly) == Mulx(b, poly)
    ensures a == b
  {
    hide Plus, Half, Double, Odd, Top;
    TopOfMulx(a, poly);
    TopOfMulx(b, poly);
    PlusAssoc(Half(a), IfOdd(a, poly), IfOdd(a, poly));
    PlusAssoc(Half(b), IfOdd(a, poly), IfOdd(a, poly));
    PlusZero(IfOdd(a, poly));
    PlusZero(Half(a));
    PlusZero(Half(b));
    LowBit(a);
    LowBit(b);
  }

  lemma {:induction false} TimesXInjective(k: nat, a: bv32, b: bv32, poly: bv32)
    requires Unit(poly) && TimesX(k, a, poly) == TimesX(k, b, poly)
    ensures a == b
  {
    hide Mulx, Unit;
    if k > 0 {
      MulxInjective(TimesX(k - 1, a, poly), TimesX(k - 1, b, poly), poly);
      TimesXInjective(k - 1, a, b, poly);
    }
  }

  // ---------- bit by bit ----------

  /** v << i, one place at a time. */
  function Shl(v: bv32, i: nat): bv32 {
    if i == 0 then v else Double(Shl(v, i - 1))
  }

  /** v >> i, one place at a time. */
  function Shr(v: bv32, i: nat): bv32 {
    if i == 0 then v else Half(Shr(v, i - 1))
  }

  lemma LowBit(v: bv32)
    ensures v == Plus(IfOdd(v, 1), Double(Half(v)))
  {
  }

  lemma {:induction false} ShlPlus(a: bv32, b: bv32, i: nat)
    ensures Shl(Plus(a, b), i) == Plus(Shl(a, i), Shl(b, i))
  {
    hide Plus, Double;
    if i > 0 {
      ShlPlus(a, b, i - 1);
      DoublePlus(Shl(a, i - 1), Shl(b, i - 1));
    }
  }

  lemma {:induction false} ShlDouble(v: bv32, i: nat)
    ensures Shl(Double(v), i) == Shl(v, i + 1)
  {
    hide Double;
    if i > 0 { ShlDouble(v, i - 1); }
  }

  lemma ShlSplit(v: bv32, i: nat)
    ensures Shl(v, i) == Plus(Shl(IfOdd(v, 1), i), Shl(Half(v), i + 1))
  {
    hide Plus, Half, Double, IfOdd, Shl;
    LowBit(v);
    ShlPlus(IfOdd(v, 1), Double(Half(v)), i);
    ShlDouble(Half(v), i);
  }

  const ALL: bv32 := 0xffff_ffff

  function Shift8(v: bv32): bv32 { v << 8 }

  lemma Shl8(v: bv32, i: nat)
    ensures Shl(v, i + 8) == Shift8(Shl(v, i))
  {
    hide Double, Shift8;
    assert Shl(v, i + 2) == Double(Double(Shl(v, i)));
    assert Shl(v, i + 4) == Double(Double(Shl(v, i + 2)));
    assert Shl(v, i + 6) == Double(Double(Shl(v, i + 4)));
    assert Shl(v, i + 8) == Double(Double(Shl(v, i + 6)));
    Double8(Shl(v, i));
  }

  lemma Double8(w: bv32)
    ensures Double(Double(Double(Double(Double(Double(Double(Double(w)))))))) == Shift8(w)
  {
    ShiftEight(w);
  }

  lemma ShiftEight(w: bv32)
    ensures (((((((w << 1) << 1) << 1) << 1) << 1) << 1) << 1) << 1 == w << 8
  {
  }

  lemma ShlAll(v: bv32)
    ensures Shl(v, 32) == 0
  {
    hide Shl;
    Shl8(v, 0);
    Shl8(v, 8);
    Shl8(v, 16);
    Shl8(v, 24);
    assert Shl(v, 0) == v by { ShlNone(v); }
    ShiftAll(v);
  }

  lemma ShlNone(v: bv32)
    ensures Shl(v, 0) == v
  {
  }

  lemma ShrNone(v: bv32)
    ensures Shr(v, 0) == v
  {
  }

  lemma ShiftAll(v: bv32)
    ensures (((v << 8) << 8) << 8) << 8 == 0
  {
  }

  lemma {:induction false} ShlZero(i: nat)
    ensures Shl(0, i) == 0
  {
    if i > 0 { ShlZero(i - 1); }
  }

  lemma {:induction false} ShlAdd(v: bv32, i: nat, j: nat)
    ensures Shl(v, i + j) == Shl(Shl(v, i), j)
  {
    hide Double;
    if j > 0 { ShlAdd(v, i, j - 1); }
  }

  predicate OneBit(v: bv32) {
    v & (v - 1) == 0
  }

  lemma DoubleOneBit(v: bv32)
    requires OneBit(v)
    ensures OneBit(Double(v))
    ensures Top(v) ==> Double(v) == 0
  {
  }

  lemma {:induction false} ShlOneBit(i: nat)
    ensures OneBit(Shl(1, i))
  {
    hide Double, OneBit;
    if i > 0 { ShlOneBit(i - 1); DoubleOneBit(Shl(1, i - 1)); } else { OneIsOneBit(); }
  }

  lemma OneIsOneBit()
    ensures OneBit(1) && Odd(1) && Half(1) == 0 && Half(0) == 0 && !Odd(0)
  {
  }

  lemma HalfOfDouble(v: bv32)
    requires !Top(v)
    ensures Half(Double(v)) == v
  {
  }

  lemma DoubleEven(v: bv32)
    ensures !Odd(Double(v))
  {
  }

  lemma ShlOneEnd()
    ensures Shl(1, 31) == ONE && ONE != 0
  {
    hide Shl, Double;
    Shl8(1, 23);
    Shl8(1, 15);
    Shl8(1, 7);
    ShlSeven();
    ShiftOne();
  }

  lemma ShlSeven()
    ensures Shl(1, 7) == 128
  {
    assert Shl(1, 3) == 8;
  }

  lemma ShiftOne()
    ensures Shift8(Shift8(Shift8(128))) == ONE
  {
  }

  /** 1 << i keeps its bit up to i == 31. */
  lemma ShlOneStep(i: nat)
    requires i <= 30
    ensures Half(Shl(1, i + 1)) == Shl(1, i) && !Odd(Shl(1, i + 1))
  {
    hide Double, OneBit, Half, Odd, Top;
    ShlOneBit(i);
    DoubleOneBit(Shl(1, i));
    if Top(Shl(1, i)) {
      ShlAdd(1, i + 1, 30 - i);
      ShlZero(30 - i);
      ShlOneEnd();
    } else {
      HalfOfDouble(Shl(1, i));
    }
    DoubleEven(Shl(1, i));
  }

  /** 1 << i is x^(31 - i). */
  lemma {:induction false} ShlIsTimesX(i: nat, poly: bv32)
    requires i <= 31
    ensures Shl(1, i) == TimesX(31 - i, ONE, poly)
    decreases 31 - i
  {
    hide Double, OneBit, Half, Odd, Top, Plus, Shl;
    if i == 31 {
      ShlOneEnd();
    } else {
      ShlIsTimesX(i + 1, poly);
      ShlOneStep(i);
      PlusZero(Shl(1, i));
    }
  }

  /** Bit j of 1 << k. */
  lemma {:induction false} BitOfShlOne(k: nat, j: nat)
    requires k <= 31 && j <= 31
    ensures j <= k ==> Shr(Shl(1, k), j) == Shl(1, k - j)
    ensures j > k ==> Shr(Shl(1, k), j) == 0
    ensures Odd(Shr(Shl(1, k), j)) == (j == k)
  {
    hide Double, Half, Odd, Shl;
    OneIsOneBit();
    ShlNone(1);
    if j > 0 {
      BitOfShlOne(k, j - 1);
      if j <= k { ShlOneStep(k - j); }
    }
    if j < k { ShlOneStep(k - j - 1); }
  }

  // ---------- linear maps ----------

  ghost predicate Linear(f: bv32 -> bv32) {
    forall a, b :: f(Plus(a, b)) == Plus(f(a), f(b))
  }

  lemma LinearZero(f: bv32 -> bv32)
    requires Linear(f)
    ensures f(0) == 0
  {
    hide Plus;
    PlusZero(0);
    PlusZero(f(0));
    assert f(Plus(0, 0)) == Plus(f(0), f(0));
  }

  /** Linear maps that agree on every 1 << k agree on every v << i. */
  lemma {:induction false} LinearExtension(f: bv32 -> bv32, g: bv32 -> bv32, v: bv32, i: nat)
    requires Linear(f) && Linear(g)
    requires forall k: nat :: k < 32 ==> f(Shl(1, k)) == g(Shl(1, k))
    requires i <= 32
    ensures f(Shl(v, i)) == g(Shl(v, i))
    decreases 32 - i
  {
    hide Plus, Half, IfOdd, Shl, Linear;
    LinearZero(f);
    LinearZero(g);
    if i == 32 {
      ShlAll(v);
    } else {
      ShlSplit(v, i);
      LinearExtension(f, g, Half(v), i + 1);
      ShlZero(i);
      IfOddCases(v);
      assert f(Shl(1, i)) == g(Shl(1, i));
      LinearSplit(f, g, Shl(IfOdd(v, 1), i), Shl(Half(v), i + 1));
    }
  }

  lemma LinearSplit(f: bv32 -> bv32, g: bv32 -> bv32, a: bv32, b: bv32)
    requires Linear(f) && Linear(g) && f(a) == g(a) && f(b) == g(b)
    ensures f(Plus(a, b)) == g(Plus(a, b))
  {
  }

  lemma IfOddCases(v: bv32)
    ensures IfOdd(v, 1) == 0 || IfOdd(v, 1) == 1
  {
  }

  // ---------- multiplication ----------

  /** gf32_mul after n turns of its loop: bit n - 1 of b has just been added in. */
  function Horner(a: bv32, b: bv32, n: nat, poly: bv32): bv32 {
    if n == 0 then 0 else Plus(Mulx(Horner(a, b, n - 1, poly), poly), IfOdd(Shr(b, n - 1), a))
  }

  function Mul(a: bv32, b: bv32, poly: bv32): bv32 {
    Horner(a, b, 32, poly)
  }

  lemma {:induction false} HornerMulx(a: bv32, b: bv32, n: nat, poly: bv32)
    ensures Horner(Mulx(a, poly), b, n, poly) == Mulx(Horner(a, b, n, poly), poly)
  {
    hide Mulx, Plus, Odd, Shr;
    MulxZero(poly);
    if n > 0 {
      HornerMulx(a, b, n - 1, poly);
      MulxPlus(Mulx(Horner(a, b, n - 1, poly), poly), IfOdd(Shr(b, n - 1), a), poly);
    }
  }

  lemma {:induction false} HornerPlusLeft(a: bv32, c: bv32, b: bv32, n: nat, poly: bv32)
    ensures Horner(Plus(a, c), b, n, poly) == Plus(Horner(a, b, n, poly), Horner(c, b, n, poly))
  {
    hide Mulx, Plus, Odd;
    PlusZero(0);
    if n > 0 {
      HornerPlusLeft(a, c, b, n - 1, poly);
      var x, y := Horner(a, b, n - 1, poly), Horner(c, b, n - 1, poly);
      MulxPlus(x, y, poly);
      PlusSwap(Mulx(x, poly), Mulx(y, poly), IfOdd(Shr(b, n - 1), a), IfOdd(Shr(b, n - 1), c));
    }
  }

  lemma {:induction false} ShrPlus(a: bv32, b: bv32, i: nat)
    ensures Shr(Plus(a, b), i) == Plus(Shr(a, i), Shr(b, i))
  {
    hide Plus, Half;
    if i > 0 {
      ShrPlus(a, b, i - 1);
      HalfPlus(Shr(a, i - 1), Shr(b, i - 1));
    }
  }

  lemma {:induction false} HornerPlusRight(a: bv32, b: bv32, c: bv32, n: nat, poly: bv32)
    ensures Horner(a, Plus(b, c), n, poly) == Plus(Horner(a, b, n, poly), Horner(a, c, n, poly))
  {
    hide Mulx, Plus, IfOdd, Shr;
    PlusZero(0);
    if n > 0 {
      HornerPlusRight(a, b, c, n - 1, poly);
      var x, y := Horner(a, b, n - 1, poly), Horner(a, c, n - 1, poly);
      MulxPlus(x, y, poly);
      ShrPlus(b, c, n - 1);
      IfOddPlus(Shr(b, n - 1), Shr(c, n - 1), a);
      PlusSwap(Mulx(x, poly), Mulx(y, poly), IfOdd(Shr(b, n - 1), a), IfOdd(Shr(c, n - 1), a));
    }
  }

  lemma {:induction false} HornerOfOneBit(a: bv32, k: nat, n: nat, poly: bv32)
    requires k <= 31 && n <= 32
    ensures Horner(a, Shl(1, k), n, poly) == if n <= k then 0 else TimesX(n - k - 1, a, poly)
  {
    hide Mulx, Plus, Odd, Shl, Shr;
    if n > 0 {
      HornerOfOneBit(a, k, n - 1, poly);
      BitOfShlOne(k, n - 1);
      PlusZero(a);
      PlusZero(TimesX(n - 1, a, poly));
      if n > k + 1 { PlusZero(TimesX(n - k - 1, a, poly)); }
      MulxZero(poly);
      PlusZero(0);
    }
  }

  // The ring laws. TimesX(k, ONE, poly) is x^k.

  /** a * x^(31 - k) */
  lemma MulOneBit(a: bv32, k: nat, poly: bv32)
    requires k <= 31
    ensures Mul(a, Shl(1, k), poly) == TimesX(31 - k, a, poly)
  {
    HornerOfOneBit(a, k, 32, poly);
  }

  lemma MulLinear(a: bv32, poly: bv32)
    ensures Linear((b: bv32) => Mul(a, b, poly))
    ensures Linear((b: bv32) => Mul(b, a, poly))
  {
    hide Horner, Plus;
    forall b, c
      ensures Mul(a, Plus(b, c), poly) == Plus(Mul(a, b, poly), Mul(a, c, poly))
      ensures Mul(Plus(b, c), a, poly) == Plus(Mul(b, a, poly), Mul(c, a, poly))
    {
      HornerPlusRight(a, b, c, 32, poly);
      HornerPlusLeft(b, c, a, 32, poly);
    }
  }

  lemma MulOne(b: bv32, poly: bv32)
    ensures Mul(ONE, b, poly) == b
  {
    hide Mul, Plus, Shl, TimesX;
    MulLinear(ONE, poly);
    var f := (v: bv32) => Mul(ONE, v, poly);
    var g := (v: bv32) => v;
    forall k: nat | k < 32 ensures f(Shl(1, k)) == g(Shl(1, k)) {
      MulOneBit(ONE, k, poly);
      ShlIsTimesX(k, poly);
    }
    LinearExtension(f, g, b, 0);
    ShlNone(b);
  }

  lemma {:induction false} MulTimesX(k: nat, a: bv32, b: bv32, poly: bv32)
    ensures Mul(TimesX(k, a, poly), b, poly) == TimesX(k, Mul(a, b, poly), poly)
  {
    hide Mulx, Horner;
    if k > 0 {
      MulTimesX(k - 1, a, b, poly);
      HornerMulx(TimesX(k - 1, a, poly), b, 32, poly);
    }
  }

  lemma MulComm(a: bv32, b: bv32, poly: bv32)
    ensures Mul(a, b, poly) == Mul(b, a, poly)
  {
    hide Mul, Plus, Shl, TimesX;
    MulLinear(b, poly);
    var f := (v: bv32) => Mul(v, b, poly);
    var g := (v: bv32) => Mul(b, v, poly);
    forall k: nat | k < 32 ensures f(Shl(1, k)) == g(Shl(1, k)) {
      MulOneBit(b, k, poly);
      ShlIsTimesX(k, poly);
      MulTimesX(31 - k, ONE, b, poly);
      MulOne(b, poly);
    }
    LinearExtension(f, g, a, 0);
    ShlNone(a);
  }

  /** Multiplying by the word for x^k is k shifts. */
  lemma MulByPower(a: bv32, k: nat, poly: bv32)
    ensures Mul(a, TimesX(k, ONE, poly), poly) == TimesX(k, a, poly)
  {
    hide Mul, TimesX;
    MulComm(a, TimesX(k, ONE, poly), poly);
    MulTimesX(k, ONE, a, poly);
    MulOne(a, poly);
  }
}
