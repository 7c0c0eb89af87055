/**
 CRC-64 (server/common/crc32.c, crc64_* and gf64_*): the one-table loop against the
 bit-at-a-time definition, the field multiplication, the table of powers x^(8 * 2^n - 1),
 and the CRC of a concatenation built on them.
 */
module Crc64 {
  import opened Digits
  import opened Gf64

  const POLY: bv64 := 0xc96c_5795_d787_0f42

  // ---------- the definition ----------

  /** One byte, one bit at a time: add it in, then multiply by x eight times. */
  function FeedByte(crc: bv64, b: bv8): bv64 {
    TimesX(8, Plus(crc, b as bv64), POLY)
  }

  function Feed(crc: bv64, data: seq<bv8>): bv64 {
    if data == [] then crc else FeedByte(Feed(crc, data[..|data| - 1]), data[|data| - 1])
  }

  /** compute_crc64 */
  function Crc(data: seq<bv8>): bv64 {
    Plus(Feed(ALL, data), ALL)
  }

  lemma {:induction false} FeedConcat(crc: bv64, a: seq<bv8>, b: seq<bv8>)
    ensures Feed(crc, a + b) == Feed(Feed(crc, a), b)
    decreases |b|
  {
    hide FeedByte;
    if b == [] {
      assert a + b == a;
    } else {
      assert (a + b)[..|a + b| - 1] == a + b[..|b| - 1];
      FeedConcat(crc, a, b[..|b| - 1]);
    }
  }

  // ---------- the table ----------

  function Byte0(c: bv64): bv64 { c & 0xff }
  function Drop8(c: bv64): bv64 { c >> 8 }

  /** crc64_table, by its recurrence. */
  function Table(i: bv64): bv64 { TimesX(8, i, POLY) }

  /** The top byte is clear. */
  predicate Room(v: bv64) {
    v & 0xff00_0000_0000_0000 == 0
  }

  lemma RoomUp(v: bv64)
    requires Room(v)
    ensures !Top(v) && !Top(Double(v)) && !Top(Double(Double(v))) && !Top(Double(Double(Double(v))))
    ensures !Top(Double(Double(Double(Double(v))))) && !Top(Double(Double(Double(Double(Double(v))))))
    ensures !Top(Double(Double(Double(Double(Double(Double(v)))))))
    ensures !Top(Double(Double(Double(Double(Double(Double(Double(v))))))))
  {
  }

  lemma TimesXOfDouble(k: nat, v: bv64)
    requires !Top(v)
    ensures TimesX(k + 1, Double(v), POLY) == TimesX(k, v, POLY)
  {
    hide Half, Plus, Double, Odd, Top;
    HalfOfDouble(v);
    DoubleEven(v);
    PlusZero(v);
    assert TimesX(1, Double(v), POLY) == Mulx(TimesX(0, Double(v), POLY), POLY);
    TimesXAdd(k, 1, Double(v), POLY);
  }

  lemma TimesXOfShift8(v: bv64)
    requires Room(v)
    ensures TimesX(8, Shift8(v), POLY) == v
  {
    hide Room, TimesX, Double, Shift8, Top;
    RoomUp(v);
    Double8(v);
    var v2 := Double(Double(v));
    var v4 := Double(Double(v2));
    var v6 := Double(Double(v4));
    TimesXOfDouble(7, Double(v6));
    TimesXOfDouble(6, v6);
    TimesXOfDouble(5, Double(v4));
    TimesXOfDouble(4, v4);
    TimesXOfDouble(3, Double(v2));
    TimesXOfDouble(2, v2);
    TimesXOfDouble(1, Double(v));
    TimesXOfDouble(0, v);
    TimesXNone(v);
  }

  lemma TimesXNone(v: bv64)
    ensures TimesX(0, v, POLY) == v
  {
  }

  lemma SplitByte(c: bv64)
    ensures c == Plus(Byte0(c), Shift8(Drop8(c))) && Room(Drop8(c))
  {
  }

  lemma Drop8OfPlus(crc: bv64, b: bv8)
    ensures Drop8(Plus(crc, b as bv64)) == Drop8(crc)
  {
  }

  /** crc64_feed_byte: the look-up is the eight steps. */
  method Crc64FeedByte(crc: bv64, b: bv8) returns (r: bv64)
    ensures r == FeedByte(crc, b)
  {
    hide Room, TimesX, Plus, Shift8, Byte0, Drop8;
    var c := Plus(crc, b as bv64);
    r := Plus(Table(Byte0(c)), Drop8(crc));
    Drop8OfPlus(crc, b);
    SplitByte(c);
    TimesXPlus(8, Byte0(c), Shift8(Drop8(c)), POLY);
    TimesXOfShift8(Drop8(c));
  }

  /** crc64_partial_one_table */
  method Crc64Partial(data: seq<bv8>, start: bv64) returns (crc: bv64)
    ensures crc == Feed(start, data)
  {
    hide FeedByte;
    var p, len := 0, |data|;
    crc := start;
    while len > 0
      invariant p >= 0 && len >= 0 && p + len == |data| && crc == Feed(start, data[..p])
    {
      crc := Crc64FeedByte(crc, data[p]);
      assert data[..p + 1][..p] == data[..p];
      p := p + 1;
      len := len - 1;
    }
    assert data[..p] == data;
  }

  // ---------- gf64_mul ----------

  method Gf64Mul(a: bv64, b0: bv64) returns (x: bv64)
    ensures x == Mul(a, b0, POLY)
  {
    hide Mulx, Plus, Half, Odd;
    var b, i := b0, 0;
    x := 0;
    while i < 64
      invariant i <= 64 && b == Shr(b0, i) && x == Horner(a, b0, i, POLY)
    {
      x := Mulx(x, POLY);
      PlusZero(x);
      if Odd(b) { x := Plus(x, a); }
      b := Half(b);
      i := i + 1;
    }
  }

  // ---------- the table of powers ----------

  /** The exponent of odd entry n: a byte's worth of x, doubled n times, less one. */
  function Exponent(n: nat): nat {
    8 * Pow2(n) - 1
  }

  function Power(k: nat): bv64 {
    TimesX(k, ONE, POLY)
  }

  ghost predicate PowerBuf(s: seq<bv64>, count: nat) {
    2 * count <= |s|
    && forall n: nat :: n < count ==>
         s[2 * n] == Power(Exponent(n) + 64) && s[2 * n + 1] == Power(Exponent(n))
  }

  lemma PowerNonzero(k: nat)
    ensures Power(k) != 0
  {
    hide TimesX, Unit;
    PolyIsUnit();
    TimesXZero(k, POLY);
    if Power(k) == 0 { TimesXInjective(k, ONE, 0, POLY); }
  }

  lemma PolyIsUnit()
    ensures Unit(POLY) && ONE != 0
  {
  }

  /** The polynomial itself is the word for x^64. */
  lemma PolyIsPower()
    ensures POLY == Power(64)
  {
    hide TimesX, Half, Odd, Plus, Shl;
    ShlIsTimesX(0, POLY);
    ShlNone(1);
    OneIsOneBit();
    PlusZero(POLY);
    MulxPower(63);
  }

  lemma MulxPower(k: nat)
    ensures Mulx(Power(k), POLY) == Power(k + 1)
  {
    hide Mulx;
  }

  lemma MulPowers(j: nat, k: nat)
    ensures Mul(Power(j), Power(k), POLY) == Power(j + k)
  {
    hide TimesX, Mul;
    MulByPower(Power(j), k, POLY);
    TimesXAdd(k, j, ONE, POLY);
  }

  lemma ExponentNext(n: nat)
    ensures Exponent(n + 1) == 2 * Exponent(n) + 1
  {
    Pow2Next(n);
  }

  lemma FirstPower()
    ensures Shl(1, 56) == Power(Exponent(0))
  {
    hide TimesX, Shl;
    ShlIsTimesX(56, POLY);
  }

  // The constants of the middle asserts: x^95, x^127, x^191, x^255 and x^319.
  const X95: bv64 := 0x1dee_8a5e_222c_a1dc
  const X127: bv64 := 0xdabe_95af_c787_5f40
  const X191: bv64 := 0xe05d_d497_ca39_3ae4
  const X255: bv64 := 0x3be6_53a3_0fe1_af51
  const X319: bv64 := 0x6009_5b00_8a9e_fa44

  /** Mulx(v, POLY) without a branch: -(v & 1) is all ones or all zeros. */
  function Next(v: bv64): bv64 {
    (v >> 1) ^ (0xc96c_5795_d787_0f42 & (0 - (v & 1)))
  }

  lemma NextIsMulx(v: bv64)
    ensures Next(v) == Mulx(v, POLY)
  {
  }

  function Mulx8(v: bv64): bv64 {
    Next(Next(Next(Next(Next(Next(Next(Next(v))))))))
  }

  function Mulx32(v: bv64): bv64 {
    Mulx8(Mulx8(Mulx8(Mulx8(v))))
  }

  lemma NextPower(k: nat)
    ensures Next(Power(k)) == Power(k + 1)
  {
    hide Mulx, Next, Power;
    NextIsMulx(Power(k));
    MulxPower(k);
  }

  lemma Mulx8Power(k: nat)
    ensures Mulx8(Power(k)) == Power(k + 8)
  {
    hide Next, Power;
    NextPower(k);
    NextPower(k + 1);
    NextPower(k + 2);
    NextPower(k + 3);
    NextPower(k + 4);
    NextPower(k + 5);
    NextPower(k + 6);
    NextPower(k + 7);
  }

  lemma Mulx32Power(k: nat)
    ensures Mulx32(Power(k)) == Power(k + 32)
  {
    hide Mulx8, Power;
    Mulx8Power(k);
    Mulx8Power(k + 8);
    Mulx8Power(k + 16);
    Mulx8Power(k + 24);
  }

  lemma Reach95()
    ensures Mulx32(1) == X95
  {
  }

  lemma Reach127()
    ensures Mulx32(X95) == X127
  {
  }

  lemma Reach191()
    ensures Mulx32(Mulx32(X127)) == X191
  {
  }

  lemma Reach255()
    ensures Mulx32(Mulx32(X191)) == X255
  {
  }

  lemma Reach319()
    ensures Mulx32(Mulx32(X255)) == X319
  {
  }

  /** The literal constants are the powers their names say. */
  lemma ConstantsArePowers()
    ensures Power(95) == X95 && Power(127) == X127 && Power(191) == X191 && Power(255) == X255 && Power(319) == X319
  {
    hide Mulx32, Power, Shl;
    ShortPowers();
    Reach95();
    Reach127();
    Reach191();
    Reach255();
    Reach319();
    Mulx32Power(63);
    Mulx32Power(95);
    Mulx32Power(127);
    Mulx32Power(159);
    Mulx32Power(191);
    Mulx32Power(223);
    Mulx32Power(255);
    Mulx32Power(287);
  }

  lemma ShortPowers()
    ensures Power(15) == Shl(1, 48) && Power(31) == Shl(1, 32) && Power(63) == 1
  {
    hide TimesX, Shl;
    ShlIsTimesX(48, POLY);
    ShlIsTimesX(32, POLY);
    ShlIsTimesX(0, POLY);
    ShlNone(1);
  }

  lemma EarlyExponents()
    ensures Exponent(1) == 15 && Exponent(2) == 31 && Exponent(3) == 63 && Exponent(4) == 127 && Exponent(5) == 255
  {
    hide Exponent;
    ExponentFirst();
    ExponentNext(0);
    ExponentNext(1);
    ExponentNext(2);
    ExponentNext(3);
    ExponentNext(4);
  }

  lemma ExponentFirst()
    ensures Exponent(0) == 7
  {
  }

  /** What the asserts after the loop check. */
  ghost predicate Checked(s: seq<bv64>) {
    |s| == 126
    && s[3] == Shl(1, 48) && s[4] == X95 && s[5] == Shl(1, 32) && s[6] == X127 && s[7] == 1
    && s[8] == X191 && s[9] == X127 && s[10] == X319 && s[11] == X255 && s[125] != 0
  }

  lemma PowerBufChecked(s: seq<bv64>)
    requires |s| == 126 && PowerBuf(s, 63)
    ensures Checked(s)
  {
    hide Power, Exponent, Shl;
    EarlyExponents();
    ShortPowers();
    ConstantsArePowers();
    PowerNonzero(Exponent(62));
    assert s[2 * 1 + 1] == Power(15);
    assert s[2 * 2] == Power(95) && s[2 * 2 + 1] == Power(31);
    assert s[2 * 3] == Power(127) && s[2 * 3 + 1] == Power(63);
    assert s[2 * 4] == Power(191) && s[2 * 4 + 1] == Power(127);
    assert s[2 * 5] == Power(319) && s[2 * 5 + 1] == Power(255);
    assert s[2 * 62 + 1] == Power(Exponent(62));
  }

  /** crc64_init_power_buf; the asserts at its end hold. */
  method InitPowerBuf(buf: array<bv64>)
    requires buf.Length == 126
    modifies buf
    ensures PowerBuf(buf[..], 63) && Checked(buf[..])
  {
    hide Mulx, Mul, Power, Exponent, Shl, Checked;
    var n, p := 0, 0;
    var a := Shl(1, 56);
    FirstPower();
    PolyIsPower();
    while n < 63
      invariant n <= 63 && p == 2 * n
      invariant a == Power(Exponent(n)) && PowerBuf(buf[..], n)
    {
      var e := Gf64Mul(a, POLY);
      buf[p], buf[p + 1] := e, a;
      MulPowers(Exponent(n), 64);
      var sq := Gf64Mul(a, a);
      MulPowers(Exponent(n), Exponent(n));
      MulxPower(2 * Exponent(n));
      ExponentNext(n);
      a := Mulx(sq, POLY);
      p := p + 2;
      n := n + 1;
    }
    PowerBufChecked(buf[..]);
  }

  // ---------- combining ----------

  /** __builtin_ffsll, for a positive argument: the place of the lowest binary one, counted from 1. */
  function Ffs(v: nat): nat
    requires v > 0
  {
    if v % 2 == 1 then 1 else 1 + Ffs(v / 2)
  }

  function ShiftRight(v: nat, n: nat): nat {
    if n == 0 then v else ShiftRight(v / 2, n - 1)
  }

  /** The zeros below the lowest one are passed over. */
  lemma {:induction false} StandingAtFfs(t: nat, rest: nat, length: nat)
    requires rest > 0 && Standing(t, 0, rest, length)
    ensures Standing(t + Ffs(rest), Pow2(t + Ffs(rest) - 1), ShiftRight(rest, Ffs(rest)), length)
    decreases rest
  {
    hide Standing, Pow2;
    StandingNext(t, 0, rest, length);
    if rest % 2 == 0 { StandingAtFfs(t + 1, rest / 2, length); }
    ShiftNone(rest / 2);
  }

  lemma ShiftNone(v: nat)
    ensures ShiftRight(v, 0) == v
  {
  }

  lemma {:induction false} FfsBound(t: nat, rest: nat, length: nat)
    requires rest > 0 && Standing(t, 0, rest, length) && length < Pow2(63)
    ensures t + Ffs(rest) <= 63
    decreases rest
  {
    hide Standing, Pow2;
    StandingBound(t, 0, rest, length);
    if rest % 2 == 0 {
      StandingNext(t, 0, rest, length);
      FfsBound(t + 1, rest / 2, length);
    }
  }

  /** Multiplying by entry 2 t + 1, once more by x, is multiplying by x^(8 * 2^t). */
  method Turn(buf: array<bv64>, p: nat, ghost t: nat, crc0: bv64, ghost done: nat, ghost crc1: bv64) returns (crc: bv64)
    requires buf.Length == 126 && PowerBuf(buf[..], 63) && t < 63 && p == 2 * t + 1
    requires crc0 == TimesX(8 * done, crc1, POLY)
    ensures crc == TimesX(8 * (done + Pow2(t)), crc1, POLY)
  {
    hide Mul, TimesX, Mulx, Pow2, Power;
    assert buf[..][2 * t + 1] == Power(Exponent(t));
    crc := Gf64Mul(crc0, Mulx(buf[p], POLY));
    MulxPower(Exponent(t));
    MulByPowerOf(crc0, 8 * Pow2(t));
    TimesXAdd(8 * Pow2(t), 8 * done, crc1, POLY);
  }

  lemma MulByPowerOf(a: bv64, k: nat)
    ensures Mul(a, Power(k), POLY) == TimesX(k, a, POLY)
  {
    hide Mul, TimesX;
    MulByPower(a, k, POLY);
  }

  function Combined(crc1: bv64, crc2: bv64, len2: int): bv64 {
    if len2 <= 0 then crc1 else Plus(TimesX(8 * len2, crc1, POLY), crc2)
  }

  /** compute_crc64_combine_generic, with its table of powers made at the first use. */
  class Combiner {
    const buf: array<bv64>

    ghost predicate Valid()
      reads buf
    {
      buf.Length == 126 && (buf[125] != 0 ==> PowerBuf(buf[..], 63))
    }

    constructor ()
      ensures Valid() && fresh(buf)
    {
      buf := new bv64[126](_ => 0);
    }

    method Combine(crc1: bv64, crc2: bv64, length: int) returns (crc: bv64)
      requires Valid() && length < Pow2(63)
      modifies buf
      ensures Valid()
      ensures crc == Combined(crc1, crc2, length)
    {
      hide TimesX, Pow2, PowerBuf, Standing, Ffs, ShiftRight, Plus, Checked;
      if length <= 0 { return crc1; }
      if buf[125] == 0 { InitPowerBuf(buf); }
      ghost var done: nat := 0;
      TimesXNone(crc1);
      StandingFirst(length);
      FfsBound(0, length, length);
      StandingAtFfs(0, length, length);
      FfsPositive(length);
      var n := Ffs(length);
      var p, len2 := 2 * (n - 1) + 1, ShiftRight(length, n);
      crc := Turn(buf, p, n - 1, crc1, 0, crc1);
      done := Pow2(n - 1);
      while len2 > 0
        invariant n >= 1 && p == 2 * (n - 1) + 1 && PowerBuf(buf[..], 63)
        invariant Standing(n, done, len2, length)
        invariant crc == TimesX(8 * done, crc1, POLY)
      {
        StandingBound(n, done, len2, length);
        StandingNext(n, done, len2, length);
        p := p + 2;
        if len2 % 2 == 1 {
          crc := Turn(buf, p, n, crc, done, crc1);
          done := done + Pow2(n);
        }
        n := n + 1;
        len2 := len2 / 2;
      }
      StandingLast(n, done, length);
      crc := Plus(crc, crc2);
    }
  }

  lemma FfsPositive(v: nat)
    requires v > 0
    ensures Ffs(v) >= 1
  {
  }

  lemma {:induction false} FeedShift(c: bv64, data: seq<bv8>)
    ensures Feed(c, data) == Plus(TimesX(8 * |data|, c, POLY), Feed(0, data))
    decreases |data|
  {
    hide Plus, TimesX;
    if data == [] {
      PlusZero(c);
      TimesXNone(c);
    } else {
      var d, b := data[..|data| - 1], data[|data| - 1] as bv64;
      FeedShift(c, d);
      var t := TimesX(8 * |d|, c, POLY);
      PlusAssoc(t, Feed(0, d), b);
      TimesXPlus(8, t, Plus(Feed(0, d), b), POLY);
      TimesXAdd(8, 8 * |d|, c, POLY);
    }
  }

  /** The CRC of a + b, from the CRC of a, the CRC of b and the length of b. */
  lemma CrcOfConcatenation(a: seq<bv8>, b: seq<bv8>)
    ensures Combined(Crc(a), Crc(b), |b|) == Crc(a + b)
  {
    hide Plus, TimesX, Feed;
    FeedConcat(ALL, a, b);
    if b == [] {
      assert a + b == a;
    } else {
      var k, fa, f0 := 8 * |b|, Feed(ALL, a), Feed(0, b);
      FeedShift(fa, b);
      FeedShift(ALL, b);
      TimesXPlus(k, fa, ALL, POLY);
      Rearrange(TimesX(k, fa, POLY), TimesX(k, ALL, POLY), f0, ALL);
    }
  }

  lemma Rearrange(p: bv64, q: bv64, f: bv64, all: bv64)
    ensures Plus(Plus(p, q), Plus(Plus(q, f), all)) == Plus(Plus(p, f), all)
  {
    hide Plus;
    PlusAssoc(q, f, all);
    PlusAssoc(Plus(p, q), q, Plus(f, all));
    PlusAssoc(p, q, q);
    PlusZero(q);
    PlusZero(p);
    PlusAssoc(p, f, all);
  }
}
