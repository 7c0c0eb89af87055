/**
 The CRC-32 of a concatenation from the CRCs of its parts (server/common/crc32.c,
 gf32_matrix_* and compute_crc32_combine_generic): bit matrices of the maps x^(2^n), squared
 one out of the other, and applied along the binary digits of the length.
 */
module Crc32Combine {
  import opened Digits
  import opened Gf32
  import opened Crc32

  const BLOCKS := 67
  const N := 2144  // 32 * 67

  // ---------- matrices ----------

  /** The columns i.. of a bit matrix, added up where v has a bit. */
  function Apply(m: seq<bv32>, v: bv32, i: nat): bv32
    requires |m| == 32 && i <= 32
    decreases 32 - i
  {
    if i == 32 then 0 else Plus(IfOdd(v, m[i]), Apply(m, Half(v), i + 1))
  }

  /** m is the matrix of multiplication by x^k. */
  ghost predicate MatrixOf(m: seq<bv32>, k: nat, poly: bv32) {
    |m| == 32 && forall i: nat :: i < 32 ==> m[i] == TimesX(k, Shl(1, i), poly)
  }

  lemma {:induction false} ApplyZero(m: seq<bv32>, i: nat)
    requires |m| == 32 && i <= 32
    ensures Apply(m, 0, i) == 0
    decreases 32 - i
  {
    hide Plus, Odd, Half;
    OneIsOneBit();
    PlusZero(0);
    if i < 32 { ApplyZero(m, i + 1); }
  }

  /** A matrix whose columns are f(1 << i) computes f. */
  lemma {:induction false} ApplyIsLinear(m: seq<bv32>, f: bv32 -> bv32, v: bv32, i: nat)
    requires Linear(f) && |m| == 32 && i <= 32
    requires forall k: nat :: k < 32 ==> m[k] == f(Shl(1, k))
    ensures Apply(m, v, i) == f(Shl(v, i))
    decreases 32 - i
  {
    hide Plus, Half, Odd, Shl, Linear;
    LinearZero(f);
    if i == 32 {
      ShlAll(v);
    } else {
      ShlSplit(v, i);
      ApplyIsLinear(m, f, Half(v), i + 1);
      ShlZero(i);
      LinearSum(f, Shl(IfOdd(v, 1), i), Shl(Half(v), i + 1));
    }
  }

  lemma LinearSum(f: bv32 -> bv32, a: bv32, b: bv32)
    requires Linear(f)
    ensures f(Plus(a, b)) == Plus(f(a), f(b))
  {
  }

  lemma ApplyTimesX(m: seq<bv32>, k: nat, v: bv32, poly: bv32)
    requires MatrixOf(m, k, poly)
    ensures Apply(m, v, 0) == TimesX(k, v, poly)
  {
    hide Plus, Apply, Shl, TimesX;
    var f := (a: bv32) => TimesX(k, a, poly);
    forall a, b ensures f(Plus(a, b)) == Plus(f(a), f(b)) { TimesXPlus(k, a, b, poly); }
    ApplyIsLinear(m, f, v, 0);
    ShlNone(v);
  }

  lemma Shr8(v: bv32, i: nat)
    ensures Shr(v, i + 8) == Drop8(Shr(v, i))
  {
    hide Half, Drop8;
    assert Shr(v, i + 2) == Half(Half(Shr(v, i)));
    assert Shr(v, i + 4) == Half(Half(Shr(v, i + 2)));
    assert Shr(v, i + 6) == Half(Half(Shr(v, i + 4)));
    assert Shr(v, i + 8) == Half(Half(Shr(v, i + 6)));
    Half8(Shr(v, i));
  }

  lemma Half8(w: bv32)
    ensures Half(Half(Half(Half(Half(Half(Half(Half(w)))))))) == Drop8(w)
  {
    ShiftDownEight(w);
  }

  lemma ShiftDownEight(w: bv32)
    ensures (((((((w >> 1) >> 1) >> 1) >> 1) >> 1) >> 1) >> 1) >> 1 == w >> 8
  {
  }

  lemma ShrAll(v: bv32)
    ensures Shr(v, 32) == 0
  {
    hide Shr, Drop8;
    Shr8(v, 0);
    Shr8(v, 8);
    Shr8(v, 16);
    Shr8(v, 24);
    ShrNone(v);
    DropAll(v);
  }

  lemma DropAll(v: bv32)
    ensures Drop8(Drop8(Drop8(Drop8(v)))) == 0
  {
    ShiftDownAll(v);
  }

  lemma ShiftDownAll(v: bv32)
    ensures (((v >> 8) >> 8) >> 8) >> 8 == 0
  {
  }

  /** gf32_matrix_times, on the 32 words of a at p. */
  method MatrixTimes(a: array<bv32>, p: nat, vector: bv32) returns (sum: bv32)
    requires p + 32 <= a.Length
    ensures sum == Apply(a[p..p + 32], vector, 0)
  {
    hide Plus, Half, Shr;
    var v, i := vector, 0;
    sum := 0;
    ghost var m := a[p..p + 32];
    ShrNone(vector);
    ShrAll(vector);
    PlusZero(Apply(m, vector, 0));
    while v != 0
      invariant i <= 32 && v == Shr(vector, i) && m == a[p..p + 32]
      invariant Plus(sum, Apply(m, v, i)) == Apply(m, vector, 0)
      decreases 32 - i
    {
      PlusAssoc(sum, IfOdd(v, m[i]), Apply(m, Half(v), i + 1));
      ShrNext(vector, i);
      if Odd(v) {
        sum := Plus(sum, a[p + i]);
      } else {
        PlusZero(sum);
      }
      v := Half(v);
      i := i + 1;
    }
    ApplyZero(m, i);
    PlusZero(sum);
  }

  lemma ShrNext(v: bv32, i: nat)
    ensures Shr(v, i + 1) == Half(Shr(v, i))
  {
  }

  // ---------- the table of powers ----------

  ghost predicate Powers(s: seq<bv32>, blocks: nat, poly: bv32) {
    32 * blocks <= |s| && forall n: nat :: n < blocks ==> MatrixOf(Block(s, n), Pow2(n), poly)
  }

  function Block(s: seq<bv32>, n: nat): seq<bv32> {
    if 32 * n + 32 <= |s| then s[32 * n..32 * n + 32] else []
  }

  /** gf32_matrix_square */
  method MatrixSquare(a: array<bv32>, square: nat, matrix: nat, ghost k: nat, ghost poly: bv32)
    requires matrix + 32 <= square && square + 32 <= a.Length
    requires MatrixOf(a[matrix..matrix + 32], k, poly)
    modifies a
    ensures MatrixOf(a[square..square + 32], 2 * k, poly)
    ensures a[..square] == old(a[..square])
  {
    hide Apply, TimesX, Shl;
    var n := 0;
    ghost var m := a[matrix..matrix + 32];
    while n < 32
      invariant n <= 32 && a[..square] == old(a[..square])
      invariant forall i: nat :: i < n ==> a[square + i] == TimesX(2 * k, Shl(1, i), poly)
    {
      assert a[matrix..matrix + 32] == m by { SubBlock(a[..square], m, old(a[..square]), matrix, a[matrix..matrix + 32]); }
      var w := MatrixTimes(a, matrix, a[matrix + n]);
      ApplyTimesX(m, k, m[n], poly);
      TimesXAdd(k, k, Shl(1, n), poly);
      assert a[matrix + n] == m[n];
      a[square + n] := w;
      n := n + 1;
    }
  }

  lemma SubBlock(s: seq<bv32>, m: seq<bv32>, t: seq<bv32>, p: nat, m': seq<bv32>)
    requires s == t && p + 32 <= |s| && m == t[p..p + 32] && m' == s[p..p + 32]
    ensures m == m'
  {
  }

  lemma FirstMatrix(s: seq<bv32>, poly: bv32)
    requires |s| >= 32 && s[0] == poly
    requires forall n: nat :: n < 31 ==> s[n + 1] == Shl(1, n)
    ensures MatrixOf(s[0..32], 1, poly)
  {
    hide Shl, Half, Odd, Plus;
    forall i: nat | i < 32 ensures s[0..32][i] == TimesX(1, Shl(1, i), poly) {
      assert TimesX(1, Shl(1, i), poly) == Mulx(TimesX(0, Shl(1, i), poly), poly);
      if i == 0 {
        ShlNone(1);
        OneIsOneBit();
        PlusZero(poly);
      } else {
        ShlOneStep(i - 1);
        PlusZero(Shl(1, i - 1));
        assert s[(i - 1) + 1] == Shl(1, i - 1);
      }
    }
  }

  /** gf32_compute_powers_generic; its last assert holds. */
  method ComputePowers(a: array<bv32>, poly: bv32)
    requires a.Length > 0 && a.Length % 32 == 0 && Unit(poly)
    modifies a
    ensures Powers(a[..], a.Length / 32, poly)
    ensures a[a.Length - 1] != 0
  {
    hide Shl, TimesX, Pow2, MatrixOf;
    a[0] := poly;
    var one, n := 1, 0;
    ShlNone(1);
    while n < 31
      invariant n <= 31 && a[0] == poly && one == Shl(1, n)
      invariant forall i: nat :: i < n ==> a[i + 1] == Shl(1, i)
    {
      a[n + 1] := one;
      ShlNext(1, n);
      one := Double(one);
      n := n + 1;
    }
    FirstMatrix(a[..], poly);
    Pow2Zero();
    n := 1;
    while n < a.Length / 32
      invariant 1 <= n <= a.Length / 32
      invariant Powers(a[..], n, poly)
    {
      ghost var s := a[..];
      assert Block(s, n - 1) == a[32 * (n - 1)..32 * (n - 1) + 32];
      MatrixSquare(a, 32 * n, 32 * (n - 1), Pow2(n - 1), poly);
      Pow2Next(n - 1);
      PowersExtend(s, a[..], n, poly);
      n := n + 1;
    }
    LastNonzero(a[..], n - 1, poly);
  }

  lemma ShlNext(v: bv32, i: nat)
    ensures Shl(v, i + 1) == Double(Shl(v, i))
  {
  }

  lemma PowersExtend(s: seq<bv32>, s': seq<bv32>, n: nat, poly: bv32)
    requires Powers(s, n, poly) && |s'| == |s| && 32 * n + 32 <= |s|
    requires s'[..32 * n] == s[..32 * n]
    requires MatrixOf(s'[32 * n..32 * n + 32], Pow2(n), poly)
    ensures Powers(s', n + 1, poly)
  {
    hide MatrixOf, Pow2;
    forall k: nat | k < n + 1 ensures MatrixOf(Block(s', k), Pow2(k), poly) {
      if k < n {
        assert Block(s', k) == s'[..32 * n][32 * k..32 * k + 32];
        assert Block(s, k) == s[..32 * n][32 * k..32 * k + 32];
      }
    }
  }

  lemma LastNonzero(s: seq<bv32>, n: nat, poly: bv32)
    requires Powers(s, n + 1, poly) && |s| == 32 * n + 32 && Unit(poly)
    ensures s[|s| - 1] != 0
  {
    hide Shl, TimesX, Pow2;
    var m := Block(s, n);
    assert MatrixOf(m, Pow2(n), poly);
    assert s[|s| - 1] == m[31];
    ShlOneEnd();
    TimesXZero(Pow2(n), poly);
    if m[31] == 0 { TimesXInjective(Pow2(n), Shl(1, 31), 0, poly); }
  }

  // ---------- combining ----------

  lemma BlockOf(s: seq<bv32>, n: nat, p: nat, poly: bv32)
    requires Powers(s, BLOCKS, poly) && n < BLOCKS && p == 32 * n
    ensures p + 32 <= |s| && MatrixOf(s[p..p + 32], Pow2(n), poly)
  {
    assert MatrixOf(Block(s, n), Pow2(n), poly);
  }

  /** gf32_combine_generic: multiply by x^8 once for every byte. */
  method CombineLoop(a: array<bv32>, crc1: bv32, length: nat, poly: bv32) returns (crc: bv32)
    requires Powers(a[..], BLOCKS, poly) && length < Pow2(63)
    ensures crc == TimesX(8 * length, crc1, poly)
  {
    hide TimesX, Pow2, Powers, Standing;
    TimesXNone(crc1, poly);
    StandingFirst(length);
    ghost var t, done := 0, 0;
    var p, len2 := 64, length;
    crc := crc1;
    // the first turn is made even when the length is 0
    crc, done := Turn(a, p, t, crc, crc1, len2, length, done, poly);
    p, t, len2 := p + 32, t + 1, len2 / 2;
    while len2 > 0
      invariant p == 32 * (t + 2) && crc == TimesX(8 * done, crc1, poly) && Standing(t, done, len2, length)
    {
      StandingBound(t, done, len2, length);
      crc, done := Turn(a, p, t, crc, crc1, len2, length, done, poly);
      p, t, len2 := p + 32, t + 1, len2 / 2;
    }
    StandingLast(t, done, length);
  }

  /** One turn: digit t of the length, for which the matrix of x^(8 * 2^t) is block t + 3. */
  method Turn(a: array<bv32>, p: nat, ghost t: nat, crc0: bv32, ghost crc1: bv32, len2: nat, ghost length: nat,
              ghost done0: nat, ghost poly: bv32)
    returns (crc: bv32, ghost done: nat)
    requires Powers(a[..], BLOCKS, poly) && p == 32 * (t + 2) && t < 63
    requires crc0 == TimesX(8 * done0, crc1, poly) && Standing(t, done0, len2, length)
    ensures crc == TimesX(8 * done, crc1, poly) && Standing(t + 1, done, len2 / 2, length)
  {
    hide TimesX, Pow2, Powers, Standing, Apply, MatrixOf;
    StandingNext(t, done0, len2, length);
    crc, done := crc0, done0;
    if len2 % 2 == 1 {
      BlockOf(a[..], t + 3, p + 32, poly);
      crc := MatrixTimes(a, p + 32, crc0);
      assert a[..][p + 32..p + 64] == a[p + 32..p + 64];
      ApplyTimesX(a[p + 32..p + 64], Pow2(t + 3), crc0, poly);
      done := done0 + Pow2(t);
      Pow2Eight(t);
      TimesXAdd(8 * Pow2(t), 8 * done0, crc1, poly);
    }
  }

  lemma Pow2Eight(t: nat)
    ensures Pow2(t + 3) == 8 * Pow2(t)
  {
    Pow2Next(t + 1);
    Pow2Next(t);
  }

  /** compute_crc32_combine_generic, with its table of powers made at the first use. */
  class Combiner {
    const powers: array<bv32>

    ghost predicate Valid()
      reads powers
    {
      powers.Length == N && (powers[N - 1] != 0 ==> Powers(powers[..], BLOCKS, POLY))
    }

    constructor ()
      ensures Valid() && fresh(powers)
    {
      powers := new bv32[N](_ => 0);
    }

    method Combine(crc1: bv32, crc2: bv32, len2: int) returns (crc: bv32)
      requires Valid() && len2 < Pow2(63)
      modifies powers
      ensures Valid()
      ensures crc == Combined(crc1, crc2, len2)
    {
      hide Powers, TimesX, Pow2;
      if len2 <= 0 { return crc1; }
      if powers[N - 1] == 0 {
        PolyIsUnit();
        ComputePowers(powers, POLY);
      }
      crc := CombineLoop(powers, crc1, len2, POLY);
      crc := Plus(crc, crc2);
    }
  }

  function Combined(crc1: bv32, crc2: bv32, len2: int): bv32 {
    if len2 <= 0 then crc1 else Plus(TimesX(8 * len2, crc1, POLY), crc2)
  }

  /** What is fed before multiplies by x^8 for every byte fed after. */
  lemma {:induction false} FeedShift(c: bv32, data: seq<bv8>)
    ensures Feed(c, data) == Plus(TimesX(8 * |data|, c, POLY), Feed(0, data))
    decreases |data|
  {
    hide Plus, TimesX;
    if data == [] {
      PlusZero(c);
      TimesXNone(c, POLY);
    } else {
      var d, b := data[..|data| - 1], data[|data| - 1] as bv32;
      FeedShift(c, d);
      var t := TimesX(8 * |d|, c, POLY);
      PlusAssoc(t, Feed(0, d), b);
      TimesXPlus(8, t, Plus(Feed(0, d), b), POLY);
      TimesXAdd(8, 8 * |d|, c, POLY);
    }
  }

  /** The CRC of a + b, from the CRC of a, the CRC of b and the length of b. */
  lemma CrcOfConcatenation(a: seq<bv8>, b: seq<bv8>)
    ensures Combined(Crc(a), Crc(b), |b|) == Crc(a + b)
  {
    hide Plus, TimesX, Feed;
    FeedConcat(ALL, a, b);
    if b == [] {
      assert a + b == a;
    } else {
      var k, fa, f0 := 8 * |b|, Feed(ALL, a), Feed(0, b);
      FeedShift(fa, b);
      FeedShift(ALL, b);
      TimesXPlus(k, fa, ALL, POLY);
      Rearrange(TimesX(k, fa, POLY), TimesX(k, ALL, POLY), f0, ALL);
    }
  }

  lemma Rearrange(p: bv32, q: bv32, f: bv32, all: bv32)
    ensures Plus(Plus(p, q), Plus(Plus(q, f), all)) == Plus(Plus(p, f), all)
  {
    hide Plus;
    PlusAssoc(q, f, all);
    PlusAssoc(Plus(p, q), q, Plus(f, all));
    PlusAssoc(p, q, q);
    PlusZero(q);
    PlusZero(p);
    PlusAssoc(p, f, all);
  }
}
