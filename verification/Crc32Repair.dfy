/**
 Repair of a single flipped bit (server/common/crc32.c, crc32_find_corrupted_bit,
 crc32_repair_bit, crc32_check_and_repair). The CRC difference of a flipped bit is a power of x;
 its exponent is found by baby steps and giant steps: a sorted table of x^0 .. x^(r-1), and
 repeated division by x^r through a bit matrix.
 */
module Crc32Repair {
  import opened Gf32
  import opened Crc32
  import opened Crc32Combine
  import opened Crc32Order

  const X_INVERSE: bv32 := 0xdb71_0641

  // ---------- gf32_mul and gf32_pow ----------

  method Gf32Mul(a: bv32, b0: bv32) returns (x: bv32)
    ensures x == Mul(a, b0, POLY)
  {
    hide Mulx, Plus, Half, Odd;
    var b, i := b0, 0;
    x := 0;
    while i < 32
      invariant i <= 32 && b == Shr(b0, i) && x == Horner(a, b0, i, POLY)
    {
      x := Mulx(x, POLY);
      PlusZero(x);
      if Odd(b) { x := Plus(x, a); }
      b := Half(b);
      i := i + 1;
    }
  }

  /** a^k, by repeated multiplication. */
  function Raise(a: bv32, k: nat): bv32 {
    if k == 0 then ONE else Mul(Raise(a, k - 1), a, POLY)
  }

  lemma MulAssoc(a: bv32, b: bv32, c: bv32)
    ensures Mul(Mul(a, b, POLY), c, POLY) == Mul(a, Mul(b, c, POLY), POLY)
  {
    hide Mul, Plus, Shl, TimesX;
    var f := (v: bv32) => Mul(Mul(v, b, POLY), c, POLY);
    var g := (v: bv32) => Mul(v, Mul(b, c, POLY), POLY);
    MulLinear(Mul(b, c, POLY), POLY);
    MulTwiceLinear(b, c);
    forall k: nat | k < 32 ensures f(Shl(1, k)) == g(Shl(1, k)) {
      ShlIsTimesX(k, POLY);
      MulTimesX(31 - k, ONE, b, POLY);
      MulOne(b, POLY);
      MulTimesX(31 - k, b, c, POLY);
      MulTimesX(31 - k, ONE, Mul(b, c, POLY), POLY);
      MulOne(Mul(b, c, POLY), POLY);
    }
    LinearExtension(f, g, a, 0);
    ShlNone(a);
  }

  lemma MulTwiceLinear(b: bv32, c: bv32)
    ensures Linear((v: bv32) => Mul(Mul(v, b, POLY), c, POLY))
  {
    hide Horner, Plus;
    forall v, w
      ensures Mul(Mul(Plus(v, w), b, POLY), c, POLY) == Plus(Mul(Mul(v, b, POLY), c, POLY), Mul(Mul(w, b, POLY), c, POLY))
    {
      HornerPlusLeft(v, w, b, 32, POLY);
      HornerPlusLeft(Mul(v, b, POLY), Mul(w, b, POLY), c, 32, POLY);
    }
  }

  lemma {:induction false} RaiseSquare(a: bv32, h: nat)
    ensures Raise(Mul(a, a, POLY), h) == Raise(a, 2 * h)
  {
    hide Mul;
    if h > 0 {
      RaiseSquare(a, h - 1);
      MulAssoc(Raise(a, 2 * h - 2), a, a);
    }
  }

  /** gf32_pow: squaring along the binary digits of k. */
  method Gf32Pow(a: bv32, k: nat) returns (x: bv32)
    ensures x == Raise(a, k)
    decreases k
  {
    hide Mul;
    if k == 0 { return ONE; }
    var sq := Gf32Mul(a, a);
    x := Gf32Pow(sq, k / 2);
    RaiseSquare(a, k / 2);
    if k % 2 == 1 { x := Gf32Mul(x, a); }
  }

  lemma InverseOfX()
    ensures Mulx(X_INVERSE, POLY) == ONE
  {
  }

  /** x^r undoes the r-th power of x^-1. */
  lemma {:induction false} RaiseInverse(r: nat)
    ensures TimesX(r, Raise(X_INVERSE, r), POLY) == ONE
  {
    hide Mul, Mulx;
    if r == 0 {
    } else {
      var p := Raise(X_INVERSE, r - 1);
      InverseOfX();
      MulComm(p, X_INVERSE, POLY);
      assert TimesX(1, X_INVERSE, POLY) == Mulx(TimesX(0, X_INVERSE, POLY), POLY);
      MulTimesX(1, X_INVERSE, p, POLY);
      MulOne(p, POLY);
      TimesXAdd(r - 1, 1, Mul(p, X_INVERSE, POLY), POLY);
      RaiseInverse(r - 1);
    }
  }

  // ---------- the table of baby steps ----------

  datatype Entry = Entry(p: bv32, i: nat)

  /** The unsigned number in the n lowest bits of a word. */
  function Value(a: bv32, n: nat): nat {
    if n == 0 then 0 else (if Odd(a) then 1 else 0) + 2 * Value(Half(a), n - 1)
  }

  predicate Lt(a: bv32, b: bv32) {
    Value(a, 32) < Value(b, 32)
  }

  lemma {:induction false} ShrHalf(a: bv32, n: nat)
    ensures Shr(Half(a), n) == Shr(a, n + 1)
  {
    hide Half;
    if n > 0 { ShrHalf(a, n - 1); }
  }

  lemma {:induction false} ValueInjective(a: bv32, b: bv32, n: nat)
    requires Shr(a, n) == Shr(b, n) && Value(a, n) == Value(b, n)
    ensures a == b
    decreases n
  {
    hide Half, Odd, Double, Plus;
    if n > 0 {
      ShrHalf(a, n - 1);
      ShrHalf(b, n - 1);
      ValueInjective(Half(a), Half(b), n - 1);
      LowBit(a);
      LowBit(b);
    }
  }

  lemma LtTotal(a: bv32, b: bv32)
    ensures Lt(a, b) || Lt(b, a) || a == b
  {
    hide Value, Shr;
    ShrAll(a);
    ShrAll(b);
    if Value(a, 32) == Value(b, 32) { ValueInjective(a, b, 32); }
  }

  /** cmp_fcb_table_entry */
  predicate Le(x: Entry, y: Entry) {
    Lt(x.p, y.p) || (x.p == y.p && x.i <= y.i)
  }

  lemma LeOrder(x: Entry, y: Entry, z: Entry)
    ensures Le(x, y) || Le(y, x)
    ensures Le(x, y) && Le(y, z) ==> Le(x, z)
  {
    hide Value;
    LtTotal(x.p, y.p);
  }

  ghost predicate Sorted(s: seq<Entry>) {
    forall a, b :: 0 <= a < b < |s| ==> Le(s[a], s[b])
  }

  function Insert(s: seq<Entry>, e: Entry): seq<Entry> {
    if s == [] || Le(e, s[0]) then [e] + s else [s[0]] + Insert(s[1..], e)
  }

  function SortEntries(s: seq<Entry>): seq<Entry> {
    if s == [] then [] else Insert(SortEntries(s[1..]), s[0])
  }

  lemma {:induction false} InsertElements(s: seq<Entry>, e: Entry)
    ensures multiset(Insert(s, e)) == multiset(s) + multiset{e}
  {
    hide Le;
    if s != [] && !Le(e, s[0]) {
      InsertElements(s[1..], e);
      assert s == [s[0]] + s[1..];
    }
  }

  lemma {:induction false} InsertSorts(s: seq<Entry>, e: Entry)
    requires Sorted(s)
    ensures Sorted(Insert(s, e))
  {
    hide Le;
    if s == [] {
    } else if Le(e, s[0]) {
      forall b | 0 <= b < |s| ensures Le(e, s[b]) { LeOrder(e, s[0], s[b]); }
      PrependSorted(e, s);
    } else {
      var t := Insert(s[1..], e);
      InsertSorts(s[1..], e);
      InsertElements(s[1..], e);
      LeOrder(s[0], e, e);
      forall b | 0 <= b < |t| ensures Le(s[0], t[b]) {
        assert t[b] in multiset(t);
      }
      PrependSorted(s[0], t);
    }
  }

  lemma PrependSorted(e: Entry, s: seq<Entry>)
    requires Sorted(s) && forall b :: 0 <= b < |s| ==> Le(e, s[b])
    ensures Sorted([e] + s)
  {
    hide Le;
    var t := [e] + s;
    forall a, b | 0 <= a < b < |t| ensures Le(t[a], t[b]) {
      assert t[b] == s[b - 1];
      if a > 0 { assert t[a] == s[a - 1]; }
    }
  }

  lemma {:induction false} SortSorts(s: seq<Entry>)
    ensures Sorted(SortEntries(s)) && multiset(SortEntries(s)) == multiset(s)
  {
    hide Le, Insert;
    if s != [] {
      SortSorts(s[1..]);
      InsertSorts(SortEntries(s[1..]), s[0]);
      InsertElements(SortEntries(s[1..]), s[0]);
      assert s == [s[0]] + s[1..];
    }
  }

  /** Stands in for qsort of the C library. */
  method Sort(t: array<Entry>)
    modifies t
    ensures Sorted(t[..]) && multiset(t[..]) == multiset(old(t[..]))
  {
    hide Le, SortEntries;
    var s := SortEntries(t[..]);
    SortSorts(t[..]);
    assert |s| == |multiset(s)| && t.Length == |multiset(t[..])|;
    for i := 0 to t.Length
      invariant t[..i] == s[..i]
    {
      t[i] := s[i];
    }
    assert t[..] == s;
  }

  /** The unsorted table. */
  ghost predicate BabySteps(s: seq<Entry>) {
    forall i :: 0 <= i < |s| ==> s[i] == Entry(Power(i), i)
  }

  /** The table in whatever order. */
  ghost predicate Steps(s: seq<Entry>, r: nat) {
    && (forall e :: e in s ==> e.i < r && e.p == Power(e.i))
    && (forall i: nat :: i < r ==> Entry(Power(i), i) in s)
  }

  lemma StepsOf(s: seq<Entry>, t: seq<Entry>)
    requires BabySteps(s) && multiset(s) == multiset(t)
    ensures Steps(t, |s|)
  {
    hide Power;
    forall e | e in t ensures e.i < |s| && e.p == Power(e.i) {
      assert e in multiset(s);
    }
    forall i: nat | i < |s| ensures Entry(Power(i), i) in t {
      assert s[i] in multiset(t);
    }
  }

  method MakeTable(r: nat) returns (t: array<Entry>)
    requires r >= 1
    ensures fresh(t) && t.Length == r && Sorted(t[..]) && Steps(t[..], r)
  {
    hide Mulx, Sorted;
    t := new Entry[r](_ => Entry(0, 0));
    t[0] := Entry(ONE, 0);
    var i := 1;
    while i < r
      invariant 1 <= i <= r && BabySteps(t[..i])
    {
      t[i] := Entry(Mulx(t[i - 1].p, POLY), i);
      i := i + 1;
    }
    ghost var s := t[..];
    assert s == t[..r];
    Sort(t);
    StepsOf(s, t[..]);
  }

  /** The binary search: everything up to a is at most x, everything after is larger. */
  method Search(t: array<Entry>, x: bv32) returns (a: int)
    requires Sorted(t[..])
    ensures -1 <= a < t.Length
    ensures forall i :: 0 <= i <= a ==> !Lt(x, t[..][i].p)
    ensures forall i :: a < i < t.Length ==> Lt(x, t[..][i].p)
  {
    hide Lt, Sorted;
    var b := t.Length;
    a := -1;
    while b - a > 1
      invariant -1 <= a < b <= t.Length
      invariant forall i :: 0 <= i <= a ==> !Lt(x, t[..][i].p)
      invariant forall i :: b <= i < t.Length ==> Lt(x, t[..][i].p)
    {
      var c := (a + b) / 2;
      AtMost(t[..], c, x);
      if !Lt(x, t[c].p) { a := c; } else { b := c; }
    }
  }

  lemma AtMost(s: seq<Entry>, c: nat, x: bv32)
    requires Sorted(s) && c < |s|
    ensures !Lt(x, s[c].p) ==> forall i :: 0 <= i <= c ==> !Lt(x, s[i].p)
    ensures Lt(x, s[c].p) ==> forall i :: c <= i < |s| ==> Lt(x, s[i].p)
  {
    hide Value;
    forall i | 0 <= i < |s|
      ensures i <= c && Lt(x, s[i].p) ==> Lt(x, s[c].p)
      ensures c <= i && Lt(x, s[c].p) ==> Lt(x, s[i].p)
    {
      assert i < c ==> Le(s[i], s[c]);
      assert c < i ==> Le(s[c], s[i]);
    }
  }

  // ---------- crc32_find_corrupted_bit ----------

  /** (int) (sqrt (n) + 0.5): n rounded to a square root, exactly as in real arithmetic. */
  function RoundedSqrt(n: nat): (r: nat)
    ensures n <= r * r + r && (r > 0 ==> r * r - r < n)
  {
    if n == 0 then 0
    else
      var s := RoundedSqrt(n - 1);
      if n <= s * s + s then s else s + 1
  }

  lemma RootBounds(n: nat)
    requires n >= 2
    ensures 1 <= RoundedSqrt(n) <= n
  {
    Square(RoundedSqrt(n));
  }

  lemma Square(r: nat)
    ensures r >= 2 ==> r * r - r >= r
  {
    assert r * r - r == r * (r - 1);
  }

  /** The columns of multiplication by q; with q = x^-r, of division by x^r. */
  ghost predicate Division(m: seq<bv32>, q: bv32) {
    |m| == 32 && forall i: nat :: i < 32 ==> m[i] == TimesX(31 - i, q, POLY)
  }

  method MakeDivision(q: bv32) returns (a: array<bv32>)
    ensures fresh(a) && a.Length == 32
    ensures Division(a[0..32], q)
  {
    hide Mulx;
    a := new bv32[32](_ => 0);
    a[31] := q;
    var i := 30;
    while i >= 0
      invariant -1 <= i <= 30
      invariant forall k: nat :: i < k < 32 ==> a[k] == TimesX(31 - k, q, POLY)
    {
      a[i] := Mulx(a[i + 1], POLY);
      i := i - 1;
    }
  }

  lemma DivisionUndone(m: seq<bv32>, r: nat, q: bv32, x: bv32)
    requires Division(m, q)
    requires TimesX(r, q, POLY) == ONE
    ensures TimesX(r, Apply(m, x, 0), POLY) == x
  {
    hide TimesX, Mul, Apply, Shl, Plus;
    var f := (v: bv32) => Mul(q, v, POLY);
    MulLinear(q, POLY);
    forall k: nat | k < 32 ensures m[k] == f(Shl(1, k)) { MulOneBit(q, k, POLY); }
    ApplyIsLinear(m, f, x, 0);
    ShlNone(x);
    MulTimesX(r, q, x, POLY);
    MulOne(x, POLY);
  }

  /** No exponent below `tried` gives d. */
  ghost predicate NoneBelow(tried: nat, d: bv32) {
    forall k: nat :: k < tried ==> Power(k) != d
  }

  /** Whether x, which is d divided by x^done, is among the baby steps. */
  lemma Lookup(s: seq<Entry>, r: nat, a: int, x: bv32, done: nat, d: bv32)
    requires Sorted(s) && Steps(s, r) && |s| == r && -1 <= a < r
    requires forall i :: 0 <= i <= a ==> !Lt(x, s[i].p)
    requires forall i :: a < i < r ==> Lt(x, s[i].p)
    requires TimesX(done, x, POLY) == d && NoneBelow(done, d)
    ensures a >= 0 && s[a].p == x ==> s[a].i < r && Power(done + s[a].i) == d
    ensures !(a >= 0 && s[a].p == x) ==> NoneBelow(done + r, d)
  {
    hide TimesX, Value, Power;
    if a >= 0 && s[a].p == x {
      assert s[a] in s;
      PowerSum(done, s[a].i);
    } else {
      forall i | 0 <= i < r ensures s[i].p != x { if i < a { LtTotal(s[a].p, x); } }
      forall k: nat | k < r ensures Power(k) != x {
        assert Entry(Power(k), k) in s;
      }
      forall k: nat | done <= k < done + r ensures Power(k) != d {
        PowerSum(done, k - done);
        StillDiffers(done, Power(k - done), x);
      }
    }
  }

  lemma StillDiffers(k: nat, a: bv32, b: bv32)
    requires a != b
    ensures TimesX(k, a, POLY) != TimesX(k, b, POLY)
  {
    PolyIsUnit();
    if TimesX(k, a, POLY) == TimesX(k, b, POLY) { TimesXInjective(k, a, b, POLY); }
  }

  /** The bits of a message of `size` bytes and of its CRC. */
  function Bits(size: nat): nat {
    8 * (size + 4)
  }

  method FindCorruptedBit(size: nat, d: bv32) returns (res: int)
    ensures res >= -1
    ensures res >= 0 ==> Power(res) == d
    ensures res == -1 ==> NoneBelow(Bits(size), d)
    ensures Bits(size) <= ORDER ==> forall k: nat :: k < Bits(size) && Power(k) == d ==> res == k
  {
    hide *;
    var n := Root(size);
    DistinctUpToOrder(n);
    var r := RoundedSqrt(n);
    var t := MakeTable(r);
    assert Mulx(X_INVERSE, POLY) == ONE by { InverseOfX(); }
    var q := Gf32Pow(X_INVERSE, r);
    RaiseInverse(r);
    var a := MakeDivision(q);
    var x, maxJ, j := d, n / r, 0;
    res := -1;
    FirstStep(d);
    while j <= maxJ
      invariant 0 <= j <= maxJ + 1 && res == -1
      invariant Sorted(t[..]) && Steps(t[..], r) && Division(a[0..32], q)
      invariant TimesX(r * j, x, POLY) == d && NoneBelow(r * j, d)
    {
      var c := Search(t, x);
      Lookup(t[..], r, c, x, r * j, d);
      if c >= 0 && t[c].p == x {
        res := t[c].i + r * j;
        FoundIsIt(res, r * j, r, n, d);
        return;
      }
      var y := MatrixTimes(a, 0, x);
      DivisionUndone(a[0..32], r, q, x);
      NextStep(r, j, y);
      x := y;
      j := j + 1;
    }
    AllTried(n, r, maxJ, d);
  }

  method Root(size: nat) returns (n: nat)
    ensures n == Bits(size) && 1 <= RoundedSqrt(n) <= n
  {
    n := 8 * (size + 4);
    RootBounds(n);
  }

  lemma FirstStep(d: bv32)
    ensures TimesX(0, d, POLY) == d && NoneBelow(0, d)
  {
  }

  lemma NextStep(r: nat, j: nat, y: bv32)
    ensures TimesX(r * j, TimesX(r, y, POLY), POLY) == TimesX(r * (j + 1), y, POLY)
    ensures r * j + r == r * (j + 1)
  {
    hide TimesX;
    assert r * j + r == r * (j + 1);
    TimesXAdd(r * j, r, y, POLY);
  }

  lemma AllTried(n: nat, r: nat, maxJ: nat, d: bv32)
    requires r >= 1 && maxJ == n / r && NoneBelow(r * (maxJ + 1), d)
    ensures NoneBelow(n, d)
  {
    assert n == r * maxJ + n % r;
    assert r * (maxJ + 1) == r * maxJ + r;
  }

  /** With distinct powers, the first block with a hit holds the only exponent below n. */
  lemma FoundIsIt(res: nat, done: nat, r: nat, n: nat, d: bv32)
    requires Power(res) == d && NoneBelow(done, d) && done <= res < done + r && r <= n
    ensures Distinct(n) ==> forall k: nat :: k < n && Power(k) == d ==> res == k
  {
    hide Power;
    if Distinct(n) {
      forall k: nat | k < n && Power(k) == d ensures res == k {
        if res < k {
        } else if k < res {
          DistinctFromOne(n, res - k);
          SamePower(k, res - k);
        }
      }
    }
  }

  lemma DistinctFromOne(n: nat, m: nat)
    requires Distinct(n) && 0 < m < n
    ensures Power(0) != Power(m)
  {
  }

  // ---------- flipping a bit ----------

  function Mask(j: nat): bv8
    requires j < 8
  {
    1 << j
  }

  function Flip(s: seq<bv8>, i: nat, j: nat): seq<bv8>
    requires i < |s| && j < 8
  {
    s[i := s[i] ^ Mask(j)]
  }

  lemma MaskIsShl(j: nat)
    requires j < 8
    ensures Mask(j) as bv32 == Shl(1, j)
  {
    if j == 0 { assert Shl(1, 0) == 1; }
    else if j == 1 { assert Shl(1, 1) == 2; }
    else if j == 2 { assert Shl(1, 2) == 4; }
    else if j == 3 { assert Shl(1, 3) == 8; }
    else if j == 4 { assert Shl(1, 4) == 16; }
    else if j == 5 { assert Shl(1, 5) == 32; }
    else if j == 6 { assert Shl(1, 6) == 64; }
    else { ShlSeven(); }
  }

  lemma WidenXor(b: bv8, m: bv8)
    ensures (b ^ m) as bv32 == Plus(b as bv32, m as bv32)
  {
  }

  lemma FlipTwice(s: seq<bv8>, i: nat, j: nat)
    requires i < |s| && j < 8
    ensures Flip(Flip(s, i, j), i, j) == s
  {
    XorTwice(s[i], Mask(j));
  }

  lemma XorTwice(b: bv8, m: bv8)
    ensures (b ^ m) ^ m == b
  {
  }

  /** What is added to the CRC register before the bytes of data is multiplied by x^8 for each of them. */
  lemma FeedPlus(c: bv32, e: bv32, data: seq<bv8>)
    ensures Feed(Plus(c, e), data) == Plus(Feed(c, data), TimesX(8 * |data|, e, POLY))
  {
    hide Plus, TimesX, Feed;
    var k := 8 * |data|;
    FeedShift(Plus(c, e), data);
    FeedShift(c, data);
    TimesXPlus(k, c, e, POLY);
    PlusAssoc(TimesX(k, c, POLY), TimesX(k, e, POLY), Feed(0, data));
    PlusComm(TimesX(k, e, POLY), Feed(0, data));
    PlusAssoc(TimesX(k, c, POLY), Feed(0, data), TimesX(k, e, POLY));
  }

  lemma FeedByteFlip(c: bv32, b: bv8, j: nat)
    requires j < 8
    ensures FeedByte(c, b ^ Mask(j)) == Plus(FeedByte(c, b), Power(39 - j))
  {
    hide Plus, TimesX, Shl, Mask;
    WidenXor(b, Mask(j));
    MaskIsShl(j);
    ShlIsTimesX(j, POLY);
    PlusAssoc(c, b as bv32, Mask(j) as bv32);
    TimesXPlus(8, Plus(c, b as bv32), Mask(j) as bv32, POLY);
    PowerSum(8, 31 - j);
  }

  /** The exponent of bit j of byte i in a message of l bytes. */
  function Exponent(l: nat, i: nat, j: nat): (k: nat)
    requires i < l && j < 8
    ensures 32 <= k < Bits(l)
  {
    8 * (l - i) + 31 - j
  }

  /** Flipping bit j of byte i adds a power of x to the CRC. */
  lemma FlipChangesCrc(s: seq<bv8>, i: nat, j: nat)
    requires i < |s| && j < 8
    ensures Plus(Crc(Flip(s, i, j)), Crc(s)) == Power(Exponent(|s|, i, j))
  {
    hide Plus, TimesX, Feed, FeedByte, Mask, Flip, Power;
    FlipSplit(s, i, j);
    FlipInParts(s[..i], s[i], s[i + 1..], j);
  }

  lemma FlipSplit(s: seq<bv8>, i: nat, j: nat)
    requires i < |s| && j < 8
    ensures s == s[..i] + [s[i]] + s[i + 1..]
    ensures Flip(s, i, j) == s[..i] + [s[i] ^ Mask(j)] + s[i + 1..]
  {
  }

  lemma FlipInParts(a: seq<bv8>, b: bv8, c: seq<bv8>, j: nat)
    requires j < 8
    ensures Plus(Crc(a + [b ^ Mask(j)] + c), Crc(a + [b] + c)) == Power(8 * |c| + 39 - j)
  {
    hide Plus, TimesX, Feed, FeedByte, Mask;
    var fa, e := Feed(ALL, a), Power(39 - j);
    FeedThree(a, b, c);
    FeedThree(a, b ^ Mask(j), c);
    FeedByteFlip(fa, b, j);
    FeedPlus(FeedByte(fa, b), e, c);
    PowerSum(8 * |c|, 39 - j);
    Rearrange2(Feed(FeedByte(fa, b), c), Power(8 * |c| + 39 - j), ALL);
  }

  lemma FeedThree(a: seq<bv8>, b: bv8, c: seq<bv8>)
    ensures Feed(ALL, a + [b] + c) == Feed(FeedByte(Feed(ALL, a), b), c)
  {
    hide FeedByte;
    FeedConcat(ALL, a + [b], c);
    assert (a + [b])[..|a|] == a;
  }

  lemma Rearrange2(f: bv32, e: bv32, all: bv32)
    ensures Plus(Plus(Plus(f, e), all), Plus(f, all)) == e
  {
    hide Plus;
    PlusSwap(Plus(f, e), all, f, all);
    PlusZero(all);
    PlusZero(Plus(Plus(f, e), f));
    PlusComm(f, e);
    PlusAssoc(e, f, f);
    PlusZero(f);
    PlusZero(e);
  }

  // ---------- crc32_repair_bit ----------

  /** The byte that exponent k stands for, and the bit in it. */
  function ByteOf(l: nat, k: nat): int { l + 3 - k / 8 }
  function BitOf(k: nat): (j: nat) ensures j < 8 { 7 - k % 8 }

  lemma ExponentOf(l: nat, k: nat)
    requires 0 <= ByteOf(l, k) < l
    ensures Exponent(l, ByteOf(l, k), BitOf(k)) == k
  {
  }

  lemma PlaceOf(l: nat, i: nat, j: nat)
    requires i < l && j < 8
    ensures ByteOf(l, Exponent(l, i, j)) == i && BitOf(Exponent(l, i, j)) == j
  {
  }

  lemma Place(l: nat, k: nat, i: int, bit: nat)
    requires bit < 8 && 8 * i - bit == 8 * (l + 3) - k
    ensures i == ByteOf(l, k) && 7 - bit == BitOf(k)
  {
  }

  method RepairBit(input: array<bv8>, k: int) returns (r: int)
    modifies input
    ensures r == -1 <==> k < 0
    ensures r == -2 <==> k >= 0 && ByteOf(input.Length, k) < 0
    ensures r == -3 <==> k >= 0 && ByteOf(input.Length, k) >= input.Length
    ensures r == 0 <==> k >= 0 && 0 <= ByteOf(input.Length, k) < input.Length
    ensures -3 <= r <= 0
    ensures input[..] == if r == 0 then Flip(old(input[..]), ByteOf(input.Length, k), BitOf(k)) else old(input[..])
  {
    hide ByteOf, BitOf, Mask;
    var l := input.Length;
    if k < 0 { return -1; }
    var idx, bit := k / 32, k % 32;
    var i := (l - 1) - (idx - 1) * 4;
    while bit >= 8
      invariant 0 <= bit < 32 && 8 * i - bit == 8 * (l + 3) - k
    {
      i := i - 1;
      bit := bit - 8;
    }
    Place(l, k, i, bit);
    if i < 0 { return -2; }
    if i >= l { return -3; }
    var j := 7 - bit;
    input[i] := input[i] ^ Mask(j);
    r := 0;
  }

  // ---------- crc32_check_and_repair ----------

  /**
   What a call on message s with stored CRC c may return (r), with message s' and CRC c' after it.
   failed: the assert that ends an unrepairable call with force_exit set has fired.
   */
  ghost predicate Outcome(s: seq<bv8>, c: bv32, r: int, s': seq<bv8>, c': bv32, failed: bool) {
    && (r == 0 || r == 1 || r == 2 || r == -1)
    && (r == 0 <==> Crc(s) == c)
    && (r == 0 ==> s' == s && c' == c)
    && (r == 1 ==> c' == c && Crc(s') == c && exists i: nat, j: nat :: i < |s| && j < 8 && s' == Flip(s, i, j))
    && (r == 2 ==> s' == s && c' == Crc(s) && OneBit(Plus(c, Crc(s))))
    && (r == -1 ==> s' == s && !OneBit(Plus(c, Crc(s))) && c' == if failed then c else Crc(s))
    && (failed ==> r == -1)
    && (Bits(|s|) <= ORDER ==>
          forall i: nat, j: nat :: i < |s| && j < 8 && Crc(Flip(s, i, j)) == c ==> r == 1 && s' == Flip(s, i, j))
    && (Bits(|s|) <= ORDER ==>
          forall b: nat :: b < 32 && c == Plus(Crc(s), Shl(1, b)) ==> r == 2)
  }

  /** The assert after a repair holds. */
  lemma RepairWorks(s: seq<bv8>, c: bv32, k: nat)
    requires 0 <= ByteOf(|s|, k) < |s| && Power(k) == Plus(Crc(s), c)
    ensures Crc(Flip(s, ByteOf(|s|, k), BitOf(k))) == c
  {
    hide Plus, TimesX, Feed, Crc, Power, Flip;
    ExponentOf(|s|, k);
    var t := Crc(Flip(s, ByteOf(|s|, k), BitOf(k)));
    FlipChangesCrc(s, ByteOf(|s|, k), BitOf(k));
    Solve(t, Crc(s), c);
  }

  lemma Solve(t: bv32, a: bv32, c: bv32)
    requires Plus(t, a) == Plus(a, c)
    ensures t == c
  {
    hide Plus;
    PlusAssoc(t, a, a);
    PlusZero(a);
    PlusZero(t);
    PlusComm(a, c);
    PlusAssoc(c, a, a);
    PlusZero(c);
  }

  lemma SameCrc(a: bv32, c: bv32)
    ensures Plus(a, c) == 0 <==> a == c
  {
    if Plus(a, c) == 0 {
      PlusZero(c);
      Solve2(a, c);
    } else {
      PlusZero(a);
    }
  }

  lemma Solve2(a: bv32, c: bv32)
    requires Plus(a, c) == 0
    ensures a == c
  {
    hide Plus;
    PlusAssoc(a, c, c);
    PlusZero(c);
    PlusZero(a);
  }

  /** All that depends on the powers being distinct, for a search that answered k. */
  lemma OnlyAnswer(s: seq<bv8>, c: bv32, k: int)
    requires k >= -1
    requires k == -1 ==> NoneBelow(Bits(|s|), Plus(Crc(s), c))
    requires forall k': nat :: k' < Bits(|s|) && Power(k') == Plus(Crc(s), c) ==> k == k'
    ensures forall i: nat, j: nat :: i < |s| && j < 8 && Crc(Flip(s, i, j)) == c ==>
      k >= 0 && ByteOf(|s|, k) == i && BitOf(k) == j
    ensures forall b: nat :: b < 32 && c == Plus(Crc(s), Shl(1, b)) ==> k == 31 - b && OneBit(Plus(Crc(s), c))
  {
    hide Plus, TimesX, Feed, Crc, Power, Flip, OneBit, Shl;
    forall i: nat, j: nat | i < |s| && j < 8 && Crc(Flip(s, i, j)) == c
      ensures k >= 0 && ByteOf(|s|, k) == i && BitOf(k) == j
    {
      FlipChangesCrc(s, i, j);
      PlusComm(Crc(s), c);
      PlaceOf(|s|, i, j);
    }
    forall b: nat | b < 32 && c == Plus(Crc(s), Shl(1, b)) ensures k == 31 - b && OneBit(Plus(Crc(s), c)) {
      PlusAssoc(Crc(s), Crc(s), Shl(1, b));
      PlusZero(Crc(s));
      PlusZero(Shl(1, b));
      ShlOneBit(b);
      PowerOfBit(b);
    }
  }

  lemma PowerOfBit(b: nat)
    requires b < 32
    ensures Power(31 - b) == Shl(1, b)
  {
    ShlIsTimesX(b, POLY);
  }

  /** crc32_check_and_repair; its assert after a repair is never false. */
  method CheckAndRepair(input: array<bv8>, stored: bv32, forceExit: bool) returns (r: int, crc: bv32, failed: bool)
    modifies input
    ensures Outcome(old(input[..]), stored, r, input[..], crc, failed)
    ensures failed <==> forceExit && r == -1
  {
    hide Plus, TimesX, Feed, Crc, Power, Flip, NoneBelow, OneBit, Shl, ByteOf, BitOf;
    ghost var s := input[..];
    crc, failed := stored, false;
    var computed := Crc32Partial(input[..], ALL);
    computed := Plus(computed, ALL);
    assert computed == Crc(s) by { CrcIs(s); }
    var diff := Plus(computed, stored);
    SameCrc(computed, stored);
    PlusComm(computed, stored);
    if diff == 0 {
      r := 0;
      NoFlipMatches(s, stored);
      return;
    }
    var k := FindCorruptedBit(input.Length, diff);
    if Bits(|s|) <= ORDER { OnlyAnswer(s, stored, k); }
    r := RepairBit(input, k);
    LowExponents(|s|);
    if r == 0 {
      RepairWorks(s, stored, k);
      ghost var i: nat := ByteOf(|s|, k);
      assert input[..] == Flip(s, i, BitOf(k));
      assert Crc(input[..]) == stored;
      r := 1;
      return;
    }
    if OneBit(diff) {
      crc := computed;
      r := 2;
      return;
    }
    r := -1;
    if forceExit {
      failed := true;
      return;
    }
    crc := computed;
  }

  lemma CrcIs(s: seq<bv8>)
    ensures Plus(Feed(ALL, s), ALL) == Crc(s)
  {
  }

  /** Exponents below 32 stand for bits of the CRC itself. */
  lemma LowExponents(l: nat)
    ensures forall k: nat :: k < 32 ==> ByteOf(l, k) >= l
  {
  }

  /** A flipped bit, in the message or in the CRC, never goes unnoticed. */
  lemma NoFlipMatches(s: seq<bv8>, c: bv32)
    requires Crc(s) == c
    ensures forall i: nat, j: nat :: i < |s| && j < 8 ==> Crc(Flip(s, i, j)) != c
    ensures forall b: nat :: b < 32 ==> c != Plus(Crc(s), Shl(1, b))
  {
    hide Plus, TimesX, Feed, Crc, Power, Flip, Shl;
    forall i: nat, j: nat | i < |s| && j < 8 ensures Crc(Flip(s, i, j)) != c {
      FlipChangesCrc(s, i, j);
      PowerNonzero(Exponent(|s|, i, j));
      PlusZero(c);
    }
    forall b: nat | b < 32 ensures c != Plus(Crc(s), Shl(1, b)) {
      PowerOfBit(b);
      PowerNonzero(31 - b);
      PlusZero(c);
      PlusAssoc(c, c, Shl(1, b));
      PlusZero(Shl(1, b));
    }
  }

  lemma PowerNonzero(k: nat)
    ensures Power(k) != 0
  {
    hide TimesX;
    PolyIsUnit();
    TimesXZero(k, POLY);
    if Power(k) == 0 { TimesXInjective(k, ONE, 0, POLY); }
  }

  /** A message with one flipped bit, next to its true CRC, is restored exactly. */
  lemma FlippedBitIsRestored(s: seq<bv8>, i: nat, j: nat, r: int, s': seq<bv8>, c': bv32, failed: bool)
    requires i < |s| && j < 8 && Bits(|s|) <= ORDER
    requires Outcome(Flip(s, i, j), Crc(s), r, s', c', failed)
    ensures r == 1 && s' == s && c' == Crc(s)
  {
    hide Crc;
    FlipTwice(s, i, j);
  }

  /** A true message next to its CRC with one flipped bit gets its CRC back. */
  lemma FlippedCrcIsCorrected(s: seq<bv8>, b: nat, r: int, s': seq<bv8>, c': bv32, failed: bool)
    requires b < 32 && Bits(|s|) <= ORDER
    requires Outcome(s, Plus(Crc(s), Shl(1, b)), r, s', c', failed)
    ensures r == 2 && s' == s && c' == Crc(s)
  {
    hide Crc, Shl, Plus;
  }
}
