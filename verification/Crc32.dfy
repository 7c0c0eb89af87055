/**
 CRC-32 of a byte string (server/common/crc32.c): the table-driven, four-bytes-at-a-time loop
 against the bit-at-a-time definition.
 */
module Crc32 {
  import opened Gf32

  const POLY: bv32 := 0xedb8_8320  // CRC32_REFLECTED_POLY

  // ---------- the definition ----------

  /** One byte, one bit at a time: add it in, then multiply by x eight times. */
  function FeedByte(crc: bv32, b: bv8): bv32 {
    TimesX(8, Plus(crc, b as bv32), POLY)
  }

  function Feed(crc: bv32, data: seq<bv8>): bv32 {
    if data == [] then crc else FeedByte(Feed(crc, data[..|data| - 1]), data[|data| - 1])
  }

  /** compute_crc32 */
  function Crc(data: seq<bv8>): bv32 {
    Plus(Feed(ALL, data), ALL)
  }

  lemma {:induction false} FeedConcat(crc: bv32, a: seq<bv8>, b: seq<bv8>)
    ensures Feed(crc, a + b) == Feed(Feed(crc, a), b)
    decreases |b|
  {
    hide FeedByte;
    if b == [] {
      assert a + b == a;
    } else {
      assert (a + b)[..|a + b| - 1] == a + b[..|b| - 1];
      FeedConcat(crc, a, b[..|b| - 1]);
    }
  }

  lemma PolyIsUnit()
    ensures Unit(POLY)
  {
  }

  // ---------- words as four bytes ----------

  /** b0 + 2^8 * rest */
  function Join(b: bv32, rest: bv32): bv32 {
    Plus(b, Shift8(rest))
  }

  function Byte0(c: bv32): bv32 { c & 0xff }
  function Byte1(c: bv32): bv32 { (c & 0xff00) >> 8 }
  function Byte2(c: bv32): bv32 { (c & 0xff_0000) >> 16 }
  function Byte3(c: bv32): bv32 { c >> 24 }
  function Drop8(c: bv32): bv32 { c >> 8 }

  /** The top byte is clear. */
  predicate Room(v: bv32) {
    v & 0xff00_0000 == 0
  }

  lemma RoomUp(v: bv32)
    requires Room(v)
    ensures !Top(v) && !Top(Double(v)) && !Top(Double(Double(v))) && !Top(Double(Double(Double(v))))
    ensures !Top(Double(Double(Double(Double(v))))) && !Top(Double(Double(Double(Double(Double(v))))))
    ensures !Top(Double(Double(Double(Double(Double(Double(v)))))))
    ensures !Top(Double(Double(Double(Double(Double(Double(Double(v))))))))
  {
  }

  lemma TimesXOfDouble(k: nat, v: bv32)
    requires !Top(v)
    ensures TimesX(k + 1, Double(v), POLY) == TimesX(k, v, POLY)
  {
    hide Half, Plus, Double, Odd, Top;
    HalfOfDouble(v);
    DoubleEven(v);
    PlusZero(v);
    assert TimesX(1, Double(v), POLY) == Mulx(TimesX(0, Double(v), POLY), POLY);
    TimesXAdd(k, 1, Double(v), POLY);
  }

  /** With room above, eight shifts up and eight multiplications by x cancel. */
  lemma TimesXOfShift8(k: nat, v: bv32)
    requires Room(v)
    ensures TimesX(k + 8, Shift8(v), POLY) == TimesX(k, v, POLY)
  {
    hide Room, TimesX, Double, Shift8, Top;
    RoomUp(v);
    Double8(v);
    var v2 := Double(Double(v));
    var v4 := Double(Double(v2));
    var v6 := Double(Double(v4));
    TimesXOfDouble(k + 7, Double(v6));
    TimesXOfDouble(k + 6, v6);
    TimesXOfDouble(k + 5, Double(v4));
    TimesXOfDouble(k + 4, v4);
    TimesXOfDouble(k + 3, Double(v2));
    TimesXOfDouble(k + 2, v2);
    TimesXOfDouble(k + 1, Double(v));
    TimesXOfDouble(k, v);
  }

  lemma TimesXOfJoin(k: nat, b: bv32, rest: bv32)
    requires Room(rest)
    ensures TimesX(k + 8, Join(b, rest), POLY) == Plus(TimesX(k + 8, b, POLY), TimesX(k, rest, POLY))
  {
    hide Room, TimesX, Shift8, Plus;
    TimesXPlus(k + 8, b, Shift8(rest), POLY);
    TimesXOfShift8(k, rest);
  }

  lemma SplitBytes(c: bv32)
    ensures c == Join(Byte0(c), Join(Byte1(c), Join(Byte2(c), Byte3(c))))
    ensures c == Join(Byte0(c), Drop8(c))
    ensures Room(Byte3(c)) && Room(Join(Byte2(c), Byte3(c))) && Room(Join(Byte1(c), Join(Byte2(c), Byte3(c))))
    ensures Room(Drop8(c))
  {
  }

  // ---------- the tables ----------

  // crc32_table, crc32_table2, crc32_table1 and crc32_table0, by their recurrence.
  function Table(i: bv32): bv32 { TimesX(8, i, POLY) }
  function Table2(i: bv32): bv32 { TimesX(16, i, POLY) }
  function Table1(i: bv32): bv32 { TimesX(24, i, POLY) }
  function Table0(i: bv32): bv32 { TimesX(32, i, POLY) }

  /** Four look-ups multiply a word by x^32. */
  lemma FourLookups(c: bv32)
    ensures Plus(Plus(Plus(Table0(Byte0(c)), Table1(Byte1(c))), Table2(Byte2(c))), Table(Byte3(c))) == TimesX(32, c, POLY)
  {
    hide Room, TimesX, Plus, Join, Byte0, Byte1, Byte2, Byte3;
    SplitBytes(c);
    var c2 := Join(Byte2(c), Byte3(c));
    var c1 := Join(Byte1(c), c2);
    TimesXOfJoin(24, Byte0(c), c1);
    TimesXOfJoin(16, Byte1(c), c2);
    TimesXOfJoin(8, Byte2(c), Byte3(c));
    PlusAssoc(Table0(Byte0(c)), Table1(Byte1(c)), Table2(Byte2(c)));
    PlusAssoc(Table0(Byte0(c)), Plus(Table1(Byte1(c)), Table2(Byte2(c))), Table(Byte3(c)));
    PlusAssoc(Table1(Byte1(c)), Table2(Byte2(c)), Table(Byte3(c)));
  }

  /** One look-up multiplies a word by x^8. */
  lemma OneLookup(c: bv32)
    ensures Plus(Table(Byte0(c)), Drop8(c)) == TimesX(8, c, POLY)
  {
    hide Room, TimesX, Plus, Join, Byte0, Drop8;
    SplitBytes(c);
    TimesXOfJoin(0, Byte0(c), Drop8(c));
    TimesXNone(Drop8(c), POLY);
  }

  lemma Drop8OfPlus(crc: bv32, b: bv8)
    ensures Drop8(Plus(crc, b as bv32)) == Drop8(crc)
  {
  }

  // ---------- little-endian words of the buffer ----------

  /** *(int *) (data + p) */
  function Word(data: seq<bv8>, p: nat): bv32
    requires p + 4 <= |data|
  {
    Join(data[p] as bv32, Join(data[p + 1] as bv32, Join(data[p + 2] as bv32, data[p + 3] as bv32)))
  }

  lemma WordRoom(b1: bv8, b2: bv8, b3: bv8)
    ensures Room(b3 as bv32) && Room(Join(b2 as bv32, b3 as bv32))
    ensures Room(Join(b1 as bv32, Join(b2 as bv32, b3 as bv32)))
  {
  }

  /** (crc + b) + 2^8 rest, eight places on, is the byte fed and the rest still to come. */
  lemma FeedJoin(k: nat, crc: bv32, b: bv8, rest: bv32)
    requires Room(rest)
    ensures TimesX(k + 8, Plus(crc, Join(b as bv32, rest)), POLY) == TimesX(k, Plus(FeedByte(crc, b), rest), POLY)
  {
    hide Room, TimesX, Plus, Shift8;
    PlusAssoc(crc, b as bv32, Shift8(rest));
    TimesXOfJoin(k, Plus(crc, b as bv32), rest);
    TimesXAdd(k, 8, Plus(crc, b as bv32), POLY);
    TimesXPlus(k, FeedByte(crc, b), rest, POLY);
  }

  /** Adding in a word and multiplying by x^32 feeds its four bytes. */
  lemma FeedWord(crc: bv32, data: seq<bv8>, p: nat)
    requires p + 4 <= |data|
    ensures TimesX(32, Plus(Feed(crc, data[..p]), Word(data, p)), POLY) == Feed(crc, data[..p + 4])
  {
    hide Room, TimesX, Plus, Join, FeedByte;
    var b0, b1, b2, b3 := data[p], data[p + 1], data[p + 2], data[p + 3];
    var s0 := Feed(crc, data[..p]);
    var s1 := FeedByte(s0, b0);
    var s2 := FeedByte(s1, b1);
    var s3 := FeedByte(s2, b2);
    WordRoom(b1, b2, b3);
    FeedJoin(24, s0, b0, Join(b1 as bv32, Join(b2 as bv32, b3 as bv32)));
    FeedJoin(16, s1, b1, Join(b2 as bv32, b3 as bv32));
    FeedJoin(8, s2, b2, b3 as bv32);
    LastByte(s3, b3);
    FeedNext(crc, data, p);
    FeedNext(crc, data, p + 1);
    FeedNext(crc, data, p + 2);
    FeedNext(crc, data, p + 3);
  }

  lemma LastByte(crc: bv32, b: bv8)
    ensures TimesX(8, Plus(crc, b as bv32), POLY) == FeedByte(crc, b)
  {
  }

  lemma FeedNext(crc: bv32, data: seq<bv8>, p: nat)
    requires p < |data|
    ensures Feed(crc, data[..p + 1]) == FeedByte(Feed(crc, data[..p]), data[p])
  {
    hide FeedByte;
    assert data[..p + 1][..p] == data[..p];
  }

  lemma FeedNone(crc: bv32, data: seq<bv8>)
    ensures Feed(crc, data[..0]) == crc
  {
  }

  // ---------- crc32_partial_generic ----------

  /** DO_ONE (data + p) */
  method DoOne(data: seq<bv8>, p: nat, crc0: bv32, ghost start: bv32) returns (crc: bv32)
    requires p + 4 <= |data| && crc0 == Feed(start, data[..p])
    ensures crc == Feed(start, data[..p + 4])
  {
    hide *;
    var c := Plus(crc0, Word(data, p));
    crc := Plus(Plus(Plus(Table0(Byte0(c)), Table1(Byte1(c))), Table2(Byte2(c))), Table(Byte3(c)));
    FourLookups(c);
    FeedWord(start, data, p);
  }

  method DoFour(data: seq<bv8>, p: nat, crc0: bv32, ghost start: bv32) returns (crc: bv32)
    requires p + 16 <= |data| && crc0 == Feed(start, data[..p])
    ensures crc == Feed(start, data[..p + 16])
  {
    crc := DoOne(data, p, crc0, start);
    crc := DoOne(data, p + 4, crc, start);
    crc := DoOne(data, p + 8, crc, start);
    crc := DoOne(data, p + 12, crc, start);
  }

  method DoByte(data: seq<bv8>, p: nat, crc0: bv32, ghost start: bv32) returns (crc: bv32)
    requires p < |data| && crc0 == Feed(start, data[..p])
    ensures crc == Feed(start, data[..p + 1])
  {
    hide *;
    var c := Plus(crc0, data[p] as bv32);
    crc := Plus(Table(Byte0(c)), Drop8(crc0));
    OneLookup(c);
    Drop8OfPlus(crc0, data[p]);
    LastByte(crc0, data[p]);
    FeedNext(start, data, p);
  }

  /** (len & d) != 0, for d a power of two. */
  function Bit(len: nat, d: nat): (b: nat)
    requires d > 0
    ensures b <= 1
  {
    len / d % 2
  }

  lemma LengthBits(len: nat)
    ensures len == 32 * (len / 32) + 16 * Bit(len, 16) + 8 * Bit(len, 8) + 4 * Bit(len, 4) + 2 * Bit(len, 2) + Bit(len, 1)
  {
    assert len == 2 * (len / 2) + len % 2;
    LengthBit(len, 2);
    LengthBit(len, 4);
    LengthBit(len, 8);
    LengthBit(len, 16);
  }

  lemma LengthBit(len: nat, d: nat)
    requires d == 2 || d == 4 || d == 8 || d == 16
    ensures len / d == 2 * (len / (2 * d)) + Bit(len, d)
  {
  }

  /** crc32_partial_generic: eight words a turn, then a tail of 16, 8, 4, 2 and 1 bytes, all fed by table. */
  method Crc32Partial(data: seq<bv8>, start: bv32) returns (crc: bv32)
    ensures crc == Feed(start, data)
  {
    hide *;
    FeedNone(start, data);
    LengthBits(|data|);
    var p, x := 0, |data| / 32;
    crc := start;
    while x > 0
      invariant x >= 0 && p + 32 * x == 32 * (|data| / 32)
      invariant crc == Feed(start, data[..p])
    {
      crc := DoFour(data, p, crc, start);
      crc := DoFour(data, p + 16, crc, start);
      p := p + 32;
      x := x - 1;
    }
    crc := Tail(data, p, crc, start);
  }

  method Tail(data: seq<bv8>, p0: nat, crc0: bv32, ghost start: bv32) returns (crc: bv32)
    requires p0 <= |data| && crc0 == Feed(start, data[..p0])
    requires |data| == p0 + 16 * Bit(|data|, 16) + 8 * Bit(|data|, 8) + 4 * Bit(|data|, 4) + 2 * Bit(|data|, 2) + Bit(|data|, 1)
    ensures crc == Feed(start, data)
  {
    hide *;
    var p := p0;
    crc := crc0;
    if Bit(|data|, 16) == 1 {
      crc := DoFour(data, p, crc, start);
      p := p + 16;
    }
    if Bit(|data|, 8) == 1 {
      crc := DoOne(data, p, crc, start);
      crc := DoOne(data, p + 4, crc, start);
      p := p + 8;
    }
    crc := ShortTail(data, p, crc, start);
  }

  method ShortTail(data: seq<bv8>, p0: nat, crc0: bv32, ghost start: bv32) returns (crc: bv32)
    requires p0 <= |data| && crc0 == Feed(start, data[..p0])
    requires |data| == p0 + 4 * Bit(|data|, 4) + 2 * Bit(|data|, 2) + Bit(|data|, 1)
    ensures crc == Feed(start, data)
  {
    hide *;
    var p := p0;
    crc := crc0;
    if Bit(|data|, 4) == 1 {
      crc := DoOne(data, p, crc, start);
      p := p + 4;
    }
    if Bit(|data|, 2) == 1 {
      crc := DoByte(data, p, crc, start);
      crc := DoByte(data, p + 1, crc, start);
      p := p + 2;
    }
    if Bit(|data|, 1) == 1 {
      crc := DoByte(data, p, crc, start);
      p := p + 1;
    }
    assert data[..p] == data;
  }
}
