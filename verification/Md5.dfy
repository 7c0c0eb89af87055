/**
 Streaming MD5 and HMAC-MD5 (server/common/md5.c) over an arbitrary block function: whatever the
 pieces a message is fed in, the digest is the block function folded over the message padded as
 sections 3.1 and 3.2 of RFC 1321 say, and HMAC is section 2 of RFC 2104 on top of it.
 */
module Md5 {

  type Bytes = seq<bv8>

  /** The four chaining words; they are wider than 32 bits, of which only the low 32 are output. */
  datatype State = State(a: nat, b: nat, c: nat, d: nat)

  const START := State(0x67452301, 0xefcdab89, 0x98badcfe, 0x10325476)

  const INT_MAX: nat := 0x7fff_ffff
  const TWO32: nat := 0x1_0000_0000

  /** md5_process */
  type BlockFunction = (State, Bytes) -> State

  // ---------- the specification ----------

  /** The block function over the whole blocks of data. */
  function Fold(f: BlockFunction, s: State, data: Bytes): State
    decreases |data|
  {
    if |data| < 64 then s else Fold(f, f(s, data[..64]), data[64..])
  }

  function Repeat(b: bv8, n: nat): (r: Bytes)
    ensures |r| == n
  {
    seq(n, _ => b)
  }

  /** PUT_ULONG_LE: the low 32 bits of n, least significant byte first. */
  function Put(n: nat): (r: Bytes)
    ensures |r| == 4
  {
    [(n % 256) as bv8, (n / 256 % 256) as bv8, (n / 65536 % 256) as bv8, (n / 16777216 % 256) as bv8]
  }

  /** Section 3.1: a one bit and zeros up to 56 modulo 64; section 3.2: the low 64 bits of the length in bits, low word first. */
  function Pad(m: Bytes): Bytes {
    m + [0x80] + Repeat(0, (55 - |m|) % 64) + Put(8 * |m| % TWO32) + Put(8 * |m| / TWO32 % TWO32)
  }

  function Output(s: State): (r: Bytes)
    ensures |r| == 16
  {
    Put(s.a) + Put(s.b) + Put(s.c) + Put(s.d)
  }

  function Digest(f: BlockFunction, m: Bytes): (r: Bytes)
    ensures |r| == 16
  {
    Output(Fold(f, START, Pad(m)))
  }

  function Whole(n: nat): (w: nat)
    ensures w <= n && w % 64 == 0 && n - w == n % 64
  {
    n / 64 * 64
  }

  lemma PadIsWhole(m: Bytes)
    ensures Whole(|Pad(m)|) == |Pad(m)| && Pad(m)[..|Pad(m)|] == Pad(m)
  {
    Padded(|m|);
  }

  lemma Padded(n: nat)
    ensures (n + 1 + (55 - n) % 64 + 8) % 64 == 0
  {
  }

  lemma {:induction false} FoldConcat(f: BlockFunction, s: State, a: Bytes, b: Bytes)
    requires |a| % 64 == 0
    ensures Fold(f, s, a + b) == Fold(f, Fold(f, s, a), b)
    decreases |a|
  {
    if |a| == 0 {
      assert a + b == b;
    } else {
      assert (a + b)[..64] == a[..64];
      assert (a + b)[64..] == a[64..] + b;
      FoldConcat(f, f(s, a[..64]), a[64..], b);
    }
  }

  /** One more block. */
  lemma FoldNext(f: BlockFunction, s: State, a: Bytes, block: Bytes)
    requires |a| % 64 == 0 && |block| == 64
    ensures Fold(f, s, a + block) == f(Fold(f, s, a), block)
  {
    FoldConcat(f, s, a, block);
    assert block[..64] == block;
    assert Fold(f, f(Fold(f, s, a), block), block[64..]) == f(Fold(f, s, a), block);
  }

  // ---------- md5_context ----------

  class Context {
    const f: BlockFunction
    const buffer: array<bv8>
    const ipad: array<bv8>
    const opad: array<bv8>
    var total0: nat
    var total1: nat
    var state: State
    ghost var fed: Bytes     // everything fed since md5_starts

    ghost predicate Valid()
      reads this, buffer
    {
      && buffer.Length == 64 && ipad.Length == 64 && opad.Length == 64
      && ipad != opad && ipad != buffer && opad != buffer
      && total0 == |fed| % TWO32 && total1 == |fed| / TWO32
      && Held(fed)
    }

    /** The whole blocks are folded into the state and the rest is in the buffer. */
    ghost predicate Held(m: Bytes)
      reads this, buffer
    {
      && buffer.Length == 64
      && state == Fold(f, START, m[..Whole(|m|)])
      && buffer[..|m| % 64] == m[Whole(|m|)..]
    }

    constructor (f: BlockFunction)
      ensures Valid() && fed == [] && this.f == f
      ensures fresh(buffer) && fresh(ipad) && fresh(opad)
    {
      this.f := f;
      buffer := new bv8[64](_ => 0);
      ipad := new bv8[64](_ => 0);
      opad := new bv8[64](_ => 0);
      total0, total1, state, fed := 0, 0, START, [];
    }

    /** md5_starts */
    method Starts()
      requires Valid()
      modifies this
      ensures Valid() && fed == []
    {
      total0, total1, state, fed := 0, 0, START, [];
    }

    /** memcpy (buffer + left, input, |input|) */
    method Fill(left: nat, input: Bytes)
      requires left + |input| <= buffer.Length
      modifies buffer
      ensures buffer[..left + |input|] == old(buffer[..left]) + input
    {
      for i := 0 to |input|
        invariant buffer[..left + i] == old(buffer[..left]) + input[..i]
      {
        buffer[left + i] := input[i];
        assert input[..i + 1] == input[..i] + [input[i]];
        assert buffer[..left + i + 1] == buffer[..left + i] + [input[i]];
      }
    }

    /** md5_update */
    method Update(input: Bytes)
      requires Valid() && |input| <= INT_MAX
      modifies this, buffer
      ensures Valid() && fed == old(fed) + input
    {
      hide Fold;
      if |input| == 0 {
        assert fed + input == fed;
        return;
      }
      var left := total0 % 64;
      Counted(|fed|, |input|);
      total0 := (total0 + |input|) % TWO32;
      if total0 < |input| { total1 := total1 + 1; }
      ghost var m := fed;
      fed := m + input;
      FeedBlocks(m, left, input);
    }

    /** The data part of md5_update: full blocks are processed, the rest is kept. */
    method FeedBlocks(ghost m: Bytes, left0: nat, input: Bytes)
      requires Held(m) && left0 == |m| % 64
      modifies `state, buffer
      ensures Held(m + input)
    {
      hide Fold, Whole;
      var left, p, fill := left0, 0, 64 - left0;
      ghost var done := m[..Whole(|m|)];   // what the state has folded in
      Parts(m);
      if left > 0 && |input| >= fill {
        done := CompleteBlock(m, left, input);
        p := fill;
        left := 0;
      }
      p, done := WholeBlocks(input, p, done);
      if |input| - p > 0 { Fill(left, input[p..]); }
      Rest(m, input, p, left, done);
    }

    /** The kept bytes are completed to a block. */
    method CompleteBlock(ghost m: Bytes, left: nat, input: Bytes) returns (ghost done: Bytes)
      requires Held(m) && 0 < left == |m| % 64 && |input| >= 64 - left
      modifies `state, buffer
      ensures done == m + input[..64 - left] && |done| % 64 == 0 && state == Fold(f, START, done)
    {
      hide Fold, Whole;
      var fill := 64 - left;
      Parts(m);
      Fill(left, input[..fill]);
      assert buffer[..] == buffer[..64];
      FoldNext(f, START, m[..Whole(|m|)], buffer[..]);
      done := m[..Whole(|m|)] + buffer[..];
      assert done == m[..Whole(|m|)] + m[Whole(|m|)..] + input[..fill];
      state := f(state, buffer[..]);
    }

    /** Blocks straight from the input. */
    method WholeBlocks(input: Bytes, p0: nat, ghost done0: Bytes) returns (p: nat, ghost done: Bytes)
      requires p0 <= |input| && buffer.Length == 64 && state == Fold(f, START, done0) && |done0| % 64 == 0
      modifies `state
      ensures p0 <= p <= |input| && |input| - p < 64 && (|input| - p0 < 64 ==> p == p0)
      ensures done == done0 + input[p0..p] && |done| % 64 == 0
      ensures state == Fold(f, START, done)
    {
      hide Fold;
      p, done := p0, done0;
      while |input| - p >= 64
        invariant p0 <= p <= |input| && (|input| - p0 < 64 ==> p == p0) && state == Fold(f, START, done) && |done| % 64 == 0
        invariant done == done0 + input[p0..p]
      {
        FoldNext(f, START, done, input[p..p + 64]);
        done := done + input[p..p + 64];
        assert input[p0..p] + input[p..p + 64] == input[p0..p + 64];
        state := f(state, input[p..p + 64]);
        p := p + 64;
      }
    }

    /** md5_finish: what is output is the digest of everything that was fed. */
    method Finish() returns (output: Bytes)
      requires Valid()
      modifies this, buffer
      ensures Valid() && output == Digest(f, old(fed))
    {
      hide Fold, Whole, Put, Repeat, Pad;
      ghost var m := fed;
      var high := total0 / 0x2000_0000 + total1 * 8;
      var low := total0 * 8;
      var msglen := Put(low) + Put(high);
      var last := total0 % 64;
      var padn := if last < 56 then 56 - last else 120 - last;
      PaddingLength(m);
      Update(PADDING[..padn]);
      Update(msglen);
      PadParts(m, PADDING[..padn], msglen);
      PadIsWhole(m);
      output := Output(state);
    }

    /** md5_hmac_starts: the inner pad is fed, the outer one kept. */
    method HmacStarts(key0: Bytes)
      requires Valid() && |key0| <= INT_MAX
      modifies this, buffer, ipad, opad
      ensures Valid() && fed == XorEach(BlockKey(f, key0), 0x36) && opad[..] == XorEach(BlockKey(f, key0), 0x5c)
    {
      hide Fold, Digest, Held;
      var key := key0;
      if |key| > 64 { key := Hash(f, key); }
      ghost var k := BlockKey(f, key0);
      var i := 0;
      while i < 64
        invariant 0 <= i <= 64 && Valid()
        invariant forall j :: 0 <= j < i ==> ipad[j] == 0x36 && opad[j] == 0x5c
      {
        ipad[i], opad[i] := 0x36, 0x5c;
        i := i + 1;
      }
      i := 0;
      while i < |key|
        invariant 0 <= i <= |key| && Valid()
        invariant forall j :: 0 <= j < i ==> ipad[j] == 0x36 ^ key[j] && opad[j] == 0x5c ^ key[j]
        invariant forall j :: i <= j < 64 ==> ipad[j] == 0x36 && opad[j] == 0x5c
      {
        ipad[i], opad[i] := ipad[i] ^ key[i], opad[i] ^ key[i];
        i := i + 1;
      }
      XorPadded(key, 0x36);
      XorPadded(key, 0x5c);
      assert ipad[..] == XorEach(k, 0x36);
      assert opad[..] == XorEach(k, 0x5c);
      Starts();
      assert [] + ipad[..] == ipad[..];
      Update(ipad[..]);
    }

    /** md5_hmac_finish, after md5_hmac_starts and any number of md5_hmac_update: the outer hash of the inner one. */
    method HmacFinish() returns (output: Bytes)
      requires Valid()
      modifies this, buffer
      ensures Valid() && output == Digest(f, old(opad[..]) + Digest(f, old(fed)))
    {
      hide Fold, Digest, Held;
      var inner := Finish();
      Starts();
      assert [] + opad[..] == opad[..];
      Update(opad[..]);
      Update(inner);
      output := Finish();
    }
  }

  // ---------- whole messages ----------

  /** md5 */
  method Hash(f: BlockFunction, input: Bytes) returns (output: Bytes)
    requires |input| <= INT_MAX
    ensures output == Digest(f, input)
  {
    hide Digest, Fold, Pad, Output, Context.Held, Context.Valid;
    var ctx := new Context(f);
    assert [] + input == input;
    ctx.Update(input);
    output := ctx.Finish();
  }

  function Concat(pieces: seq<Bytes>): Bytes {
    if pieces == [] then [] else Concat(pieces[..|pieces| - 1]) + pieces[|pieces| - 1]
  }

  /** Any cutting of a message into pieces has the digest of the whole. */
  method HashPieces(f: BlockFunction, pieces: seq<Bytes>) returns (output: Bytes)
    requires forall i :: 0 <= i < |pieces| ==> |pieces[i]| <= INT_MAX
    ensures output == Digest(f, Concat(pieces))
  {
    hide Digest, Fold, Pad, Output, Context.Held, Context.Valid;
    var ctx := new Context(f);
    for i := 0 to |pieces|
      invariant ctx.Valid() && fresh(ctx) && fresh(ctx.buffer) && ctx.f == f && ctx.fed == Concat(pieces[..i])
    {
      assert pieces[..i + 1][..i] == pieces[..i];
      ctx.Update(pieces[i]);
    }
    assert pieces[..|pieces|] == pieces;
    output := ctx.Finish();
  }

  // ---------- HMAC ----------

  /** The key, hashed if it is longer than a block, with zeros up to a block. */
  function BlockKey(f: BlockFunction, key: Bytes): (k: Bytes)
    ensures |k| == 64
  {
    var k := if |key| > 64 then Digest(f, key) else key;
    k + Repeat(0, 64 - |k|)
  }

  function XorEach(k: Bytes, b: bv8): (r: Bytes)
    ensures |r| == |k|
  {
    seq(|k|, i requires 0 <= i < |k| => b ^ k[i])
  }

  /** Section 2 of RFC 2104: H(K xor opad, H(K xor ipad, text)). */
  function Hmac(f: BlockFunction, key: Bytes, text: Bytes): Bytes {
    var k := BlockKey(f, key);
    Digest(f, XorEach(k, 0x5c) + Digest(f, XorEach(k, 0x36) + text))
  }

  lemma XorPadded(key: Bytes, b: bv8)
    requires |key| <= 64
    ensures var r := XorEach(key + Repeat(0, 64 - |key|), b);
      forall i :: 0 <= i < 64 ==> r[i] == if i < |key| then b ^ key[i] else b
  {
    XorZero(b);
  }

  lemma XorZero(b: bv8)
    ensures b ^ 0 == b
  {
  }

  /** md5_hmac, with the text fed in pieces. */
  method HmacPieces(f: BlockFunction, key: Bytes, pieces: seq<Bytes>) returns (output: Bytes)
    requires |key| <= INT_MAX && forall i :: 0 <= i < |pieces| ==> |pieces[i]| <= INT_MAX
    ensures output == Hmac(f, key, Concat(pieces))
  {
    hide Digest, Fold, Pad, Output, XorEach, BlockKey, Context.Held, Context.Valid;
    var ctx := new Context(f);
    ctx.HmacStarts(key);
    ghost var inner, outer := ctx.fed, ctx.opad[..];
    assert inner + [] == inner;
    for i := 0 to |pieces|
      invariant ctx.Valid() && fresh(ctx) && fresh(ctx.buffer) && ctx.f == f && ctx.opad[..] == outer
      invariant ctx.fed == inner + Concat(pieces[..i])
    {
      assert pieces[..i + 1][..i] == pieces[..i];
      ctx.Update(pieces[i]);
      assert inner + Concat(pieces[..i]) + pieces[i] == inner + Concat(pieces[..i + 1]);
    }
    assert pieces[..|pieces|] == pieces;
    output := ctx.HmacFinish();
  }

  /** md5_padding */
  const PADDING: Bytes := [0x80] + Repeat(0, 63)

  /** What md5_finish feeds after the message. */
  lemma PadParts(m: Bytes, padding: Bytes, msglen: Bytes)
    requires padding == [0x80] + Repeat(0, (55 - |m|) % 64)
    requires msglen == Put(|m| % TWO32 * 8) + Put(|m| % TWO32 / 0x2000_0000 + |m| / TWO32 * 8)
    ensures m + padding + msglen == Pad(m)
  {
    hide Put, Repeat;
    LengthBytes(|m|);
  }

  /** The two words of the length, from the two words of the byte count. */
  lemma LengthBytes(n: nat)
    ensures Put(n % TWO32 * 8) == Put(8 * n % TWO32)
    ensures Put(n % TWO32 / 0x2000_0000 + n / TWO32 * 8) == Put(8 * n / TWO32 % TWO32)
  {
    hide Put;
    HighWord(n % TWO32, n / TWO32);
    PutCut(n % TWO32 * 8);
    PutCut(8 * n / TWO32);
  }

  lemma HighWord(low: nat, high: nat)
    requires low < TWO32
    ensures 8 * (TWO32 * high + low) / TWO32 == low / 0x2000_0000 + high * 8
    ensures 8 * (TWO32 * high + low) % TWO32 == low * 8 % TWO32
  {
  }

  /** Put looks at the low 32 bits only. */
  lemma PutCut(n: nat)
    ensures Put(n % TWO32) == Put(n)
  {
    assert n == TWO32 * (n / TWO32) + n % TWO32;
    PutCutParts(n / TWO32, n % TWO32);
  }

  lemma PutCutParts(q: nat, r: nat)
    ensures Put(TWO32 * q + r) == Put(r)
  {
    Shifted(q, r);
    DropHigh(16777216 * q, r);
    DropHigh(65536 * q, r / 256);
    DropHigh(256 * q, r / 65536);
    DropHigh(q, r / 16777216);
  }

  lemma Shifted(q: nat, r: nat)
    ensures (TWO32 * q + r) / 256 == 16777216 * q + r / 256
    ensures (TWO32 * q + r) / 65536 == 65536 * q + r / 65536
    ensures (TWO32 * q + r) / 16777216 == 256 * q + r / 16777216
  {
  }

  lemma DropHigh(x: nat, y: nat)
    ensures (256 * x + y) % 256 == y % 256
  {
  }

  /** The padding that md5_finish feeds is the one RFC 1321 asks for. */
  lemma PaddingLength(m: Bytes)
    ensures var last := |m| % TWO32 % 64;
      var padn := if last < 56 then 56 - last else 120 - last;
      1 <= padn <= 64 && PADDING[..padn] == [0x80] + Repeat(0, (55 - |m|) % 64)
  {
    var n := |m| % 64;
    Within64(|m|);
    assert PADDING[..1 + (55 - n) % 64] == [0x80] + Repeat(0, (55 - n) % 64);
  }

  lemma Within64(n: nat)
    ensures n % TWO32 % 64 == n % 64 && (55 - n) % 64 == (55 - n % 64) % 64
    ensures (55 - n % 64) % 64 == if n % 64 < 56 then 55 - n % 64 else 119 - n % 64
  {
    assert n == 64 * (67108864 * (n / TWO32)) + n % TWO32;
    Drop64(67108864 * (n / TWO32), n % TWO32);
    assert 55 - n == 64 * -(n / 64) + (55 - n % 64);
    Drop64(-(n / 64), 55 - n % 64);
    SmallMod(n % 64);
  }

  lemma Drop64(x: int, y: int)
    ensures (64 * x + y) % 64 == y % 64
  {
  }

  lemma SmallMod(b: nat)
    requires b < 64
    ensures (55 - b) % 64 == if b < 56 then 55 - b else 119 - b
  {
  }

  lemma Parts(m: Bytes)
    ensures m == m[..Whole(|m|)] + m[Whole(|m|)..] && |m[Whole(|m|)..]| == |m| % 64
  {
  }

  /** The carry into the high word is right. */
  lemma Counted(n: nat, k: nat)
    requires 0 < k <= INT_MAX
    ensures n % TWO32 % 64 == n % 64
    ensures (n % TWO32 + k) % TWO32 == (n + k) % TWO32
    ensures (n + k) / TWO32 == n / TWO32 + if (n + k) % TWO32 < k then 1 else 0
  {
    var q, r := n / TWO32, n % TWO32;
    assert n == TWO32 * q + r;
    if r + k >= TWO32 {
      assert n + k == TWO32 * (q + 1) + (r + k - TWO32);
    }
  }

  lemma Rest(m: Bytes, input: Bytes, p: nat, left: nat, done: Bytes)
    requires p <= |input| && |input| - p < 64 && |done| % 64 == 0
    requires left == 0 ==> done == m + input[..p]
    requires left > 0 ==> p == 0 && left == |m| % 64 && |input| < 64 - left && done == m[..Whole(|m|)]
    ensures (m + input)[..Whole(|m + input|)] == done
    ensures (m + input)[Whole(|m + input|)..] == (if left == 0 then [] else m[Whole(|m|)..]) + input[p..]
  {
    assert |m + input| - |done| < 64;
    assert Whole(|m + input|) == |done|;
    if left == 0 {
      assert m + input == done + input[p..];
    } else {
      assert m + input == done + (m[Whole(|m|)..] + input);
    }
  }
}
