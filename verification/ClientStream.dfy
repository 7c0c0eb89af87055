/**
 The HTTP mode of the client stream (lib/src/t3_client_stream.c): messages are padded, framed,
 encrypted with a keystream that runs on from message to message and sent as chunks; the other
 side gets the bytes in arbitrary pieces and takes the layers off again as far as they are there.
 */
module ClientStream {
  import opened Common
  import opened Digits
  import opened HttpChunk

  const RING_CAP: nat := 8 * 1024 * 1024
  const MAX_WIRE: nat := 0x40_0000          // 1 << 22
  const PADDING_MARKER: byte := 0xfe

  // ---------- the cipher: XOR with a keystream that depends on the position only ----------

  type Keystream = nat -> byte

  function Mix(a: nat, b: nat): (r: nat)
    ensures r < 2
  {
    (a % 2 + b % 2) % 2
  }

  /** Bitwise exclusive or of the n lowest bits. */
  function XorBits(a: nat, b: nat, n: nat): (r: nat)
    ensures r < Pow2(n)
  {
    if n == 0 then 0 else Mix(a, b) + 2 * XorBits(a / 2, b / 2, n - 1)
  }

  function Xor(a: byte, b: byte): byte {
    assert Pow2(8) == 256;
    XorBits(a, b, 8)
  }

  lemma {:induction false} XorBitsTwice(a: nat, b: nat, n: nat)
    requires a < Pow2(n)
    ensures XorBits(XorBits(a, b, n), b, n) == a
  {
    hide Mix;
    if n > 0 {
      var bit, rest := Mix(a, b), XorBits(a / 2, b / 2, n - 1);
      XorBitsTwice(a / 2, b / 2, n - 1);
      LowBitOff(bit, rest);
      MixTwice(a, b, rest);
    }
  }

  lemma LowBitOff(bit: nat, rest: nat)
    requires bit < 2
    ensures (bit + 2 * rest) / 2 == rest
  {
  }

  lemma MixTwice(a: nat, b: nat, rest: nat)
    ensures Mix(Mix(a, b) + 2 * rest, b) + 2 * (a / 2) == a
  {
    assert (Mix(a, b) + 2 * rest) % 2 == Mix(a, b);
  }

  function Crypt(key: Keystream, pos: nat, data: Bytes): (r: Bytes)
    ensures |r| == |data|
  {
    seq(|data|, i requires 0 <= i < |data| => Xor(data[i], key(pos + i)))
  }

  /** Decrypting at the position where it was encrypted gives the text back. */
  lemma CryptTwice(key: Keystream, pos: nat, data: Bytes)
    ensures Crypt(key, pos, Crypt(key, pos, data)) == data
  {
    assert Pow2(8) == 256;
    forall i | 0 <= i < |data| ensures Crypt(key, pos, Crypt(key, pos, data))[i] == data[i] {
      XorBitsTwice(data[i], key(pos + i), 8);
    }
  }

  // ---------- messages ----------

  function Bytes4(n: nat): (r: Bytes)
    ensures |r| == 4
  {
    [n % 256, n / 256 % 256, n / 65536 % 256, n / 16777216 % 256]
  }

  function Le32(b: Bytes): nat
    requires |b| >= 4
  {
    b[0] as int + 256 * b[1] as int + 65536 * b[2] as int + 16777216 * b[3] as int
  }

  lemma Le32OfBytes4(n: nat, rest: Bytes)
    requires n < 0x1_0000_0000
    ensures Le32(Bytes4(n) + rest) == n
  {
    assert n / 65536 == n / 256 / 256;
    assert n / 16777216 == n / 65536 / 256;
  }

  /** A message on the stream: the length of its body, then the body, which is payload and padding. */
  function Frame(body: Bytes): Bytes {
    Bytes4(|body| % 0x1_0000_0000) + body
  }

  function Frames(bodies: seq<Bytes>): Bytes {
    if bodies == [] then [] else Frame(bodies[0]) + Frames(bodies[1..])
  }

  // ---------- receiving ----------

  /**
   The buffers of the receiving side. refused: in_ring or reasm_in has been too full for what was to
   be put in. What plain_in has no room for stays in reasm_in for a later pump, and is not refused.
   */
  datatype Rx = Rx(inb: Bytes, reasm: Bytes, plain: Bytes, pos: nat, refused: bool)

  datatype Outcome = Outcome(rx: Rx, ok: bool)

  /** The first loop of process_incoming: chunks off the wire, decrypted. */
  function Deframe(s: Rx, key: Keystream): Outcome
    decreases |s.inb|
  {
    if s.inb == [] then Outcome(s, true)
    else
      var p := Parse(s.inb);
      if p.r == BufTooSmall then Outcome(s, true)
      else if p.r != Ok then Outcome(s, false)
      else if p.data == [] then Deframe(s.(inb := s.inb[p.consumed..]), key)
      else if |s.reasm| + |p.data| > RING_CAP then Outcome(s.(pos := s.pos + |p.data|, refused := true), true)
      else
        Deframe(s.(inb := s.inb[p.consumed..], reasm := s.reasm + Crypt(key, s.pos, p.data), pos := s.pos + |p.data|), key)
  }

  /** The second loop: whole messages, length and all, into plain. */
  function Unpack(s: Rx): Outcome
    decreases |s.reasm|
  {
    if |s.reasm| < 4 then Outcome(s, true)
    else
      var len := Le32(s.reasm) % 0x8000_0000;
      if len < 4 || len > MAX_WIRE then
        if s.reasm[0] == PADDING_MARKER then Unpack(s.(reasm := s.reasm[1..])) else Outcome(s, false)
      else if |s.reasm| < 4 + len then Outcome(s, true)
      else if |s.plain| + 4 + len > RING_CAP then Outcome(s, true)
      else Unpack(s.(reasm := s.reasm[4 + len..], plain := s.plain + s.reasm[..4 + len]))
  }

  function Process(s: Rx, key: Keystream): Outcome {
    var o := Deframe(s, key);
    if o.ok then Unpack(o.rx) else o
  }

  /** What SSL_read delivers is put in, if it fits, and processed. */
  function Arrived(s: Rx, data: Bytes, key: Keystream): Rx {
    if |s.inb| + |data| > RING_CAP then Process(s.(refused := true), key).rx
    else Process(s.(inb := s.inb + data), key).rx
  }

  /** t3_client_read: at most one message. */
  function Read(s: Rx, cap: nat): (Rx, Option<Bytes>) {
    if |s.plain| < 4 then (s, None)
    else
      var len := Le32(s.plain) % 0x8000_0000;
      if |s.plain| < 4 + len || len > cap then (s, None)
      else (s.(plain := s.plain[4 + len..]), Some(s.plain[4..4 + len]))
  }

  // ---------- the object ----------

  class Stream {
    const encKey: Keystream
    const decKey: Keystream
    var outRing: Bytes
    var encPos: nat
    var inRing: Bytes
    var reasmIn: Bytes
    var plainIn: Bytes
    var decPos: nat
    ghost var refused: bool

    ghost function Receiver(): Rx
      reads this
    {
      Rx(inRing, reasmIn, plainIn, decPos, refused)
    }

    constructor (encKey: Keystream, decKey: Keystream)
      ensures this.encKey == encKey && this.decKey == decKey
      ensures Receiver() == Rx([], [], [], 0, false) && outRing == [] && encPos == 0
    {
      this.encKey, this.decKey := encKey, decKey;
      outRing, encPos, inRing, reasmIn, plainIn, decPos, refused := [], 0, [], [], [], 0, false;
    }

    /** process_incoming */
    method ProcessIncoming() returns (ok: bool)
      requires |inRing| <= SIZE_MAX
      modifies this
      ensures Outcome(Receiver(), ok) == Process(old(Receiver()), decKey)
      ensures outRing == old(outRing) && encPos == old(encPos)
    {
      hide Parse, Crypt;
      ghost var start := Receiver();
      while inRing != []
        invariant |inRing| <= SIZE_MAX && outRing == old(outRing) && encPos == old(encPos)
        invariant Deframe(Receiver(), decKey) == Deframe(start, decKey)
        decreases |inRing|
      {
        var p := ChunkParse(inRing);
        if p.r == BufTooSmall { break; }
        if p.r != Ok { return false; }
        if p.data == [] {
          inRing := inRing[p.consumed..];
        } else {
          var decrypted := Crypt(decKey, decPos, p.data);
          decPos := decPos + |p.data|;
          if |reasmIn| + |decrypted| > RING_CAP {
            refused := true;
            break;
          }
          reasmIn := reasmIn + decrypted;
          inRing := inRing[p.consumed..];
        }
      }
      assert Outcome(Receiver(), true) == Deframe(start, decKey);
      ok := UnpackAll();
    }

    method UnpackAll() returns (ok: bool)
      modifies this
      ensures Outcome(Receiver(), ok) == Unpack(old(Receiver()))
      ensures outRing == old(outRing) && encPos == old(encPos)
    {
      ghost var start := Receiver();
      while |reasmIn| >= 4
        invariant outRing == old(outRing) && encPos == old(encPos)
        invariant Unpack(Receiver()) == Unpack(start)
        decreases |reasmIn|
      {
        var len := Le32(reasmIn) % 0x8000_0000;
        if len < 4 || len > MAX_WIRE {
          if reasmIn[0] != PADDING_MARKER { return false; }
          reasmIn := reasmIn[1..];
        } else {
          if |reasmIn| < 4 + len { break; }
          if |plainIn| + 4 + len > RING_CAP { break; }
          plainIn := plainIn + reasmIn[..4 + len];
          reasmIn := reasmIn[4 + len..];
        }
      }
      ok := true;
    }

    /** The receiving half of t3_client_pump in state READY; it looks at no error code. */
    method Pump(data: Bytes)
      requires |inRing| + |data| <= SIZE_MAX
      modifies this
      ensures Receiver() == Arrived(old(Receiver()), data, decKey)
      ensures outRing == old(outRing) && encPos == old(encPos)
    {
      if |inRing| + |data| <= RING_CAP { inRing := inRing + data; } else { refused := true; }
      var _ := ProcessIncoming();
    }

    /** t3_client_read: of the messages in plain_in the first is taken, if it fits; otherwise nothing changes. */
    method ClientRead(cap: nat) returns (message: Option<Bytes>)
      modifies this
      ensures (Receiver(), message) == Read(old(Receiver()), cap)
      ensures forall bodies :: Bodies(bodies) && old(plainIn) == Frames(bodies) ==>
        if bodies == [] || |bodies[0]| > cap then message == None && plainIn == old(plainIn)
        else message == Some(bodies[0]) && plainIn == Frames(bodies[1..])
      ensures outRing == old(outRing) && encPos == old(encPos)
    {
      forall bodies | Bodies(bodies) && plainIn == Frames(bodies)
        ensures Read(Receiver(), cap) ==
          if bodies == [] || |bodies[0]| > cap then (Receiver(), None)
          else (Receiver().(plain := Frames(bodies[1..])), Some(bodies[0]))
      {
        ReadIsNext(Receiver(), bodies, cap);
      }
      if |plainIn| < 4 { return None; }
      var len := Le32(plainIn) % 0x8000_0000;
      if |plainIn| < 4 + len { return None; }
      if len > cap { return None; }
      message := Some(plainIn[4..4 + len]);
      plainIn := plainIn[4 + len..];
    }

    /** t3_client_write, up to the flush; padding holds the random bytes that were drawn. */
    method ClientWrite(plaintext: Bytes, padding: Bytes) returns (r: Result)
      requires |padding| <= 15 && |plaintext| <= SIZE_MAX - 64
      modifies this
      ensures r == if plaintext == [] then InvalidArg else Ok
      ensures Receiver() == old(Receiver())
      ensures plaintext == [] ==> outRing == old(outRing) && encPos == old(encPos)
      ensures plaintext != [] ==>
        var frame := Frame(plaintext + padding);
        var chunk := Chunk(Crypt(encKey, old(encPos), frame));
        && encPos == old(encPos) + |frame|
        && outRing == old(outRing) + (if |old(outRing)| + |chunk| <= RING_CAP then chunk else [])
    {
      hide Crypt;
      if |plaintext| == 0 { return InvalidArg; }
      var framed := Bytes4((|plaintext| + |padding|) % 0x1_0000_0000) + plaintext + padding;
      assert framed == Frame(plaintext + padding);
      var encrypted := Crypt(encKey, encPos, framed);
      encPos := encPos + |framed|;
      var chunk := new byte[|framed| + 32];
      HexFits(|framed|);
      var written: nat;
      r, written := ChunkWrite(chunk, encrypted);
      if |outRing| + written <= RING_CAP { outRing := outRing + chunk[..written]; }
    }

    /** ssl_flush_out: the network takes as many bytes as it accepts, from the front. */
    method FlushOut(accepted: nat) returns (sent: Bytes)
      modifies this
      ensures sent + outRing == old(outRing) && |sent| == (if accepted < |old(outRing)| then accepted else |old(outRing)|)
      ensures Receiver() == old(Receiver()) && encPos == old(encPos)
    {
      var n := if accepted < |outRing| then accepted else |outRing|;
      sent := outRing[..n];
      outRing := outRing[n..];
    }
  }

  // ---------- what the writer puts on the wire ----------

  function Flat(parts: seq<Bytes>): Bytes {
    if parts == [] then [] else parts[0] + Flat(parts[1..])
  }

  /** The plain text parts, each encrypted at its place in the stream, as chunks. */
  function Wire(parts: seq<Bytes>, key: Keystream, pos: nat): Bytes {
    if parts == [] then []
    else Chunk(Crypt(key, pos, parts[0])) + Wire(parts[1..], key, pos + |parts[0]|)
  }

  /** Parts that fit into a chunk. */
  predicate Fit(parts: seq<Bytes>) {
    forall i :: 0 <= i < |parts| ==> 1 <= |parts[i]| <= MAX_CHUNK
  }

  predicate Bodies(bodies: seq<Bytes>) {
    forall i :: 0 <= i < |bodies| ==> 4 <= |bodies[i]| <= MAX_WIRE
  }

  lemma {:induction false} WireAppend(parts: seq<Bytes>, part: Bytes, key: Keystream, pos: nat)
    ensures Wire(parts + [part], key, pos) == Wire(parts, key, pos) + Chunk(Crypt(key, pos + |Flat(parts)|, part))
    decreases |parts|
  {
    hide Chunk, Crypt;
    if parts == [] {
      assert parts + [part] == [part];
      assert Wire([part][1..], key, pos + |part|) == [];
    } else {
      WireAppend(parts[1..], part, key, pos + |parts[0]|);
      assert (parts + [part])[1..] == parts[1..] + [part];
    }
  }

  // ---------- the receiver in the middle of a stream ----------

  /** What is in the rings and what is still to come make up the rest of the stream, on both layers. */
  ghost predicate Midway(s: Rx, unread: Bytes, parts: seq<Bytes>, bodies: seq<Bytes>, key: Keystream) {
    && Fit(parts) && Bodies(bodies)
    && s.inb + unread == Wire(parts, key, s.pos)
    && s.reasm + Flat(parts) == Frames(bodies)
  }

  lemma ChunkNonempty(data: Bytes)
    ensures |Chunk(data)| >= 5
  {
    HexRoundTrip(|data|);
  }

  /** The outer layer: every chunk that is all there comes off, and nothing else is touched. */
  lemma {:induction false} DeframeMidway(s: Rx, unread: Bytes, parts: seq<Bytes>, bodies: seq<Bytes>, key: Keystream)
    returns (parts': seq<Bytes>)
    requires Midway(s, unread, parts, bodies, key)
    ensures var o := Deframe(s, key);
      && o.ok && o.rx.plain == s.plain
      && (s.refused ==> o.rx.refused)
      && (!o.rx.refused ==> Midway(o.rx, unread, parts', bodies, key) && (unread == [] ==> parts' == []))
    decreases |s.inb|
  {
    hide Parse, Chunk, Crypt, Frames, Bodies;
    parts' := parts;
    if parts != [] {
      var c := Chunk(Crypt(key, s.pos, parts[0]));
      var rest := Wire(parts[1..], key, s.pos + |parts[0]|);
      ChunkNonempty(Crypt(key, s.pos, parts[0]));
      assert s.inb + unread == c + rest;
      if |s.inb| < |c| {
        StillPart(s, unread, c, rest, parts, key);
      } else {
        WholeChunk(s.inb, unread, c, rest);
        ParseInvertsWrite(Crypt(key, s.pos, parts[0]), s.inb[|c|..]);
        CryptTwice(key, s.pos, parts[0]);
        if |s.reasm| + |parts[0]| <= RING_CAP {
          var t := s.(inb := s.inb[|c|..], reasm := s.reasm + parts[0], pos := s.pos + |parts[0]|);
          assert t.reasm + Flat(parts[1..]) == s.reasm + Flat(parts);
          parts' := DeframeMidway(t, unread, parts[1..], bodies, key);
        }
      }
    }
  }

  lemma WholeChunk(inb: Bytes, unread: Bytes, c: Bytes, rest: Bytes)
    requires inb + unread == c + rest && |inb| >= |c|
    ensures inb == c + inb[|c|..] && inb[|c|..] + unread == rest
  {
    assert (inb + unread)[..|c|] == inb[..|c|];
    assert (c + rest)[..|c|] == c;
    assert (inb + unread)[|c|..] == inb[|c|..] + unread;
    assert (c + rest)[|c|..] == rest;
  }

  /** A chunk that is not all there stays where it is. */
  lemma StillPart(s: Rx, unread: Bytes, c: Bytes, rest: Bytes, parts: seq<Bytes>, key: Keystream)
    requires parts != [] && Fit(parts) && c == Chunk(Crypt(key, s.pos, parts[0]))
    requires s.inb + unread == c + rest && |s.inb| < |c|
    ensures Deframe(s, key) == Outcome(s, true) && unread != []
  {
    hide Parse, Chunk, Crypt;
    PartAsksForMore(Crypt(key, s.pos, parts[0]), |s.inb|);
    assert s.inb == (s.inb + unread)[..|s.inb|];
    assert (c + rest)[..|s.inb|] == c[..|s.inb|];
  }

  /** The inner layer: every message that is all there moves on, as far as plain_in has room. */
  lemma {:induction false} UnpackMidway(s: Rx, unread: Bytes, parts: seq<Bytes>, bodies: seq<Bytes>, key: Keystream)
    returns (moved: nat)
    requires Midway(s, unread, parts, bodies, key)
    ensures var o := Unpack(s);
      && o.ok && o.rx.refused == s.refused && o.rx.inb == s.inb && o.rx.pos == s.pos
      && moved <= |bodies|
      && Midway(o.rx, unread, parts, bodies[moved..], key)
      && o.rx.plain == s.plain + Frames(bodies[..moved])
    ensures parts == [] && |s.plain| + |s.reasm| <= RING_CAP ==> moved == |bodies|
    ensures parts == [] && bodies != [] && s.plain == [] ==> moved >= 1
    decreases |s.reasm|
  {
    hide Wire, Le32, Bytes4;
    moved := 0;
    assert bodies[0..] == bodies && bodies[..0] == [];
    if bodies != [] {
      var f := Frame(bodies[0]);
      assert s.reasm + Flat(parts) == f + Frames(bodies[1..]);
      HeadOfFrame(bodies[0]);
      if |s.reasm| >= 4 { LengthInFront(s.reasm, Flat(parts), bodies[0], Frames(bodies[1..])); }
      if |s.reasm| >= |f| {
        WholeChunk(s.reasm, Flat(parts), f, Frames(bodies[1..]));
        if |s.plain| + |f| <= RING_CAP {
          var t := s.(reasm := s.reasm[|f|..], plain := s.plain + f);
          moved := UnpackMidway(t, unread, parts, bodies[1..], key);
          MovedOne(s.plain, bodies, moved);
          moved := moved + 1;
        }
      }
    }
  }

  lemma MovedOne(plain: Bytes, bodies: seq<Bytes>, moved: nat)
    requires bodies != [] && moved <= |bodies[1..]|
    ensures plain + Frame(bodies[0]) + Frames(bodies[1..][..moved]) == plain + Frames(bodies[..moved + 1])
    ensures bodies[1..][moved..] == bodies[moved + 1..]
  {
    assert bodies[..moved + 1][1..] == bodies[1..][..moved];
  }

  lemma HeadOfFrame(body: Bytes)
    ensures |Frame(body)| == 4 + |body|
  {
  }

  lemma LengthInFront(reasm: Bytes, more: Bytes, body: Bytes, rest: Bytes)
    requires 4 <= |body| <= MAX_WIRE && |reasm| >= 4 && reasm + more == Frame(body) + rest
    ensures Le32(reasm) % 0x8000_0000 == |body|
  {
    hide Bytes4;
    Le32OfBytes4(|body|, body + rest);
    var b := Bytes4(|body|) + (body + rest);
    assert reasm + more == b;
    assert forall i :: 0 <= i < 4 ==> reasm[i] == b[i];
  }

  // ---------- whole runs ----------

  datatype Act = Arrive(data: Bytes) | Take(cap: nat)

  function Do(s: Rx, a: Act, key: Keystream): (Rx, seq<Bytes>) {
    match a
    case Arrive(data) => (Arrived(s, data, key), [])
    case Take(cap) =>
      var (t, message) := Read(s, cap);
      (t, if message.Some? then [message.value] else [])
  }

  /** Bytes arriving in pieces of any size and reads, in any order: the state after them, and the messages read. */
  function Run(acts: seq<Act>, key: Keystream): (Rx, seq<Bytes>)
    decreases |acts|
  {
    if acts == [] then (Rx([], [], [], 0, false), [])
    else
      var (s, read) := Run(acts[..|acts| - 1], key);
      var (t, more) := Do(s, acts[|acts| - 1], key);
      (t, read + more)
  }

  function Received(acts: seq<Act>): Bytes
    decreases |acts|
  {
    if acts == [] then []
    else
      var a := acts[|acts| - 1];
      Received(acts[..|acts| - 1]) + (if a.Arrive? then a.data else [])
  }

  lemma {:induction false} DeframeKeepsRefused(s: Rx, key: Keystream)
    requires s.refused
    ensures Deframe(s, key).rx.refused
    decreases |s.inb|
  {
    hide Crypt, Parse;
    if s.inb != [] {
      var p := Parse(s.inb);
      if p.r == Ok {
        if p.data == [] {
          DeframeKeepsRefused(s.(inb := s.inb[p.consumed..]), key);
        } else if |s.reasm| + |p.data| <= RING_CAP {
          DeframeKeepsRefused(
            s.(inb := s.inb[p.consumed..], reasm := s.reasm + Crypt(key, s.pos, p.data), pos := s.pos + |p.data|), key);
        }
      }
    }
  }

  lemma {:induction false} UnpackKeepsRefused(s: Rx)
    ensures Unpack(s).rx.refused == s.refused
    decreases |s.reasm|
  {
    if |s.reasm| >= 4 {
      var len := Le32(s.reasm) % 0x8000_0000;
      if len < 4 || len > MAX_WIRE {
        UnpackKeepsRefused(s.(reasm := s.reasm[1..]));
      } else if |s.reasm| >= 4 + len && |s.plain| + 4 + len <= RING_CAP {
        UnpackKeepsRefused(s.(reasm := s.reasm[4 + len..], plain := s.plain + s.reasm[..4 + len]));
      }
    }
  }

  lemma DoKeepsRefused(s: Rx, a: Act, key: Keystream)
    requires s.refused || (a.Arrive? && |s.inb| + |a.data| > RING_CAP)
    ensures Do(s, a, key).0.refused
  {
    hide Deframe, Unpack;
    if a.Arrive? {
      var t := if |s.inb| + |a.data| > RING_CAP then s.(refused := true) else s.(inb := s.inb + a.data);
      DeframeKeepsRefused(t, key);
      if Deframe(t, key).ok { UnpackKeepsRefused(Deframe(t, key).rx); }
    }
  }

  /** Where a run stands: `read` messages read, `here` unpacked, the rest in the rings or still to come. */
  ghost predicate Stands(s: Rx, out: seq<Bytes>, unread: Bytes, parts: seq<Bytes>, bodies: seq<Bytes>, read: nat, here: nat, key: Keystream) {
    && read <= here <= |bodies|
    && out == bodies[..read]
    && s.plain == Frames(bodies[read..here])
    && Midway(s, unread, parts, bodies[here..], key)
    && (unread == [] ==> parts == [])
  }

  lemma {:induction false} FramesConcat(a: seq<Bytes>, b: seq<Bytes>)
    ensures Frames(a + b) == Frames(a) + Frames(b)
  {
    hide Frame;
    if a == [] {
      assert a + b == b;
    } else {
      FramesConcat(a[1..], b);
      assert (a + b)[1..] == a[1..] + b;
      ConcatAssoc(Frame(a[0]), Frames(a[1..]), Frames(b));
    }
  }

  lemma ConcatAssoc(a: Bytes, b: Bytes, c: Bytes)
    ensures a + (b + c) == a + b + c
  {
  }

  lemma ArriveStands(s: Rx, out: seq<Bytes>, data: Bytes, unread: Bytes, parts: seq<Bytes>, bodies: seq<Bytes>, read: nat, here: nat, key: Keystream)
    returns (parts': seq<Bytes>, here': nat)
    requires Stands(s, out, data + unread, parts, bodies, read, here, key) && |s.inb| + |data| <= RING_CAP
    ensures !Arrived(s, data, key).refused ==>
      && Stands(Arrived(s, data, key), out, unread, parts', bodies, read, here', key) && here <= here'
      && (unread == [] && Held(s) + |data| <= RING_CAP ==> here' == |bodies|)
      && (unread == [] && s.inb + data == [] && s.plain == [] && here < |bodies| ==> here < here')
  {
    hide Deframe, Unpack, Wire, Flat, Frames, Fit, Bodies;
    var t := s.(inb := s.inb + data);
    assert t.inb + unread == s.inb + (data + unread);
    parts' := DeframeMidway(t, unread, parts, bodies[here..], key);
    here' := here;
    var u := Deframe(t, key).rx;
    if !u.refused {
      if Held(s) + |data| <= RING_CAP && !s.refused { DeframeHolds(t, key); }
      var moved := UnpackMidway(u, unread, parts', bodies[here..], key);
      here' := here + moved;
      assert bodies[here..][moved..] == bodies[here'..];
      assert bodies[here..][..moved] == bodies[here..here'];
      assert bodies[read..here] + bodies[here..here'] == bodies[read..here'];
      FramesConcat(bodies[read..here], bodies[here..here']);
    } else if Deframe(t, key).ok {
      UnpackKeepsRefused(u);
    }
  }

  /** A read returns exactly the next message, or nothing when there is none or it does not fit. */
  lemma ReadIsNext(s: Rx, bodies: seq<Bytes>, cap: nat)
    requires s.plain == Frames(bodies) && Bodies(bodies)
    ensures Read(s, cap) ==
      if bodies == [] || |bodies[0]| > cap then (s, None) else (s.(plain := Frames(bodies[1..])), Some(bodies[0]))
  {
    hide Le32, Bytes4;
    if bodies != [] {
      assert s.plain == Frame(bodies[0]) + Frames(bodies[1..]);
      assert s.plain + [] == s.plain;
      LengthInFront(s.plain, [], bodies[0], Frames(bodies[1..]));
      HeadOfFrame(bodies[0]);
      assert s.plain[4..4 + |bodies[0]|] == bodies[0];
      assert s.plain[4 + |bodies[0]|..] == Frames(bodies[1..]);
    }
  }

  lemma TakeStands(s: Rx, out: seq<Bytes>, cap: nat, unread: Bytes, parts: seq<Bytes>, bodies: seq<Bytes>, read: nat, here: nat, key: Keystream)
    requires Bodies(bodies) && Stands(s, out, unread, parts, bodies, read, here, key)
    ensures var (t, more) := Do(s, Take(cap), key);
      var read' := if read == here || |bodies[read]| > cap then read else read + 1;
      Stands(t, out + more, unread, parts, bodies, read', here, key)
  {
    hide Wire, Flat, Frames, Fit, Read;
    ReadIsNext(s, bodies[read..here], cap);
    assert read < here ==> bodies[read..here][1..] == bodies[read + 1..here];
    assert read < here ==> bodies[..read] + [bodies[read]] == bodies[..read + 1];
  }

  lemma {:induction false} RunStands(acts: seq<Act>, unread: Bytes, parts: seq<Bytes>, bodies: seq<Bytes>, key: Keystream)
    returns (parts': seq<Bytes>, read: nat, here: nat)
    requires Fit(parts) && Bodies(bodies) && Flat(parts) == Frames(bodies)
    requires Received(acts) + unread == Wire(parts, key, 0)
    ensures var (s, out) := Run(acts, key);
      !s.refused ==>
        && Stands(s, out, unread, parts', bodies, read, here, key)
        && (unread == [] && |Received(acts)| <= RING_CAP ==> here == |bodies|)
    decreases |acts|
  {
    hide Stands, Wire, Flat, Frames, Fit, Bodies, Do, Arrived;
    if acts == [] {
      NothingYet(unread, parts, bodies, key);
      parts', read, here := parts, 0, 0;
    } else {
      var a := acts[|acts| - 1];
      var (s, out) := Run(acts[..|acts| - 1], key);
      var data := if a.Arrive? then a.data else [];
      assert Received(acts) + unread == Received(acts[..|acts| - 1]) + (data + unread);
      parts', read, here := RunStands(acts[..|acts| - 1], data + unread, parts, bodies, key);
      if s.refused || (a.Arrive? && |s.inb| + |a.data| > RING_CAP) {
        DoKeepsRefused(s, a, key);
      } else if a.Arrive? {
        if |Received(acts)| <= RING_CAP { NothingRefused(acts[..|acts| - 1], key); }
        parts', here := ArriveStands(s, out, a.data, unread, parts', bodies, read, here, key);
        DoArrive(s, a.data, key);
        assert out + [] == out;
      } else {
        assert data + unread == unread;
        StandsBound(s, out, unread, parts', bodies, read, here, key);
        TakeStands(s, out, a.cap, unread, parts', bodies, read, here, key);
        if read < here && |bodies[read]| <= a.cap { read := read + 1; }
      }
    }
  }

  lemma DoArrive(s: Rx, data: Bytes, key: Keystream)
    ensures Do(s, Arrive(data), key) == (Arrived(s, data, key), [])
  {
  }

  lemma StandsBound(s: Rx, out: seq<Bytes>, unread: Bytes, parts: seq<Bytes>, bodies: seq<Bytes>, read: nat, here: nat, key: Keystream)
    requires Stands(s, out, unread, parts, bodies, read, here, key)
    ensures read <= here <= |bodies| && out == bodies[..read]
  {
  }

  lemma NothingYet(unread: Bytes, parts: seq<Bytes>, bodies: seq<Bytes>, key: Keystream)
    requires Fit(parts) && Bodies(bodies) && Flat(parts) == Frames(bodies) && unread == Wire(parts, key, 0)
    ensures Stands(Rx([], [], [], 0, false), [], unread, parts, bodies, 0, 0, key)
    ensures unread == [] ==> bodies == []
  {
    assert bodies[0..] == bodies && bodies[0..0] == [];
    if parts != [] { ChunkNonempty(Crypt(key, 0, parts[0])); }
    if bodies != [] { HeadOfFrame(bodies[0]); }
  }

  /** What has been read is always a beginning of what was sent, message by message, however little has arrived. */
  lemma {:induction false} ReadsAreSentMessages(acts: seq<Act>, unread: Bytes, parts: seq<Bytes>, bodies: seq<Bytes>, key: Keystream)
    requires Fit(parts) && Bodies(bodies) && Flat(parts) == Frames(bodies)
    requires Received(acts) + unread == Wire(parts, key, 0)
    requires !Run(acts, key).0.refused
    ensures Run(acts, key).1 <= bodies
  {
    hide Wire, Flat, Frames, Fit, Bodies, Do, Run;
    var (s, out) := Run(acts, key);
    var parts', read, here := RunStands(acts, unread, parts, bodies, key);
    StandsBound(s, out, unread, parts', bodies, read, here, key);
  }

  /** Nothing is left but messages: some wait in plain_in, the others, for want of room there, in reasm_in. */
  ghost predicate AllHere(s: Rx, out: seq<Bytes>, bodies: seq<Bytes>, here: nat) {
    && |out| <= here <= |bodies| && out == bodies[..|out|] && !s.refused
    && s.inb == [] && s.plain == Frames(bodies[|out|..here]) && s.reasm == Frames(bodies[here..])
  }

  /**
   Once all bytes of the wire have arrived, in whatever pieces and with whatever reads between them,
   every message has been read or waits to be read, and no ring holds anything else. Up to 8 MiB none
   of them has to wait outside plain_in.
   */
  lemma {:induction false} EveryMessageArrives(acts: seq<Act>, parts: seq<Bytes>, bodies: seq<Bytes>, key: Keystream)
    returns (here: nat)
    requires Fit(parts) && Bodies(bodies) && Flat(parts) == Frames(bodies)
    requires Received(acts) == Wire(parts, key, 0)
    requires !Run(acts, key).0.refused
    ensures var (s, out) := Run(acts, key);
      && AllHere(s, out, bodies, here)
      && out <= bodies && s.plain + s.reasm == Frames(bodies[|out|..])
      && (|Received(acts)| <= RING_CAP ==> here == |bodies| && s.reasm == [])
  {
    hide Run, Do, Received, Wire, Flat, Frames, Fit, Bodies, Stands, AllHere;
    var (s, out) := Run(acts, key);
    assert Received(acts) + [] == Wire(parts, key, 0);
    var parts', read, h := RunStands(acts, [], parts, bodies, key);
    here := h;
    AllIn(s, out, parts', bodies, read, here, key);
  }

  lemma AllIn(s: Rx, out: seq<Bytes>, parts: seq<Bytes>, bodies: seq<Bytes>, read: nat, here: nat, key: Keystream)
    requires Stands(s, out, [], parts, bodies, read, here, key) && !s.refused
    ensures AllHere(s, out, bodies, here) && out <= bodies && s.plain + s.reasm == Frames(bodies[|out|..])
    ensures here == |bodies| ==> s.reasm == []
  {
    hide Frames, Flat, Wire, Fit, Bodies;
    NoParts(s.pos, key);
    NoFrames();
    assert s.reasm + [] == s.reasm && s.inb + [] == s.inb;
    FramesConcat(bodies[read..here], bodies[here..]);
    assert bodies[read..here] + bodies[here..] == bodies[read..];
    assert here == |bodies| ==> bodies[here..] == [];
  }

  function Takes(n: nat, cap: nat): seq<Act> {
    if n == 0 then [] else Takes(n - 1, cap) + [Take(cap)]
  }

  /** And then, if none waits outside plain_in, one read for each returns them all, in order and one at a time. */
  lemma {:induction false} ReadsReturnEverything(acts: seq<Act>, parts: seq<Bytes>, bodies: seq<Bytes>, key: Keystream, n: nat, cap: nat)
    requires Fit(parts) && Bodies(bodies) && Flat(parts) == Frames(bodies)
    requires Received(acts) == Wire(parts, key, 0)
    requires !Run(acts, key).0.refused && Run(acts, key).0.reasm == [] && cap >= MAX_WIRE
    ensures var (s, out) := Run(acts, key);
      var (t, all) := Run(acts + Takes(n, cap), key);
      all == bodies[..if |out| + n < |bodies| then |out| + n else |bodies|]
      && t.plain == Frames(bodies[|all|..])
    decreases n
  {
    hide Received, Wire, Flat, Frames, Fit, Bodies, Run;
    var here := EveryMessageArrives(acts, parts, bodies, key);
    assert Run(acts, key).0.plain + [] == Run(acts, key).0.plain;
    if n == 0 {
      assert acts + [] == acts;
    } else {
      ReadsReturnEverything(acts, parts, bodies, key, n - 1, cap);
      var before := acts + Takes(n - 1, cap);
      assert acts + Takes(n, cap) == before + [Take(cap)];
      OneMoreRead(before, bodies, key, cap);
    }
  }

  /** n times a pump that finds nothing new on the network, and a read. */
  function Rounds(n: nat, cap: nat): seq<Act> {
    if n == 0 then [] else Rounds(n - 1, cap) + [Arrive([]), Take(cap)]
  }

  /** Whatever plain_in had no room for, a later pump delivers: each pump and read return one more message. */
  lemma {:induction false} RoundsReturnEverything(acts: seq<Act>, parts: seq<Bytes>, bodies: seq<Bytes>, key: Keystream, n: nat, cap: nat)
    returns (here: nat)
    requires Fit(parts) && Bodies(bodies) && Flat(parts) == Frames(bodies)
    requires Received(acts) == Wire(parts, key, 0)
    requires !Run(acts, key).0.refused && cap >= MAX_WIRE
    ensures var (s, out) := Run(acts, key);
      var (t, all) := Run(acts + Rounds(n, cap), key);
      all == bodies[..if |out| + n < |bodies| then |out| + n else |bodies|] && AllHere(t, all, bodies, here)
    decreases n
  {
    hide Received, Wire, Flat, Frames, Fit, Bodies, Run, AllHere;
    if n == 0 {
      here := EveryMessageArrives(acts, parts, bodies, key);
      HereIsPart(Run(acts, key).0, Run(acts, key).1, bodies, here);
      assert acts + [] == acts;
    } else {
      here := RoundsReturnEverything(acts, parts, bodies, key, n - 1, cap);
      var before := acts + Rounds(n - 1, cap);
      assert acts + Rounds(n, cap) == before + [Arrive([]), Take(cap)];
      here := OneRound(before, bodies, here, key, cap);
    }
  }

  lemma HereIsPart(s: Rx, out: seq<Bytes>, bodies: seq<Bytes>, here: nat)
    requires AllHere(s, out, bodies, here)
    ensures |out| <= |bodies| && out == bodies[..|out|]
  {
  }

  lemma OneRound(before: seq<Act>, bodies: seq<Bytes>, here: nat, key: Keystream, cap: nat) returns (here': nat)
    requires Bodies(bodies) && cap >= MAX_WIRE
    requires var (s, out) := Run(before, key); AllHere(s, out, bodies, here)
    ensures var (s, out) := Run(before, key);
      var (t, all) := Run(before + [Arrive([]), Take(cap)], key);
      |out| <= |bodies| && all == bodies[..if |out| < |bodies| then |out| + 1 else |bodies|] && AllHere(t, all, bodies, here')
  {
    hide Run, Read, Frames, Arrived, Bodies, AllHere;
    var (s, out) := Run(before, key);
    var pumped := before + [Arrive([])];
    RunOneMore(before, Arrive([]), key);
    HereIsPart(s, out, bodies, here);
    here' := PumpMovesOn(s, out, bodies, here, key);
    var t := Arrived(s, [], key);
    assert out + [] == out;
    assert before + [Arrive([]), Take(cap)] == pumped + [Take(cap)];
    RunOneMore(pumped, Take(cap), key);
    if |out| < |bodies| { TakeNext(t, out, bodies, here', cap); } else { TakeNone(t, out, bodies, here', cap); }
  }

  /** With room for it, the next message is read. */
  lemma TakeNext(s: Rx, out: seq<Bytes>, bodies: seq<Bytes>, here: nat, cap: nat)
    requires cap >= MAX_WIRE && Bodies(bodies) && AllHere(s, out, bodies, here) && |out| < here
    ensures var (t, message) := Read(s, cap);
      message == Some(bodies[|out|]) && t.inb == s.inb && t.refused == s.refused
      && AllHere(t, out + [bodies[|out|]], bodies, here)
      && out + [bodies[|out|]] == bodies[..|out| + 1]
  {
    hide Frames, Read;
    ReadIsNext(s, bodies[|out|..here], cap);
    assert bodies[|out|..here][1..] == bodies[|out| + 1..here];
  }

  lemma TakeNone(s: Rx, out: seq<Bytes>, bodies: seq<Bytes>, here: nat, cap: nat)
    requires AllHere(s, out, bodies, here) && |out| == |bodies|
    ensures Read(s, cap) == (s, None) && out == bodies
  {
    assert bodies[|out|..here] == [];
  }

  lemma RunOneMore(before: seq<Act>, a: Act, key: Keystream)
    ensures var (s, out) := Run(before, key);
      var (t, more) := Do(s, a, key);
      Run(before + [a], key) == (t, out + more)
  {
    hide Do;
    assert (before + [a])[..|before|] == before;
  }

  /** A pump with nothing new fills plain_in from reasm_in; with plain_in empty it moves at least one message. */
  lemma PumpMovesOn(s: Rx, out: seq<Bytes>, bodies: seq<Bytes>, here: nat, key: Keystream) returns (here': nat)
    requires Bodies(bodies) && AllHere(s, out, bodies, here)
    ensures AllHere(Arrived(s, [], key), out, bodies, here')
    ensures |out| < |bodies| ==> |out| < here'
  {
    hide Unpack, Frames, Bodies;
    assert s.inb + [] == s.inb && s.reasm + [] == s.reasm;
    assert Deframe(s, key) == Outcome(s, true);
    BodiesTail(bodies, here);
    var moved := UnpackMidway(s, [], [], bodies[here..], key);
    here' := here + moved;
    var o := Unpack(s).rx;
    assert o.reasm + [] == o.reasm;
    assert bodies[here..][moved..] == bodies[here'..];
    assert bodies[here..][..moved] == bodies[here..here'];
    assert bodies[|out|..here] + bodies[here..here'] == bodies[|out|..here'];
    FramesConcat(bodies[|out|..here], bodies[here..here']);
    if |out| == here { assert bodies[|out|..here] == []; NoFrames(); }
  }

  lemma BodiesTail(bodies: seq<Bytes>, i: nat)
    requires Bodies(bodies) && i <= |bodies|
    ensures Bodies(bodies[i..])
  {
  }

  lemma NoParts(pos: nat, key: Keystream)
    ensures Flat([]) == [] && Wire([], key, pos) == []
  {
  }

  lemma NoFrames()
    ensures Frames([]) == []
  {
  }

  lemma OneMoreRead(before: seq<Act>, bodies: seq<Bytes>, key: Keystream, cap: nat)
    requires Bodies(bodies) && cap >= MAX_WIRE
    requires var (s, out) := Run(before, key); out <= bodies && s.plain == Frames(bodies[|out|..])
    ensures var (s, out) := Run(before, key);
      var (t, all) := Run(before + [Take(cap)], key);
      all == bodies[..if |out| < |bodies| then |out| + 1 else |bodies|] && t.plain == Frames(bodies[|all|..])
  {
    hide Frames, Read;
    var (s, out) := Run(before, key);
    assert (before + [Take(cap)])[..|before|] == before;
    ReadIsNext(s, bodies[|out|..], cap);
    if |out| < |bodies| {
      assert bodies[|out|..][0] == bodies[|out|];
      assert bodies[|out|..][1..] == bodies[|out| + 1..];
      assert bodies[..|out|] + [bodies[|out|]] == bodies[..|out| + 1];
    }
    assert out + [] == out;
  }

  /** The bytes in the receiving rings. */
  function Held(s: Rx): nat {
    |s.inb| + |s.reasm| + |s.plain|
  }

  lemma {:induction false} DeframeHolds(s: Rx, key: Keystream)
    requires Held(s) <= RING_CAP && !s.refused
    ensures !Deframe(s, key).rx.refused && Held(Deframe(s, key).rx) <= Held(s)
    decreases |s.inb|
  {
    hide Crypt, Parse;
    if s.inb != [] {
      var p := Parse(s.inb);
      if p.r == Ok {
        if p.data == [] {
          DeframeHolds(s.(inb := s.inb[p.consumed..]), key);
        } else {
          DeframeHolds(s.(inb := s.inb[p.consumed..], reasm := s.reasm + Crypt(key, s.pos, p.data), pos := s.pos + |p.data|), key);
        }
      }
    }
  }

  lemma {:induction false} UnpackHolds(s: Rx)
    requires Held(s) <= RING_CAP && !s.refused
    ensures !Unpack(s).rx.refused && Held(Unpack(s).rx) <= Held(s)
    decreases |s.reasm|
  {
    hide Le32;
    if |s.reasm| >= 4 {
      var len := Le32(s.reasm) % 0x8000_0000;
      if len < 4 || len > MAX_WIRE {
        UnpackHolds(s.(reasm := s.reasm[1..]));
      } else if |s.reasm| >= 4 + len {
        UnpackHolds(s.(reasm := s.reasm[4 + len..], plain := s.plain + s.reasm[..4 + len]));
      }
    }
  }

  /** No ring refuses anything before 8 MiB have come in, so the hypothesis of the theorems above can be met. */
  lemma {:induction false} NothingRefused(acts: seq<Act>, key: Keystream)
    requires |Received(acts)| <= RING_CAP
    ensures !Run(acts, key).0.refused && Held(Run(acts, key).0) <= |Received(acts)|
    decreases |acts|
  {
    hide Deframe, Unpack, Le32;
    if acts != [] {
      var a := acts[|acts| - 1];
      NothingRefused(acts[..|acts| - 1], key);
      var s := Run(acts[..|acts| - 1], key).0;
      if a.Arrive? {
        var t := s.(inb := s.inb + a.data);
        DeframeHolds(t, key);
        if Deframe(t, key).ok { UnpackHolds(Deframe(t, key).rx); }
      }
    }
  }

  // ---------- what a full reasm_in does ----------

  /** Different keys give different results. */
  lemma {:induction false} XorBitsKeys(y: nat, k1: nat, k2: nat, n: nat)
    requires k1 < Pow2(n) && k2 < Pow2(n) && XorBits(y, k1, n) == XorBits(y, k2, n)
    ensures k1 == k2
  {
    hide Mix;
    if n > 0 {
      var r1, r2 := XorBits(y / 2, k1 / 2, n - 1), XorBits(y / 2, k2 / 2, n - 1);
      LowBitOff(Mix(y, k1), r1);
      LowBitOff(Mix(y, k2), r2);
      XorBitsKeys(y / 2, k1 / 2, k2 / 2, n - 1);
      MixKeys(y, k1, k2);
    }
  }

  lemma MixKeys(y: nat, k1: nat, k2: nat)
    requires Mix(y, k1) == Mix(y, k2)
    ensures k1 % 2 == k2 % 2
  {
  }

  /** The keystream is the same i bytes after p and after q. */
  predicate SameKey(key: Keystream, p: nat, q: nat, i: nat) {
    key(p + i) == key(q + i)
  }

  /** Text encrypted at p and decrypted at q comes back exactly if the keystream repeats. */
  lemma CryptElsewhere(key: Keystream, p: nat, q: nat, text: Bytes)
    ensures Crypt(key, q, Crypt(key, p, text)) == text <==> forall i: nat :: i < |text| ==> SameKey(key, p, q, i)
  {
    var c := Crypt(key, p, text);
    CryptTwice(key, p, text);
    if Crypt(key, q, c) == text { SameText(key, p, q, c); }
    if forall i: nat :: i < |text| ==> SameKey(key, p, q, i) { SameKeys(key, p, q, c); }
  }

  lemma SameText(key: Keystream, p: nat, q: nat, c: Bytes)
    requires Crypt(key, q, c) == Crypt(key, p, c)
    ensures forall i: nat :: i < |c| ==> SameKey(key, p, q, i)
  {
    assert Pow2(8) == 256;
    forall i: nat | i < |c| ensures SameKey(key, p, q, i) {
      assert Crypt(key, q, c)[i] == Crypt(key, p, c)[i];
      XorBitsKeys(c[i], key(p + i), key(q + i), 8);
    }
  }

  lemma SameKeys(key: Keystream, p: nat, q: nat, c: Bytes)
    requires forall i: nat :: i < |c| ==> SameKey(key, p, q, i)
    ensures Crypt(key, q, c) == Crypt(key, p, c)
  {
    forall i: nat | i < |c| ensures Crypt(key, q, c)[i] == Crypt(key, p, c)[i] { assert SameKey(key, p, q, i); }
  }

  /**
   A chunk that reasm_in has no room for stays in in_ring to be tried again, but the cipher has moved
   past it. The next try, on a stream t with room, decrypts it at the wrong place: its text comes out
   if and only if the keystream repeats itself there.
   */
  lemma RefusedChunkRetried(s: Rx, t: Rx, part: Bytes, more: Bytes, key: Keystream)
    requires 1 <= |part| <= MAX_CHUNK && s.inb == Chunk(Crypt(key, s.pos, part)) + more
    requires |s.reasm| + |part| > RING_CAP
    requires t.inb == s.inb && t.pos == s.pos + |part| && |t.reasm| + |part| <= RING_CAP
    ensures Deframe(s, key) == Outcome(s.(pos := t.pos, refused := true), true)
    ensures var again := Crypt(key, t.pos, Crypt(key, s.pos, part));
      && Deframe(t, key) == Deframe(t.(inb := more, reasm := t.reasm + again, pos := t.pos + |part|), key)
      && (again == part <==> forall i: nat :: i < |part| ==> SameKey(key, s.pos, t.pos, i))
  {
    hide Deframe, Crypt, Chunk;
    var c := Crypt(key, s.pos, part);
    CryptElsewhere(key, s.pos, t.pos, part);
    FirstChunk(s, c, more, key);
    FirstChunk(t, c, more, key);
  }

  /** What Deframe does with a whole chunk in front. */
  lemma FirstChunk(s: Rx, c: Bytes, more: Bytes, key: Keystream)
    requires 1 <= |c| <= MAX_CHUNK && s.inb == Chunk(c) + more
    ensures Deframe(s, key) ==
      if |s.reasm| + |c| > RING_CAP then Outcome(s.(pos := s.pos + |c|, refused := true), true)
      else Deframe(s.(inb := more, reasm := s.reasm + Crypt(key, s.pos, c), pos := s.pos + |c|), key)
  {
    hide Parse, Chunk, Crypt;
    ParseInvertsWrite(c, more);
    ChunkNonempty(c);
    assert s.inb[|Chunk(c)|..] == more;
  }

  // ---------- chunks and messages of t3_client_write ----------

  /** One t3_client_write for each message: its frame is one chunk, for payloads of up to 65516 bytes. */
  lemma {:induction false} OneChunkPerMessage(bodies: seq<Bytes>)
    requires forall i :: 0 <= i < |bodies| ==> 4 <= |bodies[i]| <= 65516 + 15
    ensures Bodies(bodies) && Fit(FrameEach(bodies)) && Flat(FrameEach(bodies)) == Frames(bodies)
  {
    hide Frame;
    if bodies != [] {
      OneChunkPerMessage(bodies[1..]);
      HeadOfFrame(bodies[0]);
      var parts := FrameEach(bodies);
      forall i | 0 <= i < |parts| ensures 1 <= |parts[i]| <= MAX_CHUNK {
        if i > 0 { assert parts[i] == FrameEach(bodies[1..])[i - 1]; }
      }
      forall i | 0 <= i < |bodies| ensures 4 <= |bodies[i]| <= MAX_WIRE {
        if i > 0 { assert bodies[i] == bodies[1..][i - 1]; }
      }
    }
  }

  function FrameEach(bodies: seq<Bytes>): seq<Bytes> {
    if bodies == [] then [] else [Frame(bodies[0])] + FrameEach(bodies[1..])
  }

  // ---------- from the writing object to the reading one ----------

  /** What goes into each frame. */
  function Messages(payloads: seq<Bytes>, paddings: seq<Bytes>): (bodies: seq<Bytes>)
    requires |payloads| == |paddings|
    ensures |bodies| == |payloads|
  {
    seq(|payloads|, i requires 0 <= i < |payloads| => payloads[i] + paddings[i])
  }

  /** Payloads and paddings as t3_client_write takes and draws them, for which one chunk each is enough. */
  predicate Sendable(payloads: seq<Bytes>, paddings: seq<Bytes>) {
    && |payloads| == |paddings|
    && forall i :: 0 <= i < |payloads| ==>
         1 <= |payloads[i]| <= 65516 && |paddings[i]| <= 15 && |payloads[i]| + |paddings[i]| >= 4
  }

  lemma FlatFirst(parts: seq<Bytes>)
    requires parts != []
    ensures Flat(parts) == parts[0] + Flat(parts[1..])
  {
  }

  lemma FlatOfNone()
    ensures Flat([]) == []
  {
  }

  lemma {:induction false} WireConcat(a: seq<Bytes>, b: seq<Bytes>, key: Keystream, pos: nat)
    ensures Wire(a + b, key, pos) == Wire(a, key, pos) + Wire(b, key, pos + |Flat(a)|)
    decreases |a|
  {
    hide Chunk, Crypt, Flat;
    if a == [] {
      assert a + b == b;
      FlatOfNone();
    } else {
      WireConcat(a[1..], b, key, pos + |a[0]|);
      assert (a + b)[1..] == a[1..] + b;
      FlatFirst(a);
    }
  }

  lemma {:induction false} FlatAppend(parts: seq<Bytes>, part: Bytes)
    ensures Flat(parts + [part]) == Flat(parts) + part
  {
    if parts == [] {
      assert parts + [part] == [part];
      assert Flat([part][1..]) == [];
    } else {
      FlatAppend(parts[1..], part);
      assert (parts + [part])[1..] == parts[1..] + [part];
    }
  }

  lemma {:induction false} FrameEachConcat(a: seq<Bytes>, b: seq<Bytes>)
    ensures FrameEach(a + b) == FrameEach(a) + FrameEach(b)
  {
    hide Frame;
    if a == [] {
      assert a + b == b;
    } else {
      FrameEachConcat(a[1..], b);
      assert (a + b)[1..] == a[1..] + b;
    }
  }

  /** The wire form of the first i + 1 messages, from that of the first i; it is a part of that of all. */
  lemma WireNext(bodies: seq<Bytes>, i: nat, key: Keystream)
    requires i < |bodies|
    ensures var before, after := FrameEach(bodies[..i]), FrameEach(bodies[..i + 1]);
      var frame := Frame(bodies[i]);
      && Wire(after, key, 0) == Wire(before, key, 0) + Chunk(Crypt(key, |Flat(before)|, frame))
      && Flat(after) == Flat(before) + frame
      && |Wire(after, key, 0)| <= |Wire(FrameEach(bodies), key, 0)|
  {
    hide Frame, Chunk, Crypt, Wire, Flat;
    var before := FrameEach(bodies[..i]);
    assert bodies[..i + 1] == bodies[..i] + [bodies[i]];
    FrameEachConcat(bodies[..i], [bodies[i]]);
    FrameOfOne(bodies[i]);
    WireAppend(before, Frame(bodies[i]), key, 0);
    FlatAppend(before, Frame(bodies[i]));
    assert bodies == bodies[..i + 1] + bodies[i + 1..];
    FrameEachConcat(bodies[..i + 1], bodies[i + 1..]);
    WireConcat(FrameEach(bodies[..i + 1]), FrameEach(bodies[i + 1..]), key, 0);
  }

  lemma FrameOfOne(body: Bytes)
    ensures FrameEach([body]) == [Frame(body)]
  {
    assert FrameEach([body][1..]) == [];
  }

  lemma NothingSent(bodies: seq<Bytes>, key: Keystream)
    ensures Wire(FrameEach(bodies[..0]), key, 0) == [] && Flat(FrameEach(bodies[..0])) == []
  {
  }

  lemma FrameIsChunk(payloads: seq<Bytes>, paddings: seq<Bytes>, i: nat, key: Keystream, pos: nat)
    requires Sendable(payloads, paddings) && i < |payloads|
    ensures Messages(payloads, paddings)[i] == payloads[i] + paddings[i]
    ensures 1 <= |Chunk(Crypt(key, pos, Frame(Messages(payloads, paddings)[i])))| <= RING_CAP
  {
    hide Crypt, Hex;
    var body := Messages(payloads, paddings)[i];
    HeadOfFrame(body);
    HexFits(|Frame(body)|);
  }

  /**
   t3_client_write for one message after the other, each with a flush of which the network accepts as
   much as it will: what went out and what is still in the ring is the wire form of them all, unless
   the ring was full at some message. It never is when everything fits it, or when the network keeps up.
   */
  method SendAll(sender: Stream, payloads: seq<Bytes>, paddings: seq<Bytes>, accepted: seq<nat>)
    returns (sent: Bytes, full: bool)
    requires Sendable(payloads, paddings) && |accepted| == |payloads|
    requires sender.outRing == [] && sender.encPos == 0
    modifies sender
    ensures !full ==> sent + sender.outRing == Wire(FrameEach(Messages(payloads, paddings)), sender.encKey, 0)
    ensures |Wire(FrameEach(Messages(payloads, paddings)), sender.encKey, 0)| <= RING_CAP ==> !full
    ensures (forall i :: 0 <= i < |accepted| ==> accepted[i] >= RING_CAP) ==> !full && sender.outRing == []
  {
    hide Wire, Flat, FrameEach, Frame, Chunk, Crypt;
    ghost var bodies := Messages(payloads, paddings);
    NothingSent(bodies, sender.encKey);
    sent, full := [], false;
    for i := 0 to |payloads|
      invariant !full ==> sent + sender.outRing == Wire(FrameEach(bodies[..i]), sender.encKey, 0)
      invariant sender.encPos == |Flat(FrameEach(bodies[..i]))|
      invariant |Wire(FrameEach(bodies), sender.encKey, 0)| <= RING_CAP ==> !full
      invariant (forall k :: 0 <= k < |accepted| ==> accepted[k] >= RING_CAP) ==> !full && sender.outRing == []
    {
      WireNext(bodies, i, sender.encKey);
      FrameIsChunk(payloads, paddings, i, sender.encKey, sender.encPos);
      var before := |sender.outRing|;
      ghost var was := sender.outRing;
      var _ := sender.ClientWrite(payloads[i], paddings[i]);
      if |sender.outRing| == before { full := true; }
      ghost var now := sender.outRing;
      var more := sender.FlushOut(accepted[i]);
      assert !full ==> sent + now == sent + was + Chunk(Crypt(sender.encKey, |Flat(FrameEach(bodies[..i]))|, Frame(bodies[i])));
      assert sent + now == sent + more + sender.outRing;
      sent := sent + more;
    }
    assert bodies[..|bodies|] == bodies;
  }

  lemma {:induction false} DeframeShrinks(s: Rx, key: Keystream)
    ensures |Deframe(s, key).rx.inb| <= |s.inb|
    decreases |s.inb|
  {
    hide Crypt, Parse;
    if s.inb != [] {
      var p := Parse(s.inb);
      if p.r == Ok {
        if p.data == [] {
          DeframeShrinks(s.(inb := s.inb[p.consumed..]), key);
        } else if |s.reasm| + |p.data| <= RING_CAP {
          DeframeShrinks(
            s.(inb := s.inb[p.consumed..], reasm := s.reasm + Crypt(key, s.pos, p.data), pos := s.pos + |p.data|), key);
        }
      }
    }
  }

  lemma {:induction false} UnpackKeepsIn(s: Rx)
    ensures Unpack(s).rx.inb == s.inb
    decreases |s.reasm|
  {
    hide Le32;
    if |s.reasm| >= 4 {
      var len := Le32(s.reasm) % 0x8000_0000;
      if len < 4 || len > MAX_WIRE {
        UnpackKeepsIn(s.(reasm := s.reasm[1..]));
      } else if |s.reasm| >= 4 + len {
        UnpackKeepsIn(s.(reasm := s.reasm[4 + len..], plain := s.plain + s.reasm[..4 + len]));
      }
    }
  }

  lemma {:induction false} InRingBound(acts: seq<Act>, key: Keystream)
    ensures |Run(acts, key).0.inb| <= RING_CAP
    decreases |acts|
  {
    hide Deframe, Unpack, Le32;
    if acts != [] {
      var a := acts[|acts| - 1];
      InRingBound(acts[..|acts| - 1], key);
      var s := Run(acts[..|acts| - 1], key).0;
      if a.Arrive? {
        var t := if |s.inb| + |a.data| > RING_CAP then s.(refused := true) else s.(inb := s.inb + a.data);
        DeframeShrinks(t, key);
        UnpackKeepsIn(Deframe(t, key).rx);
      }
    }
  }

  /** Pieces of a size that size_t can tell. */
  predicate Pieces(acts: seq<Act>) {
    forall k :: 0 <= k < |acts| && acts[k].Arrive? ==> |acts[k].data| <= SIZE_MAX - RING_CAP
  }

  /** Pump and t3_client_read in any order. */
  method Serve(receiver: Stream, acts: seq<Act>) returns (messages: seq<Bytes>)
    requires receiver.Receiver() == Rx([], [], [], 0, false) && Pieces(acts)
    modifies receiver
    ensures (receiver.Receiver(), messages) == Run(acts, receiver.decKey)
    ensures |Received(acts)| <= RING_CAP ==> !receiver.refused
  {
    hide Received, Arrived, Read;
    messages := [];
    for i := 0 to |acts|
      invariant (receiver.Receiver(), messages) == Run(acts[..i], receiver.decKey)
    {
      assert acts[..i + 1][..i] == acts[..i];
      InRingBound(acts[..i], receiver.decKey);
      match acts[i]
      case Arrive(data) =>
        receiver.Pump(data);
        assert messages + [] == messages;
      case Take(cap) =>
        var message := receiver.ClientRead(cap);
        if message.Some? { messages := messages + [message.value]; } else { assert messages + [] == messages; }
    }
    assert acts[..|acts|] == acts;
    if |Received(acts)| <= RING_CAP { NothingRefused(acts, receiver.decKey); }
  }

  /** One pump and one read for each message that is left. */
  method ReadRest(receiver: Stream, n: nat, ghost out: seq<Bytes>, ghost bodies: seq<Bytes>, ghost all: bool) returns (rest: seq<Bytes>)
    requires |receiver.inRing| <= RING_CAP
    requires all ==> Bodies(bodies) && |out| + n == |bodies| && exists here :: AllHere(receiver.Receiver(), out, bodies, here)
    modifies receiver
    ensures all ==> out + rest == bodies && receiver.inRing == [] && receiver.reasmIn == [] && receiver.plainIn == []
    ensures old(receiver.refused) ==> receiver.refused
    ensures old(Held(receiver.Receiver())) <= RING_CAP && !old(receiver.refused) ==> !receiver.refused
  {
    hide Frames, Read, Arrived, Bodies, AllHere, Held;
    ghost var here: nat := 0;
    if all { here :| AllHere(receiver.Receiver(), out, bodies, here); }
    if all { HereIsPart(receiver.Receiver(), out, bodies, here); }
    rest := [];
    assert out + [] == out;
    for i := 0 to n
      invariant |receiver.inRing| <= RING_CAP && (old(receiver.refused) ==> receiver.refused)
      invariant old(Held(receiver.Receiver())) <= RING_CAP && !old(receiver.refused) ==>
        Held(receiver.Receiver()) <= RING_CAP && !receiver.refused
      invariant all ==> out + rest == bodies[..|out| + i] && AllHere(receiver.Receiver(), out + rest, bodies, here)
    {
      ghost var s := receiver.Receiver();
      if all { here := PumpMovesOn(s, out + rest, bodies, here, receiver.decKey); }
      PumpKeeps(s, receiver.decKey);
      receiver.Pump([]);
      if all { TakeNext(receiver.Receiver(), out + rest, bodies, here, MAX_WIRE); }
      ReadKeeps(receiver.Receiver(), MAX_WIRE);
      var message := receiver.ClientRead(MAX_WIRE);
      if message.Some? {
        assert out + rest + [message.value] == out + (rest + [message.value]);
        rest := rest + [message.value];
      }
    }
    if all {
      assert bodies[..|bodies|] == bodies;
      NothingLeft(receiver.Receiver(), bodies, here);
    }
  }

  lemma PumpKeeps(s: Rx, key: Keystream)
    requires |s.inb| <= RING_CAP
    ensures var t := Arrived(s, [], key);
      |t.inb| <= RING_CAP && (s.refused ==> t.refused)
      && (Held(s) <= RING_CAP && !s.refused ==> Held(t) <= RING_CAP && !t.refused)
  {
    hide Deframe, Unpack;
    assert s.inb + [] == s.inb;
    DeframeShrinks(s, key);
    UnpackKeepsIn(Deframe(s, key).rx);
    DoKeepsRefusedPump(s, key);
    if Held(s) <= RING_CAP && !s.refused {
      DeframeHolds(s, key);
      UnpackHolds(Deframe(s, key).rx);
    }
  }

  lemma ReadKeeps(s: Rx, cap: nat)
    ensures var t := Read(s, cap).0; t.inb == s.inb && t.refused == s.refused && Held(t) <= Held(s)
  {
    hide Le32;
  }

  lemma DoKeepsRefusedPump(s: Rx, key: Keystream)
    ensures s.refused ==> Arrived(s, [], key).refused
  {
    hide Arrived;
    if s.refused { DoKeepsRefused(s, Arrive([]), key); DoArrive(s, [], key); }
  }

  lemma NothingLeft(s: Rx, bodies: seq<Bytes>, here: nat)
    requires AllHere(s, bodies, bodies, here)
    ensures s.inb == [] && s.reasm == [] && s.plain == []
  {
    assert bodies[|bodies|..here] == [] && bodies[here..] == [];
  }

  /**
   What is written with t3_client_write comes out of t3_client_read, message by message and in order,
   for every cutting of the wire bytes and every interleaving of pumping and reading, as long as no
   ring but plain_in was too full. `acts` brings some beginning of the bytes; if it brings all of them,
   one more pump and read a message empties the stream.
   */
  method Exchange(sender: Stream, receiver: Stream, payloads: seq<Bytes>, paddings: seq<Bytes>, accepted: seq<nat>, acts: seq<Act>)
    returns (sent: Bytes, full: bool, messages: seq<Bytes>, rest: seq<Bytes>)
    requires sender != receiver && sender.encKey == receiver.decKey && Sendable(payloads, paddings)
    requires |accepted| == |payloads| && Pieces(acts)
    requires sender.outRing == [] && sender.encPos == 0 && receiver.Receiver() == Rx([], [], [], 0, false)
    requires Received(acts) <= Wire(FrameEach(Messages(payloads, paddings)), sender.encKey, 0)
    modifies sender, receiver
    ensures var wire := Wire(FrameEach(Messages(payloads, paddings)), sender.encKey, 0);
      && (!full ==> sent + sender.outRing == wire)
      && (|wire| <= RING_CAP ==> !full && !receiver.refused)
      && ((forall i :: 0 <= i < |accepted| ==> accepted[i] >= RING_CAP) ==> !full)
      && (!receiver.refused ==> messages <= Messages(payloads, paddings))
      && (!receiver.refused && Received(acts) == wire ==> messages + rest == Messages(payloads, paddings))
  {
    hide Wire, FrameEach, Run, Received, Frames, Flat, Fit, Bodies, AllHere;
    ghost var bodies := Messages(payloads, paddings);
    ghost var wire := Wire(FrameEach(bodies), sender.encKey, 0);
    sent, full := SendAll(sender, payloads, paddings, accepted);
    messages := Serve(receiver, acts);
    ghost var unread := wire[|Received(acts)|..];
    assert Received(acts) + unread == wire;
    OneChunkPerMessage(bodies);
    InRingBound(acts, receiver.decKey);
    ghost var all := Received(acts) == wire && !receiver.refused;
    if !receiver.refused { ReadsAreSentMessages(acts, unread, FrameEach(bodies), bodies, sender.encKey); }
    if all {
      var here := EveryMessageArrives(acts, FrameEach(bodies), bodies, sender.encKey);
    }
    if |wire| <= RING_CAP { NothingRefused(acts, receiver.decKey); }
    var left := if |messages| <= |payloads| then |payloads| - |messages| else 0;
    rest := ReadRest(receiver, left, messages, bodies, all);
  }
}
