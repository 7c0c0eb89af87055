/**
 The check of domain bytes in lib/src/t3_secret.c: exactly the encodings, as section 3 of RFC 3629
 defines them, of texts without control characters.
 */
module Utf8 {
  import opened Common

  type Bytes = seq<byte>

  // ---------- the specification ----------

  /** A Unicode scalar value, and neither one of U+0000..U+001F nor U+007F. */
  predicate Allowed(c: nat) {
    (0x20 <= c < 0x7f || 0x80 <= c <= 0xd7ff || 0xe000 <= c <= 0x10ffff)
  }

  function Encode(c: nat): (e: Bytes)
    requires Allowed(c)
    ensures 1 <= |e| <= 4
  {
    if c < 0x80 then [c]
    else if c < 0x800 then [0xc0 + c / 64, 0x80 + c % 64]
    else if c < 0x1_0000 then [0xe0 + c / 4096, 0x80 + c / 64 % 64, 0x80 + c % 64]
    else [0xf0 + c / 262144, 0x80 + c / 4096 % 64, 0x80 + c / 64 % 64, 0x80 + c % 64]
  }

  predicate AllAllowed(t: seq<nat>) {
    forall i :: 0 <= i < |t| ==> Allowed(t[i])
  }

  function EncodeAll(t: seq<nat>): Bytes
    requires AllAllowed(t)
  {
    if t == [] then [] else Encode(t[0]) + EncodeAll(t[1..])
  }

  ghost predicate Encodes(s: Bytes, t: seq<nat>) {
    AllAllowed(t) && s == EncodeAll(t)
  }

  ghost predicate IsText(s: Bytes) {
    exists t :: Encodes(s, t)
  }

  // ---------- one character at a time ----------

  predicate Continues(b: byte) {
    b / 64 == 2
  }

  /** What the first byte announces: the length of the character, and its own share of the value. */
  function Announced(b: byte): (n: nat)
    ensures n <= 4
  {
    if b < 0x80 then 1 else if b < 0xc0 then 0 else if b < 0xe0 then 2 else if b < 0xf0 then 3 else if b < 0xf8 then 4 else 0
  }

  /** The value of the first character, by its bits alone. */
  function Value(s: Bytes): nat
    requires s != [] && Announced(s[0]) <= |s|
    requires forall i :: 1 <= i < Announced(s[0]) ==> Continues(s[i])
  {
    match Announced(s[0])
    case 1 => s[0]
    case 2 => Join(s[0] - 0xc0, s[1])
    case 3 => Join(Join(s[0] - 0xe0, s[1]), s[2])
    case 4 => Join(Join(Join(s[0] - 0xf0, s[1]), s[2]), s[3])
    case _ => 0
  }

  /** Six more bits, from a continuation byte. */
  function Join(high: nat, b: byte): nat
    requires Continues(b)
  {
    high * 64 + (b - 0x80)
  }

  /** The fewest bytes that can carry the value. */
  function Shortest(c: nat): nat {
    if c < 0x80 then 1 else if c < 0x800 then 2 else if c < 0x1_0000 then 3 else 4
  }

  /** s begins with a character that is complete, allowed, and no longer than it must be. */
  predicate Begins(s: Bytes) {
    && s != [] && 1 <= Announced(s[0]) <= |s|
    && (forall i :: 1 <= i < Announced(s[0]) ==> Continues(s[i]))
    && Allowed(Value(s)) && Shortest(Value(s)) == Announced(s[0])
  }

  /** An encoded character is read back, whatever follows. */
  lemma EncodedBegins(c: nat, rest: Bytes)
    requires Allowed(c)
    ensures Begins(Encode(c) + rest) && Value(Encode(c) + rest) == c && Announced((Encode(c) + rest)[0]) == |Encode(c)|
  {
    var s := Encode(c) + rest;
    assert forall i :: 0 <= i < |Encode(c)| ==> s[i] == Encode(c)[i];
    Digits64(c);
    if c < 0x80 {
    } else if c < 0x800 {
      EncodedTail(c);
    } else if c < 0x1_0000 {
      EncodedTail(c);
      EncodedTail(c / 64);
    } else {
      EncodedTail(c);
      EncodedTail(c / 64);
      EncodedTail(c / 4096);
    }
  }

  lemma EncodedTail(c: nat)
    ensures Continues(0x80 + c % 64) && Join(c / 64, 0x80 + c % 64) == c
  {
  }

  lemma Digits64(c: nat)
    ensures c == c / 64 * 64 + c % 64
    ensures c / 64 == c / 4096 * 64 + c / 64 % 64
    ensures c / 4096 == c / 262144 * 64 + c / 4096 % 64
  {
  }

  /** And only an encoded character is read. */
  lemma BeginsWithEncoding(s: Bytes)
    requires Begins(s)
    ensures s[..Announced(s[0])] == Encode(Value(s))
  {
    hide Join, Continues;
    match Announced(s[0])
    case 1 => assert s[..1] == [s[0]];
    case 2 =>
      SplitJoin(s[0] - 0xc0, s[1]);
      assert s[..2] == [s[0], s[1]];
    case 3 =>
      SplitJoin(s[0] - 0xe0, s[1]);
      SplitJoin(Join(s[0] - 0xe0, s[1]), s[2]);
      Nested(Value(s));
      assert s[..3] == [s[0], s[1], s[2]];
    case 4 =>
      SplitJoin(s[0] - 0xf0, s[1]);
      SplitJoin(Join(s[0] - 0xf0, s[1]), s[2]);
      SplitJoin(Join(Join(s[0] - 0xf0, s[1]), s[2]), s[3]);
      Nested(Value(s));
      assert s[..4] == [s[0], s[1], s[2], s[3]];
    case _ =>
  }

  lemma SplitJoin(high: nat, b: byte)
    requires Continues(b)
    ensures Join(high, b) / 64 == high && 0x80 + Join(high, b) % 64 == b
  {
  }

  lemma Nested(c: nat)
    ensures c / 4096 == c / 64 / 64 && c / 262144 == c / 64 / 64 / 64
  {
  }

  /** A text is empty, or one character and a text. */
  lemma TextStep(s: Bytes)
    ensures IsText(s) <==> s == [] || (Begins(s) && IsText(s[Announced(s[0])..]))
  {
    hide Allowed, Encode, Announced, Value, Begins;
    if s == [] {
      assert Encodes([], []);
    } else {
      if IsText(s) {
        var t :| Encodes(s, t);
        var rest := EncodeAll(t[1..]);
        EncodedBegins(t[0], rest);
        assert s == Encode(t[0]) + rest;
        assert s[|Encode(t[0])|..] == rest;
        assert Encodes(rest, t[1..]);
      }
      if Begins(s) {
        TextPrepend(s);
      }
    }
  }

  lemma TextPrepend(s: Bytes)
    requires Begins(s)
    ensures IsText(s[Announced(s[0])..]) ==> IsText(s)
  {
    hide Encode, Announced, Value;
    var n := Announced(s[0]);
    BeginsWithEncoding(s);
    if IsText(s[n..]) {
      var t :| Encodes(s[n..], t);
      var u := [Value(s)] + t;
      assert u[1..] == t;
      assert s == s[..n] + s[n..];
      assert Encodes(s, u);
    }
  }

  // ---------- validate_utf8_and_controls ----------

  /** The body of the loop: the length of the character at i, or 0 to reject. */
  method Step(buf: Bytes, i: nat) returns (n: nat)
    requires i < |buf|
    ensures n == if Begins(buf[i..]) then Announced(buf[i]) else 0
  {
    var s := buf[i..];
    assert s[0] == buf[i];
    assert forall k :: 0 <= k < |s| ==> s[k] == buf[i + k];
    var b := buf[i];
    if b <= 0x1f || b == 0x7f { return 0; }
    if b <= 0x7f { return 1; }
    if b <= 0xc1 { return 0; }
    if b <= 0xdf {
      if i + 1 >= |buf| { return 0; }
      if buf[i + 1] / 64 != 2 { assert !Continues(s[1]); return 0; }
      return 2;
    } else if b <= 0xef {
      if i + 2 >= |buf| { return 0; }
      var b2, b3 := buf[i + 1], buf[i + 2];
      if b2 / 64 != 2 || b3 / 64 != 2 { assert !Continues(s[1]) || !Continues(s[2]); return 0; }
      if b == 0xe0 && b2 < 0xa0 { return 0; }
      if b == 0xed && b2 >= 0xa0 { return 0; }
      return 3;
    } else if b <= 0xf4 {
      if i + 3 >= |buf| { return 0; }
      var b2, b3, b4 := buf[i + 1], buf[i + 2], buf[i + 3];
      if b2 / 64 != 2 || b3 / 64 != 2 || b4 / 64 != 2 {
        assert !Continues(s[1]) || !Continues(s[2]) || !Continues(s[3]);
        return 0;
      }
      if b == 0xf0 && b2 < 0x90 { return 0; }
      if b == 0xf4 && b2 > 0x8f { return 0; }
      return 4;
    } else {
      return 0;
    }
  }

  /** Accepted if and only if it is the encoding of a text without control characters. */
  method Validate(buf: Bytes) returns (ok: bool)
    ensures ok <==> IsText(buf)
  {
    hide *;
    var i := 0;
    assert buf[0..] == buf;
    while i < |buf|
      invariant 0 <= i <= |buf| && (IsText(buf[i..]) <==> IsText(buf))
    {
      TextStep(buf[i..]);
      assert buf[i..][0] == buf[i];
      var n := Step(buf, i);
      StepFits(buf[i..]);
      if n == 0 { return false; }
      assert buf[i..][n..] == buf[i + n..];
      i := i + n;
    }
    TextStep(buf[i..]);
    ok := true;
  }

  lemma StepFits(s: Bytes)
    ensures Begins(s) ==> 1 <= Announced(s[0]) <= |s|
  {
  }
}
