/**
 The chunked transfer coding of section 7.1 of RFC 9112 as lib/src/t3_http_stream.c writes and
 parses it, one chunk at a time.
 */
module HttpChunk {
  import opened Common

  type Bytes = seq<byte>

  const CR: byte := 13
  const LF: byte := 10
  const SEMICOLON: byte := 59
  const SIZE_MAX: nat := 0xffff_ffff_ffff_ffff
  const MAX_CHUNK: nat := 65535

  // ---------- hexadecimal numbers ----------

  function HexDigit(d: nat): byte
    requires d < 16
  {
    if d < 10 then 48 + d else 97 + d - 10
  }

  /** The digits of n, most significant first, without leading zeros. */
  function Hex(n: nat): Bytes {
    if n < 16 then [HexDigit(n)] else Hex(n / 16) + [HexDigit(n % 16)]
  }

  /** '0'..'9', 'a'..'f' and 'A'..'F' */
  function DigitValue(c: byte): Option<nat> {
    if 48 <= c <= 57 then Some(c - 48)
    else if 97 <= c <= 102 then Some(c - 97 + 10)
    else if 65 <= c <= 70 then Some(c - 65 + 10)
    else None
  }

  /** The number written in hexadecimal, however long. */
  function HexValue(h: Bytes): Option<nat> {
    if h == [] then Some(0)
    else
      var high := HexValue(h[..|h| - 1]);
      var low := DigitValue(h[|h| - 1]);
      if high.Some? && low.Some? then Some(high.value * 16 + low.value) else None
  }

  lemma {:induction false} HexRoundTrip(n: nat)
    ensures |Hex(n)| >= 1 && HexValue(Hex(n)) == Some(n)
    ensures forall i :: 0 <= i < |Hex(n)| ==> DigitValue(Hex(n)[i]).Some?
  {
    if n >= 16 {
      HexRoundTrip(n / 16);
      assert Hex(n)[..|Hex(n)| - 1] == Hex(n / 16);
    } else {
      assert Hex(n)[..0] == [];
      assert HexValue(Hex(n)[..0]) == Some(0);
    }
  }

  lemma {:induction false} HexLength(n: nat, k: nat, bound: nat)
    requires n < bound && bound == Power16(k) && k >= 1
    ensures |Hex(n)| <= k
  {
    if n >= 16 {
      assert Power16(1) == 16;
      HexLength(n / 16, k - 1, Power16(k - 1));
    }
  }

  function Power16(k: nat): nat {
    if k == 0 then 1 else 16 * Power16(k - 1)
  }

  /** t3__size_to_hex: the digits are found backwards and then turned round. */
  method SizeToHex(val: nat, buf: array<byte>) returns (len: nat)
    requires val <= SIZE_MAX && buf.Length >= 32
    modifies buf
    ensures len <= buf.Length && buf[..len] == Hex(val)
  {
    if val == 0 {
      buf[0] := 48;
      assert buf[..1] == [48];
      return 1;
    }
    var tmp := new byte[32];
    var i := DigitsBackwards(val, tmp);
    ghost var t := tmp[..i];
    ReversedAll(t);
    var j := 0;
    while j < i
      invariant 0 <= j <= i && tmp[..i] == t
      invariant forall k :: 0 <= k < j ==> buf[k] == t[i - 1 - k]
    {
      buf[j] := tmp[i - 1 - j];
      j := j + 1;
    }
    assert buf[..i] == Reversed(t);
    len := i;
  }

  method DigitsBackwards(val: nat, tmp: array<byte>) returns (i: nat)
    requires 0 < val <= SIZE_MAX && tmp.Length == 32
    modifies tmp
    ensures i <= 32 && Reversed(tmp[..i]) == Hex(val)
  {
    var v: nat := val;
    i := 0;
    HexFits(val);
    while v > 0
      invariant 0 <= i <= 32
      invariant v == 0 ==> Reversed(tmp[..i]) == Hex(val)
      invariant v > 0 ==> Hex(v) + Reversed(tmp[..i]) == Hex(val)
      decreases v
    {
      ghost var before := Reversed(tmp[..i]);
      ReversedAll(tmp[..i]);
      assert |Hex(v)| >= 1;
      tmp[i] := HexDigit(v % 16);
      assert tmp[..i + 1][..i] == tmp[..i];
      assert Reversed(tmp[..i + 1]) == [HexDigit(v % 16)] + before;
      if v >= 16 { assert Hex(v / 16) + ([HexDigit(v % 16)] + before) == Hex(v) + before; }
      v := v / 16;
      i := i + 1;
    }
  }

  lemma HexFits(val: nat)
    requires val <= SIZE_MAX
    ensures |Hex(val)| <= 16
  {
    assert Power16(4) == 65536;
    assert Power16(8) == 65536 * 65536 by { assert Power16(6) == 256 * 65536; }
    assert Power16(12) == 65536 * 65536 * 65536 by { assert Power16(10) == 65536 * 65536 * 256; }
    assert Power16(16) == SIZE_MAX + 1 by { assert Power16(14) == 65536 * 65536 * 65536 * 256; }
    HexLength(val, 16, SIZE_MAX + 1);
  }

  function Reversed(s: Bytes): Bytes {
    if s == [] then [] else [s[|s| - 1]] + Reversed(s[..|s| - 1])
  }

  lemma {:induction false} ReversedAll(s: Bytes)
    ensures |Reversed(s)| == |s| && forall k :: 0 <= k < |s| ==> Reversed(s)[k] == s[|s| - 1 - k]
  {
    if s != [] { ReversedAll(s[..|s| - 1]); }
  }

  /** t3__hex_to_size */
  method HexToSize(hex: Bytes) returns (r: Option<nat>)
    ensures r.Some? <==> hex != [] && HexValue(hex).Some? && HexValue(hex).value <= SIZE_MAX
    ensures r.Some? ==> r == HexValue(hex)
  {
    if |hex| == 0 { return None; }
    var val, i := 0, 0;
    while i < |hex|
      invariant 0 <= i <= |hex| && val <= SIZE_MAX && HexValue(hex[..i]) == Some(val)
    {
      HexValueGrows(hex, i + 1);
      assert hex[..i + 1][..i] == hex[..i];
      var digit := DigitValue(hex[i]);
      if digit == None { return None; }
      if val > (SIZE_MAX - digit.value) / 16 { return None; }
      val := val * 16 + digit.value;
      i := i + 1;
    }
    assert hex[..i] == hex;
    r := Some(val);
  }

  /** A number is at least as large as any of its leading parts. */
  lemma {:induction false} HexValueGrows(h: Bytes, i: nat)
    requires i <= |h|
    ensures HexValue(h).Some? ==> HexValue(h[..i]).Some? && HexValue(h[..i]).value <= HexValue(h).value
    decreases |h|
  {
    if i < |h| {
      HexValueGrows(h[..|h| - 1], i);
      assert h[..|h| - 1][..i] == h[..i];
    } else {
      assert h[..i] == h;
    }
  }

  // ---------- writing ----------

  datatype Result = Ok | BufTooSmall | Malformed | InvalidArg

  /** A chunk on the wire: size in hexadecimal, CRLF, data, CRLF. */
  function Chunk(data: Bytes): Bytes {
    Hex(|data|) + [CR, LF] + data + [CR, LF]
  }

  const TERMINAL: Bytes := [48, CR, LF, CR, LF]

  /** t3_http_chunk_write */
  method ChunkWrite(out: array<byte>, data: Bytes) returns (r: Result, written: nat)
    requires |data| <= SIZE_MAX - 36
    modifies out
    ensures r == InvalidArg <==> data == []
    ensures r == BufTooSmall <==> data != [] && out.Length < |Chunk(data)|
    ensures r != Malformed
    ensures r == Ok ==> written == |Chunk(data)| <= out.Length && out[..written] == Chunk(data)
    ensures r != Ok ==> out[..] == old(out[..])
    ensures r == Ok ==> out[written..] == old(out[|Chunk(data)|..])
  {
    hide Hex;
    written := 0;
    if |data| == 0 { return InvalidArg, 0; }
    var hex := new byte[32];
    var hexLen := SizeToHex(|data|, hex);
    var required := hexLen + 2 + |data| + 2;
    if out.Length < required { return BufTooSmall, 0; }
    ghost var s0 := out[..];
    AppendLine(out, 0, hex[..hexLen]);
    ghost var s1 := out[..];
    assert [] + hex[..hexLen] == Hex(|data|);
    AppendLine(out, hexLen + 2, data);
    SameTail(s0, s1, hexLen + 2, required);
    written := required;
    r := Ok;
  }

  /** The bytes and the end of their line. */
  method AppendLine(out: array<byte>, at: nat, src: Bytes)
    requires at + |src| + 2 <= out.Length
    modifies out
    ensures out[..at + |src| + 2] == old(out[..at]) + src + [CR, LF]
    ensures out[at + |src| + 2..] == old(out[at + |src| + 2..])
  {
    ghost var s0 := out[..];
    Append(out, at, src);
    ghost var s1 := out[..];
    SameTail(s0, s1, at + |src|, at + |src| + 2);
    Append(out, at + |src|, [CR, LF]);
  }

  lemma SameTail(s: Bytes, t: Bytes, a: nat, b: nat)
    requires a <= b <= |s| == |t| && s[a..] == t[a..]
    ensures s[b..] == t[b..]
  {
    assert s[b..] == s[a..][b - a..];
    assert t[b..] == t[a..][b - a..];
  }

  /** memcpy (out + at, src, |src|) */
  method Append(out: array<byte>, at: nat, src: Bytes)
    requires at + |src| <= out.Length
    modifies out
    ensures out[..at + |src|] == old(out[..at]) + src
    ensures out[at + |src|..] == old(out[at + |src|..])
  {
    for i := 0 to |src|
      invariant out[..at + i] == old(out[..at]) + src[..i]
      invariant out[at + |src|..] == old(out[at + |src|..])
    {
      out[at + i] := src[i];
      assert src[..i + 1] == src[..i] + [src[i]];
      assert out[..at + i + 1] == out[..at + i] + [src[i]];
    }
  }

  // ---------- parsing ----------

  /** The place of the first CRLF at or after i, or |b|. */
  function FindCrlf(b: Bytes, i: nat): (k: nat)
    requires i <= |b|
    ensures i <= k <= |b|
    ensures k < |b| ==> k + 1 < |b| && b[k] == CR && b[k + 1] == LF
    ensures forall j :: i <= j < k && j + 1 < |b| ==> !(b[j] == CR && b[j + 1] == LF)
    decreases |b| - i
  {
    if i + 1 >= |b| then |b|
    else if b[i] == CR && b[i + 1] == LF then i
    else FindCrlf(b, i + 1)
  }

  /** The place of the first semicolon in the first n bytes, or n. */
  function FindSemi(b: Bytes, i: nat, n: nat): (k: nat)
    requires i <= n <= |b|
    ensures i <= k <= n
    ensures k < n ==> b[k] == SEMICOLON
    ensures forall j :: i <= j < k ==> b[j] != SEMICOLON
    decreases n - i
  {
    if i == n then n else if b[i] == SEMICOLON then i else FindSemi(b, i + 1, n)
  }

  datatype Parsed = Parsed(r: Result, data: Bytes, consumed: nat)

  function Fail(r: Result): Parsed {
    Parsed(r, [], 0)
  }

  /** What the header line, of length n, says: its extension may have 255 bytes, its size 65535. */
  function ParseHeader(b: Bytes, n: nat): Option<nat>
    requires n <= |b|
  {
    var h := FindSemi(b, 0, n);
    if n == 0 || (h < n && n - h - 1 > 255) || h == 0 then None
    else if HexValue(b[..h]).Some? && HexValue(b[..h]).value <= MAX_CHUNK then HexValue(b[..h])
    else None
  }

  /** The first chunk of b, if it is all there. */
  function Parse(b: Bytes): (p: Parsed)
    ensures p.r == Ok ==> |p.data| + 5 <= p.consumed <= |b|
  {
    if |b| < 2 then Fail(BufTooSmall)
    else
      var n := FindCrlf(b, 0);
      if n == |b| then Fail(if |b| > 16 + 2 + 255 then Malformed else BufTooSmall)
      else
        var size := ParseHeader(b, n);
        if size.None? then Fail(Malformed)
        else if |b| < n + 2 + size.value + 2 then Fail(BufTooSmall)
        else if b[n + 2 + size.value] != CR || b[n + 3 + size.value] != LF then Fail(Malformed)
        else Parsed(Ok, b[n + 2..n + 2 + size.value], n + 2 + size.value + 2)
  }

  method ScanCrlf(buf: Bytes) returns (k: nat)
    requires |buf| >= 2
    ensures k == FindCrlf(buf, 0)
  {
    var i := 0;
    while i < |buf| - 1
      invariant 0 <= i <= |buf| - 1 && FindCrlf(buf, 0) == FindCrlf(buf, i)
    {
      if buf[i] == CR && buf[i + 1] == LF { return i; }
      i := i + 1;
    }
    k := |buf|;
  }

  method ScanSemi(buf: Bytes, header: nat) returns (k: nat)
    requires header <= |buf|
    ensures k == FindSemi(buf, 0, header)
  {
    var i := 0;
    while i < header
      invariant 0 <= i <= header && FindSemi(buf, 0, header) == FindSemi(buf, i, header)
    {
      if buf[i] == SEMICOLON { return i; }
      i := i + 1;
    }
    k := header;
  }

  /** t3_http_chunk_parse */
  method ChunkParse(buf: Bytes) returns (p: Parsed)
    requires |buf| <= SIZE_MAX
    ensures p == Parse(buf)
  {
    hide FindCrlf, FindSemi, HexValue, DigitValue;
    if |buf| < 2 { return Fail(BufTooSmall); }
    var crlf1 := ScanCrlf(buf);
    if crlf1 == |buf| {
      return Fail(if |buf| > 16 + 2 + 255 then Malformed else BufTooSmall);
    }
    var header := crlf1;
    if header == 0 { return Fail(Malformed); }
    var hexLen := ScanSemi(buf, header);
    if hexLen < header && header - hexLen - 1 > 255 { return Fail(Malformed); }
    if hexLen == 0 { return Fail(Malformed); }
    var size := HexToSize(buf[..hexLen]);
    if size == None || size.value > MAX_CHUNK { return Fail(Malformed); }
    if size.value == 0 {
      var terminal := header + 2 + 2;
      if |buf| < terminal { return Fail(BufTooSmall); }
      if buf[crlf1 + 2] != CR || buf[crlf1 + 3] != LF { return Fail(Malformed); }
      return Parsed(Ok, [], terminal);
    }
    var headerLen := header + 2;
    var required := headerLen + size.value + 2;
    if |buf| < required { return Fail(BufTooSmall); }
    if buf[headerLen + size.value] != CR || buf[headerLen + size.value + 1] != LF { return Fail(Malformed); }
    p := Parsed(Ok, buf[headerLen..headerLen + size.value], required);
  }

  // ---------- what parsing promises ----------

  lemma {:induction false} FindCrlfInPrefix(b: Bytes, more: Bytes, i: nat)
    requires i <= |b|
    ensures FindCrlf(b, i) < |b| ==> FindCrlf(b + more, i) == FindCrlf(b, i)
    decreases |b| - i
  {
    if i + 1 < |b| && !(b[i] == CR && b[i + 1] == LF) { FindCrlfInPrefix(b, more, i + 1); }
  }

  lemma {:induction false} FindSemiInPrefix(b: Bytes, more: Bytes, i: nat, n: nat)
    requires i <= n <= |b|
    ensures FindSemi(b + more, i, n) == FindSemi(b, i, n)
    decreases n - i
  {
    if i < n && b[i] != SEMICOLON { FindSemiInPrefix(b, more, i + 1, n); }
  }

  /** A parsed chunk stays parsed, whatever arrives after it. */
  lemma ParseIsStable(b: Bytes, more: Bytes)
    requires Parse(b).r == Ok
    ensures Parse(b + more) == Parse(b) && Parse(b).consumed <= |b|
  {
    var n := FindCrlf(b, 0);
    FindCrlfInPrefix(b, more, 0);
    FindSemiInPrefix(b, more, 0, n);
    var h := FindSemi(b, 0, n);
    assert (b + more)[..h] == b[..h];
    var size := ParseHeader(b, n).value;
    assert (b + more)[n + 2..n + 2 + size] == b[n + 2..n + 2 + size];
  }

  lemma HexHeader(n: nat, b: Bytes)
    requires 1 <= n <= MAX_CHUNK && Hex(n) + [CR, LF] <= b
    ensures FindCrlf(b, 0) == |Hex(n)| && ParseHeader(b, |Hex(n)|) == Some(n)
  {
    var h := Hex(n);
    HexRoundTrip(n);
    assert forall i :: 0 <= i < |h| ==> b[i] == h[i];
    assert b[|h|] == CR && b[|h| + 1] == LF;
    assert b[..|h|] == h;
  }

  /** Parsing inverts writing, and reports how much to consume. */
  lemma ParseInvertsWrite(data: Bytes, rest: Bytes)
    requires 1 <= |data| <= MAX_CHUNK
    ensures Parse(Chunk(data) + rest) == Parsed(Ok, data, |Chunk(data)|)
  {
    var b, h := Chunk(data) + rest, Hex(|data|);
    assert b == h + [CR, LF] + (data + [CR, LF] + rest);
    HexHeader(|data|, b);
    assert b[|h| + 2..|h| + 2 + |data|] == data;
  }

  /** Every part of a chunk that stops short of its end asks for more. */
  lemma PartAsksForMore(data: Bytes, k: nat)
    requires 1 <= |data| <= MAX_CHUNK && k < |Chunk(data)|
    ensures Parse(Chunk(data)[..k]) == Fail(BufTooSmall)
  {
    hide Hex, FindCrlf, ParseHeader;
    var h := Hex(|data|);
    var b := Chunk(data)[..k];
    ShortHeader(|data|);
    if k >= |h| + 2 {
      assert b[..|h| + 2] == h + [CR, LF];
      HexHeader(|data|, b);
    } else if k >= 2 {
      HexRoundTrip(|data|);
      NoCrlf(b, |h|);
    }
  }

  /** Hexadecimal digits, and perhaps one byte more, hold no CRLF. */
  lemma NoCrlf(b: Bytes, n: nat)
    requires |b| <= n + 1 && forall i :: 0 <= i < n && i < |b| ==> DigitValue(b[i]).Some?
    ensures FindCrlf(b, 0) == |b|
  {
    assert forall i :: 0 <= i < n && i < |b| ==> b[i] != CR;
  }

  lemma ShortHeader(n: nat)
    requires n <= MAX_CHUNK
    ensures |Hex(n)| <= 4
  {
    assert Power16(4) == 65536;
    HexLength(n, 4, 65536);
  }

  /** The end of a body: a terminal chunk is recognised and carries nothing. */
  lemma TerminalParses(rest: Bytes)
    ensures Parse(TERMINAL + rest) == Parsed(Ok, [], 5)
  {
    var b := TERMINAL + rest;
    assert b[0] == 48 && b[1] == CR && b[2] == LF && b[3] == CR && b[4] == LF;
    assert FindCrlf(b, 0) == 1;
    assert FindSemi(b, 1, 1) == 1;
    assert b[..1][..0] == [];
    assert HexValue(b[..1][..0]) == Some(0);
  }
}
