/**
 The rejection samplers (lib/src/t3_padding.c, t3__rng_range; lib/src/t3_timing.c) and the
 payload splitter built on the first of them (lib/src/t3_padding.c, t3_split_plan).

 The random generator is a tape of its answers. A tape is finite, so a sampler that never
 likes what it gets comes to the end of it: Pending, the call that has not returned.
 */
module Padding {

  const SIZE_MAX: nat := 0xffff_ffff_ffff_ffff
  const UINT32_MAX: nat := 0xffff_ffff
  const UINT64_MAX: nat := 0xffff_ffff_ffff_ffff

  /** Pending: the call has not returned. Fault: it has divided by zero. */
  datatype Result = Ok | InvalidArg | BufTooSmall | ErrRng | Internal | Pending | Fault

  /** One call of the generator: it fails, or fills the buffer, read as one little-endian number. */
  datatype Draw = Fails | Word(value: nat)

  // ---------- rejection sampling ----------

  function Buckets(wordMax: nat, range: nat): nat
    requires range > 0
  {
    wordMax / range
  }

  function Cutoff(wordMax: nat, range: nat): nat
    requires range > 0
  {
    Buckets(wordMax, range) * range
  }

  /** The words that sampling from lo .. lo + range - 1 accepts and turns into v. */
  function Hits(wordMax: nat, lo: nat, range: nat, v: nat): set<nat>
    requires range > 0
  {
    set w: nat | w <= wordMax && w < Cutoff(wordMax, range) && lo + w % range == v
  }

  function Congruent(n: nat, range: nat, x: nat): set<nat>
    requires range > 0
  {
    set w: nat | w < n && w % range == x
  }

  /** Exactly b numbers below b * range leave remainder x. */
  lemma {:induction false} CongruentCount(b: nat, range: nat, x: nat)
    requires x < range
    ensures |Congruent(b * range, range, x)| == b
  {
    if b == 0 {
      assert Congruent(0, range, x) == {};
    } else {
      CongruentCount(b - 1, range, x);
      var low := (b - 1) * range;
      assert b * range == low + range;
      forall w: nat | low <= w < low + range ensures w % range == w - low { Remainder(b - 1, range, w); }
      assert Congruent(b * range, range, x) == Congruent(low, range, x) + {low + x};
    }
  }

  lemma Remainder(q: nat, range: nat, w: nat)
    requires q * range <= w < q * range + range
    ensures w % range == w - q * range
  {
    assert w == range * (w / range) + w % range;
    if w / range < q { LessTimes(w / range + 1, q, range); }
    if w / range > q { LessTimes(q + 1, w / range, range); }
  }

  lemma LessTimes(a: nat, b: nat, range: nat)
    requires a <= b
    ensures a * range <= b * range
  {
  }

  /** Every value of the range is hit by exactly as many words as every other. */
  lemma ExactlyUniform(wordMax: nat, lo: nat, range: nat, v: nat)
    requires 0 < range <= wordMax && lo <= v < lo + range
    ensures |Hits(wordMax, lo, range, v)| == Buckets(wordMax, range) >= 1
  {
    CongruentCount(Buckets(wordMax, range), range, v - lo);
    CutoffFits(wordMax, range);
    assert Hits(wordMax, lo, range, v) == Congruent(Cutoff(wordMax, range), range, v - lo);
  }

  lemma CutoffFits(wordMax: nat, range: nat)
    requires 0 < range <= wordMax
    ensures Cutoff(wordMax, range) <= wordMax && Buckets(wordMax, range) >= 1
  {
    assert wordMax == range * (wordMax / range) + wordMax % range;
    OneFits(wordMax, range);
  }

  lemma OneFits(n: nat, d: nat)
    requires 0 < d <= n
    ensures n / d >= 1
  {
  }

  /** The draws from `from` to `next`: all rejected but the last, which gave the result. */
  ghost predicate Drawn(tape: seq<Draw>, from: nat, next: nat, wordMax: nat, range: nat, r: Result) {
    && 0 < range
    && from <= next <= |tape|
    && (forall i :: from <= i < next && i < next - (if r == Pending then 0 else 1) ==>
          tape[i].Word? && tape[i].value >= Cutoff(wordMax, range))
    && (r == Ok ==> from < next && tape[next - 1].Word? && tape[next - 1].value < Cutoff(wordMax, range))
    && (r == ErrRng ==> from < next && tape[next - 1].Fails?)
    && (r == Pending ==> next == |tape|)
  }

  datatype Pick = Pick(r: Result, offset: nat, next: nat)

  /** The first word below the cutoff decides. */
  ghost function Picked(tape: seq<Draw>, from: nat, wordMax: nat, range: nat): Pick
    requires from <= |tape| && 0 < range
    decreases |tape| - from
  {
    if from == |tape| then Pick(Pending, 0, from)
    else if tape[from].Fails? then Pick(ErrRng, 0, from + 1)
    else if tape[from].value < Cutoff(wordMax, range) then Pick(Ok, tape[from].value % range, from + 1)
    else Picked(tape, from + 1, wordMax, range)
  }

  /**
   t3__rng_range: an accepted word chooses the value; its words have 32 bits. A range of more than
   UINT32_MAX values leaves no word to accept: the cutoff is then 0.
   */
  method RngRange(tape: seq<Draw>, from: nat, lo: nat, hi: nat) returns (r: Result, value: nat, next: nat)
    requires from <= |tape| && lo <= hi <= SIZE_MAX && hi - lo + 1 <= SIZE_MAX
    ensures r == Ok || r == ErrRng || r == Pending
    ensures Drawn(tape, from, next, UINT32_MAX, hi - lo + 1, r)
    ensures r == Ok ==> lo <= value <= hi && tape[next - 1].value in Hits(UINT32_MAX, lo, hi - lo + 1, value)
    ensures hi - lo + 1 > UINT32_MAX ==> r != Ok
    ensures Picked(tape, from, UINT32_MAX, hi - lo + 1) == Pick(r, if r == Ok then value - lo else 0, next)
  {
    r, value, next := Sample(tape, from, lo, hi - lo + 1, UINT32_MAX);
  }

  /** t3_timing_rejection_sample_uniform_ns: the same with words of 64 bits, where 2^64 values are counted as 0. */
  method SampleUniformNs(tape: seq<Draw>, from: nat, lo: nat, hi: nat) returns (r: Result, value: nat, next: nat)
    requires from <= |tape| && lo <= UINT64_MAX && hi <= UINT64_MAX
    ensures r == InvalidArg <==> hi < lo
    ensures r == Fault <==> lo == 0 && hi == UINT64_MAX
    ensures r == Ok || r == ErrRng || r == Pending || r == InvalidArg || r == Fault
    ensures r != InvalidArg && r != Fault ==> Drawn(tape, from, next, UINT64_MAX, hi - lo + 1, r)
    ensures r == Ok ==> lo <= value <= hi && tape[next - 1].value in Hits(UINT64_MAX, lo, hi - lo + 1, value)
  {
    if hi < lo { return InvalidArg, 0, from; }
    var range := (hi - lo + 1) % (UINT64_MAX + 1);
    if range == 0 { return Fault, 0, from; }
    r, value, next := Sample(tape, from, lo, range, UINT64_MAX);
  }

  /** The loop that both samplers consist of. */
  method Sample(tape: seq<Draw>, from: nat, lo: nat, range: nat, wordMax: nat) returns (r: Result, value: nat, next: nat)
    requires from <= |tape| && 0 < range
    ensures r == Ok || r == ErrRng || r == Pending
    ensures Drawn(tape, from, next, wordMax, range, r)
    ensures r == Ok ==> lo <= value < lo + range && tape[next - 1].value in Hits(wordMax, lo, range, value)
    ensures range > wordMax ==> r != Ok
    ensures Picked(tape, from, wordMax, range) == Pick(r, if r == Ok then value - lo else 0, next)
  {
    var buckets := wordMax / range;
    var cutoff := buckets * range;
    assert cutoff == Cutoff(wordMax, range);
    CutoffOf(wordMax, range);
    value, next := 0, from;
    while next < |tape|
      invariant from <= next <= |tape|
      invariant forall i :: from <= i < next ==> tape[i].Word? && tape[i].value >= cutoff
      invariant Picked(tape, from, wordMax, range) == Picked(tape, next, wordMax, range)
    {
      next := next + 1;
      if tape[next - 1].Fails? { return ErrRng, 0, next; }
      var w := tape[next - 1].value;
      if w < cutoff {
        value := lo + w % range;
        assert w in Hits(wordMax, lo, range, value);
        return Ok, value, next;
      }
    }
    r := Pending;
  }

  lemma CutoffOf(wordMax: nat, range: nat)
    requires 0 < range
    ensures Cutoff(wordMax, range) <= wordMax
    ensures range > wordMax ==> Cutoff(wordMax, range) == 0
    ensures range <= wordMax ==> range <= Cutoff(wordMax, range)
  {
    if range <= wordMax {
      CutoffFits(wordMax, range);
      LessTimes(1, Buckets(wordMax, range), range);
    } else {
      SmallOver(wordMax, range);
    }
  }

  lemma SmallOver(n: nat, d: nat)
    requires n < d
    ensures n / d == 0
  {
  }

  // ---------- t3_split_plan ----------

  function Sum(s: seq<nat>): nat {
    if s == [] then 0 else s[0] + Sum(s[1..])
  }

  /** What so many chunks can hold. */
  function Room(slots: nat, maxChunk: nat): nat {
    slots * maxChunk
  }

  /** Room(slots, maxChunk), or SIZE_MAX where the product does not fit. */
  function Cover(slots: nat, maxChunk: nat): nat {
    if slots > 0 && maxChunk > SIZE_MAX / slots then SIZE_MAX else Room(slots, maxChunk)
  }

  /** Up to SIZE_MAX a capped product compares like the product. */
  lemma CoverCompares(slots: nat, maxChunk: nat, len: nat)
    requires len <= SIZE_MAX
    ensures len <= Cover(slots, maxChunk) <==> len <= Room(slots, maxChunk)
  {
    if slots > 0 {
      assert SIZE_MAX == slots * (SIZE_MAX / slots) + SIZE_MAX % slots;
      if maxChunk > SIZE_MAX / slots {
        LessTimes(SIZE_MAX / slots + 1, maxChunk, slots);
      } else {
        LessTimes(maxChunk, SIZE_MAX / slots, slots);
      }
    }
  }

  lemma CoverExact(slots: nat, maxChunk: nat, len: nat)
    requires len <= SIZE_MAX
    ensures len > Cover(slots, maxChunk) ==> Cover(slots, maxChunk) == Room(slots, maxChunk)
  {
  }

  lemma RoomNext(slots: nat, maxChunk: nat)
    ensures Room(slots + 1, maxChunk) == Room(slots, maxChunk) + maxChunk
    ensures Room(0, maxChunk) == 0 && Room(1, maxChunk) == maxChunk
  {
  }

  lemma MoreRoom(a: nat, b: nat, small: nat, big: nat)
    requires a <= b && small <= big
    ensures Room(a, small) <= Room(b, big)
  {
    LessTimes(a, b, small);
    LessTimes(small, big, b);
  }

  /** The checks at the entry. */
  predicate Sound(totalLen: nat, minChunk: nat, maxChunk: nat, maxChunks: nat) {
    totalLen >= 1 && minChunk >= 1 && maxChunk >= minChunk && totalLen >= minChunk && maxChunks != 0
  }

  predicate Chunks(s: seq<nat>, minChunk: nat, maxChunk: nat) {
    forall i :: 0 <= i < |s| ==> minChunk <= s[i] <= maxChunk
  }

  /** 2 * min_chunk, in the width of size_t. */
  function Twice(n: nat): (t: nat)
    ensures 2 * n <= SIZE_MAX ==> t == 2 * n
  {
    2 * n % (SIZE_MAX + 1)
  }

  /** The least next chunk whose remainder the slots after it can cover. */
  function Low(remLen: nat, minChunk: nat, maxChunk: nat, remSlots: nat): (low: nat)
    ensures low >= minChunk && low + Room(remSlots, maxChunk) >= remLen
  {
    if remLen > Room(remSlots, maxChunk) + minChunk then remLen - Room(remSlots, maxChunk) else minChunk
  }

  /** The greatest that leaves a chunk. */
  function High(remLen: nat, minChunk: nat, maxChunk: nat): nat
    requires minChunk <= remLen
  {
    if remLen - minChunk < maxChunk then remLen - minChunk else maxChunk
  }

  /** The bounds of the next chunk, with products capped at SIZE_MAX. */
  method Bounds(remLen: nat, minChunk: nat, maxChunk: nat, remSlots: nat) returns (low: nat, high: nat)
    requires 1 <= minChunk <= remLen <= SIZE_MAX
    ensures low >= minChunk && low + Room(remSlots, maxChunk) >= remLen
    ensures low == Low(remLen, minChunk, maxChunk, remSlots) && high == High(remLen, minChunk, maxChunk)
    ensures minChunk <= maxChunk && remLen <= Room(remSlots + 1, maxChunk) && 1 <= remSlots ==>
      (low <= high <==> 2 * minChunk <= remLen)
  {
    CoverCompares(remSlots, maxChunk, remLen);
    CoverExact(remSlots, maxChunk, remLen);
    BoundsMeet(remLen, minChunk, maxChunk, remSlots);
    hide Room, Cover;
    var cover := Cover(remSlots, maxChunk);
    low := minChunk;
    if remLen > cover {
      low := remLen - cover;
      if low < minChunk { low := minChunk; }
    }
    high := maxChunk;
    if remLen - minChunk < high { high := remLen - minChunk; }
  }

  lemma BoundsMeet(remLen: nat, minChunk: nat, maxChunk: nat, remSlots: nat)
    requires minChunk <= remLen
    ensures minChunk <= maxChunk && remLen <= Room(remSlots + 1, maxChunk) && 1 <= remSlots ==>
      (Low(remLen, minChunk, maxChunk, remSlots) <= High(remLen, minChunk, maxChunk) <==> 2 * minChunk <= remLen)
  {
    RoomNext(remSlots, maxChunk);
    RoomNext(0, maxChunk);
    if 1 <= remSlots { MoreRoom(1, remSlots, maxChunk, maxChunk); }
    hide Room;
  }

  datatype Split = Split(r: Result, chunks: seq<nat>)

  predicate Fair(remLen: nat, minChunk: nat, maxChunk: nat, slots: nat) {
    1 <= minChunk <= maxChunk && minChunk <= remLen <= SIZE_MAX && remLen <= Room(slots, maxChunk)
  }

  /** No coin is thrown: what is left fits one chunk and has to go into it. */
  predicate Forced(remLen: nat, minChunk: nat, maxChunk: nat, slots: nat) {
    remLen <= maxChunk && (slots <= 1 || remLen < Twice(minChunk))
  }

  /** What the answers of the generator make of a length and so many slots. */
  ghost function Splits(tape: seq<Draw>, at: nat, remLen: nat, minChunk: nat, maxChunk: nat, slots: nat): Split
    requires at <= |tape| && Fair(remLen, minChunk, maxChunk, slots)
    decreases slots, 1
  {
    if Forced(remLen, minChunk, maxChunk, slots) then Split(Ok, [remLen])
    else if remLen > maxChunk then Cuts(tape, at, remLen, minChunk, maxChunk, slots)
    else if at == |tape| then Split(Pending, [])
    else if tape[at].Fails? then Split(ErrRng, [])
    else if tape[at].value % 256 % 2 == 0 then Split(Ok, [remLen])
    else Cuts(tape, at + 1, remLen, minChunk, maxChunk, slots)
  }

  /** The part of it that cuts a chunk off. */
  ghost function Cuts(tape: seq<Draw>, at: nat, remLen: nat, minChunk: nat, maxChunk: nat, slots: nat): Split
    requires at <= |tape| && Fair(remLen, minChunk, maxChunk, slots)
    requires !Forced(remLen, minChunk, maxChunk, slots)
    decreases slots, 0
  {
    var low, high := Low(remLen, minChunk, maxChunk, slots - 1), High(remLen, minChunk, maxChunk);
    if high < low then Split(Internal, [])
    else
      var pick := Picked(tape, at, UINT32_MAX, high - low + 1);
      PickedInside(tape, at, UINT32_MAX, high - low + 1);
      if pick.r != Ok then Split(pick.r, [])
      else
        var chunk := low + pick.offset;
        var rest := Splits(tape, pick.next, remLen - chunk, minChunk, maxChunk, slots - 1);
        if rest.r == Ok then Split(Ok, [chunk] + rest.chunks) else Split(rest.r, [])
  }

  lemma {:induction false} PickedInside(tape: seq<Draw>, from: nat, wordMax: nat, range: nat)
    requires from <= |tape| && 0 < range
    ensures var p := Picked(tape, from, wordMax, range);
      && from <= p.next <= |tape| && p.offset < range
      && (p.r == Ok || p.r == ErrRng || p.r == Pending)
      && (p.r == ErrRng ==> 0 < p.next && tape[p.next - 1].Fails?)
    decreases |tape| - from
  {
    if from < |tape| && tape[from].Word? && tape[from].value >= Cutoff(wordMax, range) {
      PickedInside(tape, from + 1, wordMax, range);
    }
  }

  // ---------- which requests can end how ----------

  /** A length that k chunks can reduce to one too long for one chunk and too short for two. */
  predicate Gap(totalLen: nat, minChunk: nat, maxChunk: nat, k: nat) {
    && maxChunk + 1 < 2 * minChunk
    && maxChunk + Room(k, minChunk) < totalLen < 2 * minChunk + Room(k, maxChunk)
  }

  /** The requests that can end in Internal; the second half is 2 * min_chunk leaving size_t. */
  ghost predicate CanFail(totalLen: nat, minChunk: nat, maxChunk: nat, maxChunks: nat) {
    || (exists k: nat :: k + 2 <= maxChunks && Gap(totalLen, minChunk, maxChunk, k))
    || (2 * minChunk > SIZE_MAX && maxChunks >= 2)
  }

  /** The requests that some plan meets. */
  ghost predicate CanSplit(totalLen: nat, minChunk: nat, maxChunk: nat, maxChunks: nat) {
    exists n: nat :: 1 <= n <= maxChunks && Room(n, minChunk) <= totalLen <= Room(n, maxChunk)
  }

  lemma {:induction false} SumBounds(s: seq<nat>, minChunk: nat, maxChunk: nat)
    requires Chunks(s, minChunk, maxChunk)
    ensures Room(|s|, minChunk) <= Sum(s) <= Room(|s|, maxChunk)
  {
    RoomNext(0, minChunk);
    RoomNext(0, maxChunk);
    if s != [] {
      RoomNext(|s| - 1, minChunk);
      RoomNext(|s| - 1, maxChunk);
      SumBounds(s[1..], minChunk, maxChunk);
    }
  }

  /** Whatever the generator says, a plan is a plan and Internal ends only a request that can fail. */
  lemma {:induction false} SplitsMean(tape: seq<Draw>, at: nat, remLen: nat, minChunk: nat, maxChunk: nat, slots: nat)
    requires at <= |tape| && Fair(remLen, minChunk, maxChunk, slots)
    ensures var p := Splits(tape, at, remLen, minChunk, maxChunk, slots);
      && (p.r == Ok ==> 1 <= |p.chunks| <= slots && Sum(p.chunks) == remLen && Chunks(p.chunks, minChunk, maxChunk))
      && (p.r == Internal ==> CanFail(remLen, minChunk, maxChunk, slots))
      && (p.r == ErrRng ==> exists i :: 0 <= i < |tape| && tape[i].Fails?)
      && p.r in {Ok, Internal, ErrRng, Pending}
    decreases slots, 1
  {
    RoomNext(0, maxChunk);
    hide Room, Low, High, Picked, Twice, CanFail, Cuts;
    if Forced(remLen, minChunk, maxChunk, slots) {
    } else if remLen > maxChunk {
      CutsMean(tape, at, remLen, minChunk, maxChunk, slots);
    } else if at < |tape| && tape[at].Word? {
      CutsMean(tape, at + 1, remLen, minChunk, maxChunk, slots);
    }
  }

  lemma PlanOneMore(chunk: nat, rest: seq<nat>, minChunk: nat, maxChunk: nat)
    requires minChunk <= chunk <= maxChunk
    ensures Sum([chunk] + rest) == chunk + Sum(rest)
    ensures Chunks(rest, minChunk, maxChunk) ==> Chunks([chunk] + rest, minChunk, maxChunk)
  {
    assert ([chunk] + rest)[1..] == rest;
  }

  lemma {:induction false} CutsMean(tape: seq<Draw>, at: nat, remLen: nat, minChunk: nat, maxChunk: nat, slots: nat)
    requires at <= |tape| && Fair(remLen, minChunk, maxChunk, slots)
    requires !Forced(remLen, minChunk, maxChunk, slots)
    ensures var p := Cuts(tape, at, remLen, minChunk, maxChunk, slots);
      && (p.r == Ok ==> 1 <= |p.chunks| <= slots && Sum(p.chunks) == remLen && Chunks(p.chunks, minChunk, maxChunk))
      && (p.r == Internal ==> CanFail(remLen, minChunk, maxChunk, slots))
      && (p.r == ErrRng ==> exists i :: 0 <= i < |tape| && tape[i].Fails?)
      && p.r in {Ok, Internal, ErrRng, Pending}
    decreases slots, 0
  {
    hide Sum, Chunks, CanFail, Picked, Room, Twice;
    RoomNext(0, maxChunk);
    RoomNext(slots - 1, maxChunk);
    BoundsMeet(remLen, minChunk, maxChunk, slots - 1);
    var low, high := Low(remLen, minChunk, maxChunk, slots - 1), High(remLen, minChunk, maxChunk);
    if high < low {
      FailsNow(remLen, minChunk, maxChunk, slots);
    } else {
      PickedInside(tape, at, UINT32_MAX, high - low + 1);
      var pick := Picked(tape, at, UINT32_MAX, high - low + 1);
      if pick.r == Ok {
        SplitsMean(tape, pick.next, remLen - low - pick.offset, minChunk, maxChunk, slots - 1);
        PlanOneMore(low + pick.offset, Splits(tape, pick.next, remLen - low - pick.offset, minChunk, maxChunk, slots - 1).chunks,
                    minChunk, maxChunk);
        FailsLater(remLen, minChunk, maxChunk, slots, low + pick.offset);
      }
    }
  }

  lemma FailsNow(remLen: nat, minChunk: nat, maxChunk: nat, slots: nat)
    requires Fair(remLen, minChunk, maxChunk, slots) && slots >= 2
    requires !Forced(remLen, minChunk, maxChunk, slots) && remLen < 2 * minChunk
    ensures CanFail(remLen, minChunk, maxChunk, slots)
  {
    RoomNext(0, minChunk);
    RoomNext(0, maxChunk);
    if 2 * minChunk <= SIZE_MAX { assert Gap(remLen, minChunk, maxChunk, 0); }
  }

  lemma FailsLater(remLen: nat, minChunk: nat, maxChunk: nat, slots: nat, chunk: nat)
    requires minChunk <= chunk <= maxChunk && chunk <= remLen && slots >= 1
    ensures CanFail(remLen - chunk, minChunk, maxChunk, slots - 1) ==> CanFail(remLen, minChunk, maxChunk, slots)
  {
    var rest := remLen - chunk;
    if k: nat :| k + 2 <= slots - 1 && Gap(rest, minChunk, maxChunk, k) {
      RoomNext(k, minChunk);
      RoomNext(k, maxChunk);
      assert Gap(remLen, minChunk, maxChunk, k + 1);
    }
  }

  /** The generator's word for the chosen chunk is the chunk's distance from the lower bound. */
  lemma Chosen(tape: seq<Draw>, remLen: nat, minChunk: nat, maxChunk: nat, slots: nat, chunk: nat, at: nat)
    requires Fair(remLen, minChunk, maxChunk, slots) && remLen > maxChunk
    requires maxChunk - minChunk < UINT32_MAX
    requires Low(remLen, minChunk, maxChunk, slots - 1) <= chunk <= High(remLen, minChunk, maxChunk)
    requires at < |tape| && tape[at] == Word(chunk - Low(remLen, minChunk, maxChunk, slots - 1))
    ensures slots >= 2 && Fair(remLen - chunk, minChunk, maxChunk, slots - 1)
    ensures Splits(tape, at, remLen, minChunk, maxChunk, slots).r
         == Splits(tape, at + 1, remLen - chunk, minChunk, maxChunk, slots - 1).r
  {
    RoomNext(0, maxChunk);
    RoomNext(slots - 1, maxChunk);
    var low, high := Low(remLen, minChunk, maxChunk, slots - 1), High(remLen, minChunk, maxChunk);
    PickedSmall(tape, at, high - low + 1);
    hide Room, Low, High, Picked, Twice;
  }

  lemma PickedSmall(tape: seq<Draw>, at: nat, range: nat)
    requires at < |tape| && tape[at].Word? && tape[at].value < range <= UINT32_MAX
    ensures Picked(tape, at, UINT32_MAX, range) == Pick(Ok, tape[at].value, at + 1)
  {
    CutoffOf(UINT32_MAX, range);
    Remainder(0, range, tape[at].value);
  }

  /** A length too long for one chunk and too short for two. */
  lemma ShortFails(tape: seq<Draw>, at: nat, remLen: nat, minChunk: nat, maxChunk: nat, slots: nat)
    requires at <= |tape| && Fair(remLen, minChunk, maxChunk, slots) && maxChunk < remLen < 2 * minChunk
    ensures Splits(tape, at, remLen, minChunk, maxChunk, slots).r == Internal
  {
    RoomNext(0, maxChunk);
    BoundsMeet(remLen, minChunk, maxChunk, slots - 1);
  }

  /** A way for the generator to lead into the gap. */
  lemma {:induction false} FailingTape(start: seq<Draw>, remLen: nat, minChunk: nat, maxChunk: nat, slots: nat, k: nat)
    returns (tape: seq<Draw>)
    requires Fair(remLen, minChunk, maxChunk, slots) && maxChunk - minChunk < UINT32_MAX
    requires k + 2 <= slots && Gap(remLen, minChunk, maxChunk, k)
    ensures start <= tape && Splits(tape, |start|, remLen, minChunk, maxChunk, slots).r == Internal
    decreases k
  {
    hide Room, Low, High, Splits, Twice;
    RoomNext(0, minChunk);
    RoomNext(0, maxChunk);
    RoomNext(slots - 1, maxChunk);
    if k == 0 {
      ShortFails(start, |start|, remLen, minChunk, maxChunk, slots);
      tape := start;
    } else {
      RoomNext(k - 1, minChunk);
      RoomNext(k - 1, maxChunk);
      RoomNext(k, maxChunk);
      MoreRoom(k - 1, k - 1, minChunk, maxChunk);
      MoreRoom(k + 1, slots - 1, maxChunk, maxChunk);
      var most := 2 * minChunk + Room(k - 1, maxChunk) - 1;
      var chunk := if remLen > most + minChunk then remLen - most else minChunk;
      var low := Low(remLen, minChunk, maxChunk, slots - 1);
      InBounds(remLen, minChunk, maxChunk, slots - 1, chunk);
      var step := Word(chunk - low);
      tape := FailingTape(start + [step], remLen - chunk, minChunk, maxChunk, slots - 1, k - 1);
      assert tape[|start|] == (start + [step])[|start|] == step;
      Chosen(tape, remLen, minChunk, maxChunk, slots, chunk, |start|);
    }
  }

  lemma InBounds(remLen: nat, minChunk: nat, maxChunk: nat, remSlots: nat, chunk: nat)
    requires minChunk <= chunk <= maxChunk && chunk + minChunk <= remLen <= chunk + Room(remSlots, maxChunk)
    ensures Low(remLen, minChunk, maxChunk, remSlots) <= chunk <= High(remLen, minChunk, maxChunk)
  {
  }

  /** On an even coin what fits one chunk becomes one. */
  lemma EvenCoin(tape: seq<Draw>, at: nat, remLen: nat, minChunk: nat, maxChunk: nat, slots: nat)
    requires at < |tape| && tape[at] == Word(0) && Fair(remLen, minChunk, maxChunk, slots) && remLen <= maxChunk
    ensures Splits(tape, at, remLen, minChunk, maxChunk, slots).r == Ok
  {
  }

  /** A way for the generator to lead to a plan of n chunks or fewer. */
  lemma {:induction false} SplittingTape(start: seq<Draw>, remLen: nat, minChunk: nat, maxChunk: nat, slots: nat, n: nat)
    returns (tape: seq<Draw>)
    requires Fair(remLen, minChunk, maxChunk, slots) && maxChunk - minChunk < UINT32_MAX
    requires 1 <= n <= slots && Room(n, minChunk) <= remLen <= Room(n, maxChunk)
    ensures start <= tape && Splits(tape, |start|, remLen, minChunk, maxChunk, slots).r == Ok
    decreases n
  {
    hide Room, Low, High, Splits, Twice;
    RoomNext(0, maxChunk);
    if remLen <= maxChunk {
      tape := start + [Word(0)];
      EvenCoin(tape, |start|, remLen, minChunk, maxChunk, slots);
    } else {
      RoomNext(n - 1, minChunk);
      RoomNext(n - 1, maxChunk);
      RoomNext(slots - 1, maxChunk);
      MoreRoom(1, n - 1, minChunk, minChunk);
      RoomNext(0, minChunk);
      MoreRoom(n - 1, slots - 1, maxChunk, maxChunk);
      MoreRoom(n - 1, n - 1, minChunk, maxChunk);
      var most := Room(n - 1, maxChunk);
      var chunk := if remLen > most + minChunk then remLen - most else minChunk;
      var low := Low(remLen, minChunk, maxChunk, slots - 1);
      InBounds(remLen, minChunk, maxChunk, slots - 1, chunk);
      var step := Word(chunk - low);
      tape := SplittingTape(start + [step], remLen - chunk, minChunk, maxChunk, slots - 1, n - 1);
      assert tape[|start|] == (start + [step])[|start|] == step;
      Chosen(tape, remLen, minChunk, maxChunk, slots, chunk, |start|);
    }
  }

  /** When 2 * min_chunk leaves size_t no short rest is recognised, and an odd coin ends in Internal. */
  lemma OddCoinFails(remLen: nat, minChunk: nat, maxChunk: nat, slots: nat) returns (tape: seq<Draw>)
    requires Fair(remLen, minChunk, maxChunk, slots) && 2 * minChunk > SIZE_MAX && slots >= 2
    ensures Splits(tape, 0, remLen, minChunk, maxChunk, slots).r == Internal
  {
    BoundsMeet(remLen, minChunk, maxChunk, slots - 1);
    hide Room, Low, High;
    tape := [Word(1)];
  }

  ghost predicate Ends(totalLen: nat, minChunk: nat, maxChunk: nat, maxChunks: nat, r: Result)
    requires Fair(totalLen, minChunk, maxChunk, maxChunks)
  {
    exists tape :: Splits(tape, 0, totalLen, minChunk, maxChunk, maxChunks).r == r
  }

  /** A request that passes the entry checks can end in Internal exactly when CanFail, in a plan exactly when CanSplit. */
  lemma SplitOutcomes(totalLen: nat, minChunk: nat, maxChunk: nat, maxChunks: nat)
    requires Fair(totalLen, minChunk, maxChunk, maxChunks) && maxChunk - minChunk < UINT32_MAX
    ensures Ends(totalLen, minChunk, maxChunk, maxChunks, Internal) <==> CanFail(totalLen, minChunk, maxChunk, maxChunks)
    ensures Ends(totalLen, minChunk, maxChunk, maxChunks, Ok) <==> CanSplit(totalLen, minChunk, maxChunk, maxChunks)
  {
    hide Splits, Room, Gap;
    if CanFail(totalLen, minChunk, maxChunk, maxChunks) {
      if 2 * minChunk > SIZE_MAX && maxChunks >= 2 {
        var tape := OddCoinFails(totalLen, minChunk, maxChunk, maxChunks);
      } else {
        var k: nat :| k + 2 <= maxChunks && Gap(totalLen, minChunk, maxChunk, k);
        var tape := FailingTape([], totalLen, minChunk, maxChunk, maxChunks, k);
      }
    }
    if n: nat :| 1 <= n <= maxChunks && Room(n, minChunk) <= totalLen <= Room(n, maxChunk) {
      var tape := SplittingTape([], totalLen, minChunk, maxChunk, maxChunks, n);
    }
    forall tape ensures var p := Splits(tape, 0, totalLen, minChunk, maxChunk, maxChunks);
      && (p.r == Internal ==> CanFail(totalLen, minChunk, maxChunk, maxChunks))
      && (p.r == Ok ==> CanSplit(totalLen, minChunk, maxChunk, maxChunks))
    {
      SplitsMean(tape, 0, totalLen, minChunk, maxChunk, maxChunks);
      var p := Splits(tape, 0, totalLen, minChunk, maxChunk, maxChunks);
      if p.r == Ok { SumBounds(p.chunks, minChunk, maxChunk); }
    }
  }

  /** A length of 30 in at most five chunks of 10 to 15: the generator decides. */
  lemma EitherWay()
    ensures Fair(30, 10, 15, 5) && Ends(30, 10, 15, 5, Internal) && Ends(30, 10, 15, 5, Ok)
  {
    SplitOutcomes(30, 10, 15, 5);
    assert Gap(30, 10, 15, 1);
    assert Room(3, 10) <= 30 <= Room(3, 15);
  }

  /** Bounds for which no request can end in Internal. */
  lemma NeverInternal(minChunk: nat, maxChunk: nat)
    requires 1 <= minChunk <= maxChunk <= SIZE_MAX
    ensures (forall totalLen: nat, maxChunks: nat | Fair(totalLen, minChunk, maxChunk, maxChunks) ::
               !Ends(totalLen, minChunk, maxChunk, maxChunks, Internal))
       <==> 2 * minChunk <= maxChunk + 1 && 2 * minChunk <= SIZE_MAX
  {
    RoomNext(0, maxChunk);
    RoomNext(1, maxChunk);
    RoomNext(0, minChunk);
    hide Splits, Room;
    if 2 * minChunk > SIZE_MAX {
      var tape := OddCoinFails(minChunk, minChunk, maxChunk, 2);
      assert Fair(minChunk, minChunk, maxChunk, 2) && Ends(minChunk, minChunk, maxChunk, 2, Internal);
    } else if maxChunk + 1 < 2 * minChunk {
      GapFails(minChunk, maxChunk);
    } else {
      forall totalLen: nat, maxChunks: nat, tape | Fair(totalLen, minChunk, maxChunk, maxChunks)
        ensures Splits(tape, 0, totalLen, minChunk, maxChunk, maxChunks).r != Internal
      {
        SplitsMean(tape, 0, totalLen, minChunk, maxChunk, maxChunks);
      }
    }
  }

  lemma GapFails(minChunk: nat, maxChunk: nat)
    requires 1 <= minChunk <= maxChunk && maxChunk + 1 < 2 * minChunk <= SIZE_MAX
    ensures Fair(maxChunk + 1, minChunk, maxChunk, 2) && Ends(maxChunk + 1, minChunk, maxChunk, 2, Internal)
  {
    RoomNext(0, maxChunk);
    RoomNext(1, maxChunk);
    BoundsMeet(maxChunk + 1, minChunk, maxChunk, 1);
    hide Room, Low, High;
    assert Splits([], 0, maxChunk + 1, minChunk, maxChunk, 2).r == Internal;
  }

  /** The chunks chosen so far and those of the rest make up the whole. */
  ghost predicate Continues(whole: Split, chunks: seq<nat>, rest: Split) {
    whole.r == rest.r && (rest.r == Ok ==> whole.chunks == chunks + rest.chunks)
  }

  lemma CutsNext(whole: Split, chunks: seq<nat>, tape: seq<Draw>, at: nat,
                 remLen: nat, minChunk: nat, maxChunk: nat, slots: nat)
    requires at <= |tape| && Fair(remLen, minChunk, maxChunk, slots)
    requires !Forced(remLen, minChunk, maxChunk, slots)
    requires Continues(whole, chunks, Cuts(tape, at, remLen, minChunk, maxChunk, slots))
    ensures var low, high := Low(remLen, minChunk, maxChunk, slots - 1), High(remLen, minChunk, maxChunk);
      if high < low then whole.r == Internal
      else
        var pick := Picked(tape, at, UINT32_MAX, high - low + 1);
        if pick.r != Ok then whole.r == pick.r
        else
          && pick.next <= |tape| && low + pick.offset <= remLen
          && Fair(remLen - low - pick.offset, minChunk, maxChunk, slots - 1)
          && Continues(whole, chunks + [low + pick.offset],
                       Splits(tape, pick.next, remLen - low - pick.offset, minChunk, maxChunk, slots - 1))
  {
    RoomNext(0, maxChunk);
    var low, high := Low(remLen, minChunk, maxChunk, slots - 1), High(remLen, minChunk, maxChunk);
    if low <= high {
      var pick := Picked(tape, at, UINT32_MAX, high - low + 1);
      PickedInside(tape, at, UINT32_MAX, high - low + 1);
      if pick.r == Ok {
        var rest := Splits(tape, pick.next, remLen - low - pick.offset, minChunk, maxChunk, slots - 1);
        assert chunks + ([low + pick.offset] + rest.chunks) == chunks + [low + pick.offset] + rest.chunks;
      }
    }
  }

  /**
   Whatever the generator says, a plan that is returned is one, and no call ends in Internal unless
   CanFail; the result is that of Splits, of which SplitOutcomes says when it can be what.
   */
  method SplitPlan(tape: seq<Draw>, totalLen: nat, minChunk: nat, maxChunk: nat, plan: array<nat>, maxChunks: nat)
    returns (r: Result, count: nat)
    requires plan.Length >= maxChunks
    requires totalLen <= SIZE_MAX && minChunk <= SIZE_MAX && maxChunk <= SIZE_MAX && maxChunks <= SIZE_MAX
    modifies plan
    ensures r == InvalidArg <==> !Sound(totalLen, minChunk, maxChunk, maxChunks)
    ensures r == BufTooSmall <==> Sound(totalLen, minChunk, maxChunk, maxChunks) && Room(maxChunks, maxChunk) < totalLen
    ensures r == Ok ==> 1 <= count <= maxChunks && Sum(plan[..count]) == totalLen && Chunks(plan[..count], minChunk, maxChunk)
    ensures r == Internal ==> CanFail(totalLen, minChunk, maxChunk, maxChunks)
    ensures Sound(totalLen, minChunk, maxChunk, maxChunks) && totalLen <= Room(maxChunks, maxChunk) ==>
      && Fair(totalLen, minChunk, maxChunk, maxChunks)
      && var split := Splits(tape, 0, totalLen, minChunk, maxChunk, maxChunks);
         r == split.r && (r == Ok ==> plan[..count] == split.chunks)
    ensures r == ErrRng ==> exists i :: 0 <= i < |tape| && tape[i].Fails?
  {
    hide Room, Cover, Sum, Chunks, Drawn, Hits, Low, CanFail, Picked, Twice, Cuts;
    count := 0;
    if totalLen < 1 || minChunk < 1 || maxChunk < minChunk || totalLen < minChunk { return InvalidArg, 0; }
    if maxChunks == 0 { return InvalidArg, 0; }
    CoverCompares(maxChunks, maxChunk, totalLen);
    if Cover(maxChunks, maxChunk) < totalLen { return BufTooSmall, 0; }
    SplitsMean(tape, 0, totalLen, minChunk, maxChunk, maxChunks);
    ghost var whole := Splits(tape, 0, totalLen, minChunk, maxChunk, maxChunks);
    RoomNext(0, maxChunk);
    var remLen: nat, i: nat, at: nat := totalLen, 0, 0;
    while i < maxChunks
      invariant i <= maxChunks && at <= |tape|
      invariant Fair(remLen, minChunk, maxChunk, maxChunks - i)
      invariant Continues(whole, plan[..i], Splits(tape, at, remLen, minChunk, maxChunk, maxChunks - i))
    {
      var remSlots: nat := maxChunks - 1 - i;
      RoomNext(remSlots, maxChunk);
      var finish := false;
      if remLen <= maxChunk {
        if remSlots == 0 || remLen < Twice(minChunk) {
          finish := true;
        } else {
          if at == |tape| { return Pending, 0; }
          at := at + 1;
          if tape[at - 1].Fails? { return ErrRng, 0; }
          finish := tape[at - 1].value % 256 % 2 == 0;
        }
      }
      if finish {
        plan[i] := remLen;
        count := i + 1;
        assert plan[..count] == whole.chunks;
        return Ok, count;
      }
      CutsNext(whole, plan[..i], tape, at, remLen, minChunk, maxChunk, remSlots + 1);
      var low, high := Bounds(remLen, minChunk, maxChunk, remSlots);
      if high < low { return Internal, 0; }
      var chunk: nat;
      r, chunk, at := RngRange(tape, at, low, high);
      if r != Ok { return r, 0; }
      plan[i] := chunk;
      assert plan[..i + 1] == plan[..i] + [chunk];
      remLen := remLen - chunk;
      i := i + 1;
    }
    r := if remLen > 0 then Internal else Ok;
  }
}
