/**
 The retry tiers (lib/src/t3_retry.c): a ring of at most eight close times, rewritten at every
 close, against a specification over the whole history since the last user retry.
 */
module Retry {

  const NS60: nat := 60 * 1_000_000_000
  const NS30: nat := 30 * 1_000_000_000
  const NS5MIN: nat := 5 * 60 * 1_000_000_000

  datatype Tier = OK | TIER1 | TIER2 | TIER3
  datatype Result = Done | InvalidArg | ClockBackwards

  // ---------- the specification: all closes since the last user retry ----------

  /** How many of the times lie within span of now. */
  function Count(h: seq<nat>, now: nat, span: nat): nat {
    if h == [] then 0
    else Count(h[..|h| - 1], now, span) + if now - h[|h| - 1] <= span then 1 else 0
  }

  /** The tier after the closes h. */
  function TierOf(h: seq<nat>): Tier
    decreases |h|, 1
  {
    if h == [] then OK
    else
      var before, now := h[..|h| - 1], h[|h| - 1];
      if Count(h, now, NS30) >= 5 || LongRun(before, now) then TIER3
      else if Count(h, now, NS60) >= 3 then TIER2
      else TIER1
  }

  /** The tier has been TIER2 at every close for five minutes. A run that began at time 0 is not recognised. */
  predicate LongRun(before: seq<nat>, now: nat)
    decreases |before|, 3
  {
    TierOf(before) == TIER2 && RunStart(before) != 0 && now - RunStart(before) >= NS5MIN
  }

  /** When the current run of TIER2 began. */
  function RunStart(h: seq<nat>): nat
    decreases |h|, 2
  {
    if h == [] || TierOf(h) != TIER2 then 0
    else if TierOf(h[..|h| - 1]) == TIER2 then RunStart(h[..|h| - 1])
    else h[|h| - 1]
  }

  predicate Ascending(h: seq<nat>) {
    forall i, j :: 0 <= i < j < |h| ==> h[i] <= h[j]
  }

  /** A run of TIER2 is as long as it can be: it begins with the first close since which the tier has never been another. */
  lemma {:induction false} RunIsMaximal(h: seq<nat>) returns (k: nat)
    requires TierOf(h) == TIER2
    ensures k < |h| && RunStart(h) == h[k]
    ensures forall j :: k < j <= |h| ==> TierOf(h[..j]) == TIER2
    ensures TierOf(h[..k]) != TIER2
  {
    hide Count;
    var before := h[..|h| - 1];
    assert h[..|h|] == h;
    if TierOf(before) == TIER2 {
      k := RunIsMaximal(before);
      assert before[..k] == h[..k];
      forall j | k < j <= |h| ensures TierOf(h[..j]) == TIER2 {
        if j < |h| { assert before[..j] == h[..j]; }
      }
    } else {
      k := |h| - 1;
    }
  }

  /** What is promised: the tier has been TIER2 at every close for the five minutes before now. */
  predicate FiveMinutes(before: seq<nat>, now: nat) {
    TierOf(before) == TIER2 && now - RunStart(before) >= NS5MIN
  }

  /** The third close read 0 on the clock and the tier has been TIER2 ever since. */
  predicate SinceZero(h: seq<nat>) {
    |h| >= 3 && h[2] == 0 && forall j :: 3 <= j <= |h| ==> TierOf(h[..j]) == TIER2
  }

  /** Closes at clock 0 only. */
  lemma {:induction false} ZerosCount(h: seq<nat>, now: nat, span: nat)
    requires now <= span && forall i :: 0 <= i < |h| ==> h[i] == 0
    ensures Count(h, now, span) == |h|
  {
    if h != [] { ZerosCount(h[..|h| - 1], now, span); }
  }

  lemma FirstCloses(h: seq<nat>)
    requires 1 <= |h| <= 4 && forall i :: 0 <= i < |h| ==> h[i] == 0
    ensures |h| < 3 ==> TierOf(h) == TIER1
    ensures |h| >= 3 ==> TierOf(h) == TIER2
  {
    hide Count;
    var before := h[..|h| - 1];
    ZerosCount(h, 0, NS30);
    ZerosCount(h, 0, NS60);
    assert h[|h| - 1] == 0;
    assert !LongRun(before, 0);
  }

  /** A run of TIER2 that starts at clock 0 starts with the third close. */
  lemma ZeroRunStart(h: seq<nat>)
    requires Ascending(h) && TierOf(h) == TIER2
    ensures RunStart(h) == 0 <==> SinceZero(h)
  {
    hide TierOf, RunStart, Count;
    var k := RunIsMaximal(h);
    if SinceZero(h) { SinceZeroBegins(h, k); }
    if h[k] == 0 {
      assert forall i :: 0 <= i <= k ==> h[i] <= h[k];
      ZeroRunBegins(h, k);
    }
  }

  lemma SinceZeroBegins(h: seq<nat>, k: nat)
    requires Ascending(h) && SinceZero(h) && k < |h|
    requires TierOf(h[..k]) != TIER2 && forall j :: k < j <= |h| ==> TierOf(h[..j]) == TIER2
    ensures k == 2
  {
    hide TierOf;
    assert h[0] <= h[2] && h[1] <= h[2];
    FirstCloses(h[..2]);
  }

  lemma ZeroRunBegins(h: seq<nat>, k: nat)
    requires k < |h| && (forall i :: 0 <= i <= k ==> h[i] == 0)
    requires TierOf(h[..k + 1]) == TIER2 && TierOf(h[..k]) != TIER2
    ensures k == 2
  {
    hide TierOf;
    if k >= 4 {
      TooMany(h[..k + 1]);
    } else {
      FirstCloses(h[..k + 1]);
      if k > 0 { FirstCloses(h[..k]); }
    }
  }

  lemma TooMany(h: seq<nat>)
    requires |h| >= 5 && forall i :: 0 <= i < |h| ==> h[i] == 0
    ensures TierOf(h) == TIER3
  {
    hide Count;
    ZerosCount(h, 0, NS30);
  }

  /**
   Promotion by age is five minutes of TIER2 if and only if it is not the case that the run began
   at clock 0 and five minutes have passed.
   */
  lemma LongRunExactly(before: seq<nat>, now: nat)
    requires Ascending(before)
    ensures LongRun(before, now) <==> FiveMinutes(before, now) && !SinceZero(before)
    ensures (LongRun(before, now) <==> FiveMinutes(before, now)) <==> !(SinceZero(before) && now >= NS5MIN)
  {
    hide TierOf, RunStart, Count;
    if TierOf(before) == TIER2 {
      ZeroRunStart(before);
    } else {
      assert before[..|before|] == before;
    }
  }

  /** Three closes at clock 0 and one five minutes later give TIER1; one nanosecond later all of it gives TIER3. */
  lemma PromotionMissed()
    ensures FiveMinutes([0, 0, 0], NS5MIN) && !LongRun([0, 0, 0], NS5MIN)
    ensures TierOf([0, 0, 0, NS5MIN]) == TIER1
    ensures TierOf([1, 1, 1, NS5MIN + 1]) == TIER3
  {
    FirstCloses([0, 0]);
    FirstCloses([0, 0, 0]);
    var h := [0, 0, 0];
    assert h[..2] == [0, 0];
    assert RunStart(h) == 0;
    var g := [0, 0, 0, NS5MIN];
    assert g[..3] == h;
    CountLast(h, NS5MIN, NS30);
    CountLast(h, NS5MIN, NS60);
    OnesPromoted();
  }

  lemma CountLast(h: seq<nat>, now: nat, span: nat)
    requires now > span && forall i :: 0 <= i < |h| ==> h[i] == 0
    ensures Count(h + [now], now, span) == 1
  {
    assert (h + [now])[..|h|] == h;
    NoneCounted(h, now, span);
  }

  lemma OnesPromoted()
    ensures TierOf([1, 1, 1, NS5MIN + 1]) == TIER3
  {
    var h := [1, 1, 1, NS5MIN + 1];
    assert h[..3] == [1, 1, 1];
    assert [1, 1, 1][..2] == [1, 1];
    assert [1, 1][..1] == [1];
    assert [1][..0] == [];
    assert Count([], 1, NS30) == 0 && Count([], 1, NS60) == 0;
    assert Count([1], 1, NS30) == 1 && Count([1], 1, NS60) == 1;
    assert Count([1, 1], 1, NS30) == 2 && Count([1, 1], 1, NS60) == 2;
    assert Count([1, 1, 1], 1, NS30) == 3 && Count([1, 1, 1], 1, NS60) == 3;
    assert TierOf([1]) == TIER1;
    assert TierOf([1, 1]) == TIER1;
    assert TierOf([1, 1, 1]) == TIER2;
    assert RunStart([1, 1, 1]) == 1;
  }

  // ---------- the ring as a function of the history ----------

  /** The first index from which all of an ascending h lies within span of now. */
  function Cut(h: seq<nat>, now: nat, span: nat): (c: nat)
    ensures c <= |h|
  {
    if h == [] || now - h[|h| - 1] > span then |h| else Cut(h[..|h| - 1], now, span)
  }

  lemma {:induction false} CutSplits(h: seq<nat>, now: nat, span: nat)
    requires Ascending(h)
    ensures forall i :: 0 <= i < |h| ==> (now - h[i] <= span <==> i >= Cut(h, now, span))
    ensures Count(h, now, span) == |h| - Cut(h, now, span)
  {
    if h != [] {
      CutSplits(h[..|h| - 1], now, span);
      if now - h[|h| - 1] > span { NoneCounted(h[..|h| - 1], now, span); }
    }
  }

  lemma {:induction false} NoneCounted(h: seq<nat>, now: nat, span: nat)
    requires forall i :: 0 <= i < |h| ==> now - h[i] > span
    ensures Count(h, now, span) == 0
  {
    if h != [] { NoneCounted(h[..|h| - 1], now, span); }
  }

  function Max(a: int, b: int): int { if a < b then b else a }

  function RingStart(h: seq<nat>): (a: nat)
    ensures |h| - 8 <= a <= |h|
  {
    if h == [] then 0 else Max(Cut(h, h[|h| - 1], NS60), |h| - 8)
  }

  /** The last eight of the times within 60 s of the last one. */
  function Ring(h: seq<nat>): (r: seq<nat>)
    ensures |r| <= 8
  {
    h[RingStart(h)..]
  }

  lemma CutIs(h: seq<nat>, now: nat, span: nat, c: nat)
    requires Ascending(h) && c <= |h|
    requires forall i :: 0 <= i < |h| ==> (now - h[i] <= span <==> i >= c)
    ensures Cut(h, now, span) == c
  {
    CutSplits(h, now, span);
    var d := Cut(h, now, span);
    assert c < |h| ==> now - h[c] <= span;
    assert d < |h| ==> now - h[d] <= span;
  }

  /** As time goes on the cut moves up only. */
  lemma CutGrows(h: seq<nat>, last: nat, now: nat)
    requires Ascending(h) && last <= now
    ensures Cut(h, last, NS60) <= Cut(h, now, NS60)
  {
    CutSplits(h, last, NS60);
    CutSplits(h, now, NS60);
    var d := Cut(h, now, NS60);
    if d < |h| { assert now - h[d] <= NS60; }
  }

  /** The cut of the history once now is in it. */
  lemma CutOfAppend(h: seq<nat>, now: nat)
    requires Ascending(h + [now])
    ensures Cut(h + [now], now, NS60) == Cut(h, now, NS60)
  {
    var g := h + [now];
    assert forall i, j :: 0 <= i < j < |h| ==> g[i] <= g[j];
    assert forall i :: 0 <= i < |h| ==> g[i] == h[i];
    CutSplits(h, now, NS60);
    CutIs(g, now, NS60, Cut(h, now, NS60));
  }

  lemma CutOfSuffix(h: seq<nat>, a: nat, now: nat, span: nat)
    requires Ascending(h) && a <= |h|
    ensures Ascending(h[a..]) && Cut(h[a..], now, span) == Max(Cut(h, now, span) - a, 0)
  {
    CutSplits(h, now, span);
    assert forall i :: 0 <= i < |h[a..]| ==> h[a..][i] == h[a + i];
    CutIs(h[a..], now, span, Max(Cut(h, now, span) - a, 0));
  }

  /** Evicting from the ring, dropping its oldest entry if it is still full and appending makes the next ring. */
  lemma RingNext(h: seq<nat>, now: nat, kept: seq<nat>)
    requires Ascending(h + [now])
    requires kept == Ring(h)[Cut(Ring(h), now, NS60)..]
    ensures Ring(h + [now]) == (if |kept| == 8 then kept[1..] else kept) + [now]
  {
    hide Cut, Ascending, RingStart, Max;
    NextStart(h, now);
    CutOfSuffix(h, RingStart(h), now, NS60);
    Suffixes(h, now, RingStart(h), Cut(h, now, NS60), kept);
  }

  /** Where the ring starts, before and after. */
  lemma NextStart(h: seq<nat>, now: nat)
    requires Ascending(h + [now])
    ensures Ascending(h) && RingStart(h) <= Max(Cut(h, now, NS60), |h| - 8)
    ensures RingStart(h + [now]) == Max(Cut(h, now, NS60), |h| - 7)
  {
    hide Cut, Ascending;
    AscendingPart(h, now);
    CutOfAppend(h, now);
    assert (h + [now])[|h + [now]| - 1] == now;
    if h != [] { CutGrows(h, h[|h| - 1], now); }
  }

  lemma Suffixes(h: seq<nat>, now: nat, a: nat, b: nat, kept: seq<nat>)
    requires |h| - 8 <= a <= |h| && b <= |h| && a <= Max(b, |h| - 8)
    requires kept == h[a..][Max(b - a, 0)..]
    ensures (h + [now])[Max(b, |h| - 7)..] == (if |kept| == 8 then kept[1..] else kept) + [now]
  {
    assert kept == h[Max(b, |h| - 8)..];
    assert (h + [now])[Max(b, |h| - 7)..] == h[Max(b, |h| - 7)..] + [now];
    if |kept| == 8 { assert kept[1..] == h[Max(b, |h| - 7)..]; }
  }

  /** Those of the first i entries that lie within 60 s of now. */
  function Recent(h: seq<nat>, i: nat, now: nat): (r: seq<nat>)
    requires i <= |h|
    ensures |r| <= i
  {
    h[..i][Cut(h[..i], now, NS60)..]
  }

  lemma NoneRecent(h: seq<nat>, now: nat)
    ensures Recent(h, 0, now) == []
  {
  }

  lemma RecentOfAll(h: seq<nat>, now: nat)
    ensures Recent(h, |h|, now) == h[Cut(h, now, NS60)..]
  {
    assert h[..|h|] == h;
  }

  lemma CutNext(h: seq<nat>, i: nat, now: nat)
    requires Ascending(h) && i < |h|
    ensures Recent(h, i + 1, now) == Recent(h, i, now) + (if now - h[i] <= NS60 then [h[i]] else [])
  {
    var g := h[..i + 1];
    assert g[..i] == h[..i];
    if now - h[i] > NS60 { AllOld(h, i, now); }
  }

  /** Before an entry that is too old all are. */
  lemma AllOld(h: seq<nat>, i: nat, now: nat)
    requires Ascending(h) && i < |h| && now - h[i] > NS60
    ensures Recent(h, i, now) == []
  {
    if i > 0 { assert h[..i][i - 1] == h[i - 1] <= h[i]; }
  }

  lemma AscendingPart(h: seq<nat>, now: nat)
    requires Ascending(h + [now])
    ensures Ascending(h) && forall i :: 0 <= i < |h| ==> h[i] <= now
  {
    var g := h + [now];
    assert forall i :: 0 <= i < |h| ==> g[i] == h[i];
    assert g[|h|] == now;
  }

  /** Five closes in 30 s, and three in 60 s, can be told from the ring. */
  lemma RingDecides(h: seq<nat>)
    requires h != [] && Ascending(h)
    ensures var now := h[|h| - 1];
      && (Count(Ring(h), now, NS30) >= 5 <==> Count(h, now, NS30) >= 5)
      && (|Ring(h)| >= 3 <==> Count(h, now, NS60) >= 3)
      && |Ring(h)| >= 1
  {
    hide Cut, Ascending, Count;
    var now := h[|h| - 1];
    CutSplits(h, now, NS60);
    CutSplits(h, now, NS30);
    CutOfSuffix(h, RingStart(h), now, NS30);
    CutSplits(Ring(h), now, NS30);
    CutNarrower(h, now);
    assert now - h[|h| - 1] <= NS60;
  }

  lemma CutNarrower(h: seq<nat>, now: nat)
    requires Ascending(h)
    ensures Cut(h, now, NS60) <= Cut(h, now, NS30)
  {
    CutSplits(h, now, NS60);
    CutSplits(h, now, NS30);
    var d := Cut(h, now, NS30);
    if d < |h| { assert now - h[d] <= NS30; }
  }

  // ---------- the session ----------

  class Session {
    const slots: array<nat>
    var count: nat
    var head: nat
    var state: Tier
    var tier2Entered: nat
    var lastClose: nat
    ghost var history: seq<nat>

    ghost predicate RingOk(h: seq<nat>)
      reads this, slots
    {
      slots.Length == 8 && count <= 8 && head == count % 8 && slots[..count] == Ring(h)
    }

    ghost predicate Valid()
      reads this, slots
    {
      && RingOk(history) && Ascending(history)
      && state == TierOf(history) && tier2Entered == RunStart(history)
      && lastClose == if history == [] then 0 else history[|history| - 1]
    }

    constructor ()
      ensures Valid() && history == [] && fresh(slots)
    {
      slots := new nat[8](_ => 0);
      count, head, state, tier2Entered, lastClose, history := 0, 0, OK, 0, 0, [];
    }

    /** The eviction and rewriting of t3_retry_ring_record. */
    method Rewrite(now: nat) returns (in30: nat)
      requires RingOk(history) && Ascending(history + [now])
      modifies slots, `count, `head
      ensures RingOk(history + [now])
      ensures in30 == Count(slots[..count], now, NS30)
    {
      hide Ring, Count, Ascending;
      ghost var g := history + [now];
      var buf := new nat[8];
      var kept := Evict(now, buf);
      if kept == 8 {
        DropOldest(buf);
        kept := 7;
      }
      ghost var r := buf[..kept] + [now];
      buf[kept] := now;
      kept := kept + 1;
      assert buf[..kept] == r == Ring(g);
      in30 := Copy(buf, kept, now);
      count := kept;
      head := kept % 8;
    }

    /** The slots rewritten, and the entries of the last 30 s counted. */
    method Copy(buf: array<nat>, kept: nat, now: nat) returns (in30: nat)
      requires kept <= buf.Length && kept <= slots.Length && buf != slots
      modifies slots
      ensures slots[..kept] == old(buf[..kept]) && in30 == Count(slots[..kept], now, NS30)
    {
      ghost var r := buf[..kept];
      in30 := 0;
      var i := 0;
      while i < kept
        invariant 0 <= i <= kept && buf[..kept] == r
        invariant slots[..i] == r[..i] && in30 == Count(r[..i], now, NS30)
      {
        slots[i] := buf[i];
        assert r[..i + 1][..i] == r[..i];
        if now - buf[i] <= NS30 { in30 := in30 + 1; }
        i := i + 1;
      }
      assert r[..i] == r;
    }

    static method DropOldest(buf: array<nat>)
      requires buf.Length == 8
      modifies buf
      ensures buf[..7] == old(buf[..][1..])
    {
      var i := 0;
      while i < 7
        invariant 0 <= i <= 7
        invariant forall k :: 0 <= k < i ==> buf[k] == old(buf[k + 1])
        invariant forall k :: i <= k < 8 ==> buf[k] == old(buf[k])
      {
        buf[i] := buf[i + 1];
        i := i + 1;
      }
    }

    /** The loop that keeps the slots of the last 60 s. */
    method Evict(now: nat, buf: array<nat>) returns (kept: nat)
      requires RingOk(history) && Ascending(history + [now]) && buf.Length == 8 && buf != slots
      modifies buf
      ensures kept <= 8
      ensures Ring(history + [now]) == (if kept == 8 then buf[..][1..] else buf[..kept]) + [now]
    {
      hide Ring, Ascending, Cut, Recent;
      ghost var ring := Ring(history);
      AscendingPart(history, now);
      AscendingRing(history);
      NoneRecent(ring, now);
      kept := 0;
      var i := 0;
      while i < count
        invariant 0 <= i <= count && kept <= i && slots[..count] == ring
        invariant buf[..kept] == Recent(ring, i, now)
      {
        var idx := (head + 8 - count + i) % 8;
        IndexIs(count, i);
        assert slots[idx] == ring[i];
        CutNext(ring, i, now);
        if now - slots[idx] <= NS60 {
          buf[kept] := slots[idx];
          assert buf[..kept + 1] == buf[..kept] + [ring[i]];
          kept := kept + 1;
        }
        i := i + 1;
      }
      RecentOfAll(ring, now);
      RingNext(history, now, buf[..kept]);
      if kept == 8 { assert buf[..kept] == buf[..]; }
    }

    /** t3_retry_record_close with t3_retry_ring_record: a clock that runs backwards changes nothing. */
    method RecordClose(now: nat) returns (r: Result, tier: Tier)
      requires Valid()
      modifies this, slots
      ensures Valid()
      ensures r == (if LastClose(old(history)) > now then ClockBackwards else Done)
      ensures r == Done ==> history == old(history) + [now] && tier == state == TierOf(history)
      ensures r == ClockBackwards ==> history == old(history) && tier == state == old(state)
      ensures r == ClockBackwards ==> slots[..] == old(slots[..]) && count == old(count) && head == old(head)
      ensures r == ClockBackwards ==> tier2Entered == old(tier2Entered) && lastClose == old(lastClose)
    {
      hide Ring, Ascending, Count, Cut, TierOf, RunStart;
      if lastClose != 0 && now < lastClose { return ClockBackwards, state; }
      AppendAscending(history, now);
      lastClose := now;
      ghost var h := history + [now];
      var in30 := Rewrite(now);
      Decide(now, in30);
      history := h;
      return Done, state;
    }

    /** The second half of t3_retry_ring_record: the tier, and when a run of TIER2 begins or ends. */
    method Decide(now: nat, in30: nat)
      requires RingOk(history + [now]) && Ascending(history + [now])
      requires in30 == Count(slots[..count], now, NS30)
      requires state == TierOf(history) && tier2Entered == RunStart(history)
      modifies `state, `tier2Entered
      ensures state == TierOf(history + [now]) && tier2Entered == RunStart(history + [now])
    {
      hide Ring, Ascending, Count, TierOf, RunStart;
      assert (history + [now])[|history + [now]| - 1] == now;
      RingDecides(history + [now]);
      TierNext(history, now);
      var continuous := state == TIER2 && tier2Entered != 0 && now - tier2Entered >= NS5MIN;
      var prev := state;
      state :=
        if in30 >= 5 || continuous then TIER3
        else if count >= 3 then TIER2
        else if count >= 1 then TIER1
        else OK;
      if state == TIER2 && prev != TIER2 { tier2Entered := now; }
      if state != TIER2 { tier2Entered := 0; }
    }

    /** t3_retry_ring_user_retry */
    method UserRetry() returns (r: Result)
      requires Valid()
      modifies this, slots
      ensures Valid()
      ensures r == (if old(state) == TIER3 then Done else InvalidArg)
      ensures history == if r == Done then [] else old(history)
    {
      if state != TIER3 { return InvalidArg; }
      var i := 0;
      while i < 8
        invariant 0 <= i <= 8
      {
        slots[i] := 0;
        i := i + 1;
      }
      count, head, state, tier2Entered, lastClose := 0, 0, OK, 0, 0;
      history := [];
      r := Done;
    }
  }

  function LastClose(h: seq<nat>): nat {
    if h == [] then 0 else h[|h| - 1]
  }

  lemma TierNext(h: seq<nat>, now: nat)
    ensures TierOf(h + [now]) ==
      if Count(h + [now], now, NS30) >= 5 || LongRun(h, now) then TIER3
      else if Count(h + [now], now, NS60) >= 3 then TIER2
      else TIER1
    ensures RunStart(h + [now]) ==
      if TierOf(h + [now]) != TIER2 then 0 else if TierOf(h) == TIER2 then RunStart(h) else now
  {
    hide Count;
    assert (h + [now])[..|h|] == h;
  }

  /** The ring starts at slot 0 after every rewrite. */
  lemma IndexIs(count: nat, i: nat)
    requires i < count <= 8
    ensures (count % 8 + 8 - count + i) % 8 == i
  {
  }

  lemma AscendingRing(h: seq<nat>)
    requires Ascending(h)
    ensures Ascending(Ring(h))
  {
  }

  lemma AppendAscending(h: seq<nat>, now: nat)
    requires Ascending(h) && LastClose(h) <= now
    ensures Ascending(h + [now])
  {
  }

  // ---------- runs ----------

  datatype Event = Close(now: nat) | Retry

  /** The history the specification keeps: what a run of closes and user retries leaves since the last accepted retry. */
  function History(events: seq<Event>): (h: seq<nat>)
    ensures Ascending(h)
    decreases |events|
  {
    if events == [] then []
    else
      var h := History(events[..|events| - 1]);
      match events[|events| - 1]
      case Close(now) => if LastClose(h) > now then h else h + [now]
      case Retry => if TierOf(h) == TIER3 then [] else h
  }

  /** For every run of closes and user retries the ring yields the tier of the unbounded history. */
  method Replay(events: seq<Event>) returns (s: Session)
    ensures fresh(s) && fresh(s.slots) && s.Valid()
    ensures s.history == History(events) && s.state == TierOf(History(events))
  {
    hide Ring, Ascending, Count, Cut, TierOf, RunStart;
    s := new Session();
    for i := 0 to |events|
      invariant s.Valid() && s.history == History(events[..i])
      invariant fresh(s) && fresh(s.slots)
    {
      assert events[..i + 1][..i] == events[..i];
      match events[i]
      case Close(now) => var _, _ := s.RecordClose(now);
      case Retry => var _ := s.UserRetry();
    }
    assert events[..|events|] == events;
  }
}
